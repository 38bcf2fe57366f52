/** A file tree, one requested change to it, the action the change resolves to, and what carrying the
    action out does. */
module Files {
  import opened Common

  type Content = seq<byte>

  /** An absolute path by its components; [] is the root. */
  type Path = seq<string>

  datatype Node = Directory | File(content: Content) | Link(target: Path)

  datatype Tree = Tree(nodes: map<Path, Node>, mounted: set<Path>)

  datatype Symlink = Symlink(path: Path, target: Path)

  /** The requested state of a path. */
  datatype Goal =
    | Unknown
    | Absent
    | IsDirectory
    | IsFile(content: Content)
    | ContentMatch(content: Content)
    | FileWrite(content: Content)
    | MountedConfigFS
    | LinkTo(target: Path)
    | LinksInOrder(links: seq<Symlink>)
    | Touch

  datatype Action =
    | DoNothing
    | Remove
    | CreateFile
    | WriteFile
    | UpdateFile
    | CreateSymlink
    | RecreateSymlink
    | ReorderSymlinks
    | CreateDirectory
    | TouchFile
    | MountConfigFS

  function NodeAt(t: Tree, p: Path): Option<Node> {
    if p == [] then Some(Directory) else if p in t.nodes then Some(t.nodes[p]) else None
  }

  predicate IsDir(t: Tree, p: Path) {
    NodeAt(t, p) == Some(Directory)
  }

  function Parent(p: Path): Path {
    if p == [] then [] else p[..|p| - 1]
  }

  function Base(p: Path): string {
    if p == [] then "" else p[|p| - 1]
  }

  predicate ChildOf(p: Path, dir: Path) {
    p != [] && Parent(p) == dir
  }

  // ---------- symlinks of a directory ----------

  /** The links directly in a directory, by path. */
  function LinksIn(t: Tree, dir: Path): map<Path, Path> {
    map p | p in t.nodes && ChildOf(p, dir) && t.nodes[p].Link? :: t.nodes[p].target
  }

  function LinkMap(links: seq<Symlink>): map<Path, Path> {
    if links == [] then map[] else LinkMap(links[..|links| - 1])[links[|links| - 1].path := links[|links| - 1].target]
  }

  /** Byte-wise order of file names, the order directories are listed in. */
  predicate Less(a: string, b: string) {
    b != "" && (a == "" || a[0] < b[0] || (a[0] == b[0] && Less(a[1..], b[1..])))
  }

  predicate SortedByName(links: seq<Symlink>) {
    forall i, j :: 0 <= i < j < |links| ==> Less(Base(links[i].path), Base(links[j].path))
  }

  /** The wanted links are exactly the links in the directory, and listed by name. */
  predicate InOrder(t: Tree, dir: Path, links: seq<Symlink>) {
    SortedByName(links) && LinksIn(t, dir) == LinkMap(links)
  }

  // ---------- the action of a change ----------

  /** File content counts as equal up to one trailing newline of the file. */
  predicate Matches(actual: Content, expected: Content) {
    actual == expected || actual == expected + [0x0A]
  }

  function ActionFor(t: Tree, path: Path, goal: Goal): Action {
    var node := NodeAt(t, path);
    match goal
    case FileWrite(_) => WriteFile
    case Touch => TouchFile
    case IsDirectory => if node == Some(Directory) then DoNothing else CreateDirectory
    case IsFile(_) => if node.Some? && node.value.File? then DoNothing else CreateFile
    case ContentMatch(content) =>
      if node.Some? && node.value.File? then
        (if Matches(node.value.content, content) then DoNothing else UpdateFile)
      else CreateFile
    case LinkTo(target) =>
      if node.Some? && node.value.Link? then
        (if node.value.target == target then DoNothing else RecreateSymlink)
      else CreateSymlink
    case LinksInOrder(links) =>
      if node == Some(Directory) && (links == [] || InOrder(t, path, links)) then DoNothing else ReorderSymlinks
    case Absent => if node.None? then DoNothing else Remove
    case MountedConfigFS => if node == Some(Directory) && path in t.mounted then DoNothing else MountConfigFS
    case Unknown => DoNothing
  }

  // ---------- file operations: the new tree and whether the call succeeded ----------

  function SetNode(t: Tree, p: Path, n: Node): Tree {
    t.(nodes := t.nodes[p := n])
  }

  /** The path a chain of links leads to; the kernel gives up after forty. */
  function Follow(t: Tree, p: Path, budget: nat): Option<Path>
    decreases budget
  {
    if NodeAt(t, p).Some? && NodeAt(t, p).value.Link? then
      (if budget == 0 then None else Follow(t, NodeAt(t, p).value.target, budget - 1))
    else Some(p)
  }

  const MAX_LINKS: nat := 40

  function Write(t: Tree, p: Path, content: Content): (Tree, bool) {
    match Follow(t, p, MAX_LINKS)
    case None => (t, false)
    case Some(q) => if q != [] && IsDir(t, Parent(q)) && !IsDir(t, q) then (SetNode(t, q, File(content)), true) else (t, false)
  }

  function MakeLink(t: Tree, p: Path, target: Path): (Tree, bool) {
    if NodeAt(t, p).None? && IsDir(t, Parent(p)) then (SetNode(t, p, Link(target)), true) else (t, false)
  }

  function Delete(t: Tree, p: Path): (Tree, bool) {
    if p == [] || p !in t.nodes || (t.nodes[p].Directory? && exists q :: q in t.nodes && ChildOf(q, p)) then (t, false)
    else (t.(nodes := t.nodes - {p}), true)
  }

  function MakeDirAll(t: Tree, p: Path): (Tree, bool)
    decreases |p|
  {
    match NodeAt(t, p)
    case Some(Directory) => (t, true)
    case Some(File(_)) => (t, false)
    case Some(Link(_)) =>
      (match Follow(t, p, MAX_LINKS) case None => (t, false) case Some(q) => (t, IsDir(t, q)))
    case None =>
      var (t', ok) := MakeDirAll(t, Parent(p));
      if ok && IsDir(t', Parent(p)) && NodeAt(t', p).None? then (SetNode(t', p, Directory), true) else (t', false)
  }

  function RemoveLinks(t: Tree, dir: Path): Tree {
    t.(nodes := t.nodes - LinksIn(t, dir).Keys)
  }

  /** Creates the links in turn and stops at the first failure. */
  function CreateLinks(t: Tree, links: seq<Symlink>): (Tree, bool)
    decreases |links|
  {
    if links == [] then (t, true)
    else
      var (t', ok) := MakeLink(t, links[0].path, links[0].target);
      if ok then CreateLinks(t', links[1..]) else (t', false)
  }

  function Recreate(t: Tree, dir: Path, links: seq<Symlink>): (Tree, bool) {
    if IsDir(t, dir) then CreateLinks(RemoveLinks(t, dir), links) else (t, false)
  }

  function Perform(t: Tree, path: Path, goal: Goal, action: Action): (Tree, bool) {
    match action
    case DoNothing => (t, true)
    case Remove => Delete(t, path)
    case CreateDirectory => MakeDirAll(t, path)
    case TouchFile => (t, Follow(t, path, MAX_LINKS).Some? && NodeAt(t, Follow(t, path, MAX_LINKS).value).Some?)
    case MountConfigFS => if IsDir(t, path) then (t.(mounted := t.mounted + {path}), true) else (t, false)
    case CreateSymlink => if goal.LinkTo? then MakeLink(t, path, goal.target) else (t, false)
    case RecreateSymlink =>
      var (t', ok) := Delete(t, path);
      if ok && goal.LinkTo? then MakeLink(t', path, goal.target) else (t', false)
    case ReorderSymlinks => if goal.LinksInOrder? then Recreate(t, path, goal.links) else (t, false)
    case _ =>
      match goal
      case IsFile(content) => Write(t, path, content)
      case ContentMatch(content) => Write(t, path, content)
      case FileWrite(content) => Write(t, path, content)
      case _ => (t, false)
  }

  /** One change as the apply loop makes it: the action is resolved again against the current tree. */
  function Apply(t: Tree, path: Path, goal: Goal): (Tree, bool) {
    Perform(t, path, goal, ActionFor(t, path, goal))
  }

  // ---------- laws of the link operations ----------

  lemma {:induction false} LinkMapKeys(links: seq<Symlink>)
    ensures forall p :: p in LinkMap(links) <==> exists i :: 0 <= i < |links| && links[i].path == p
  {
    if links != [] {
      var n := |links| - 1;
      LinkMapKeys(links[..n]);
      forall p
        ensures p in LinkMap(links) <==> exists i :: 0 <= i < |links| && links[i].path == p
      {
        if p in LinkMap(links[..n]) {
          var i :| 0 <= i < n && links[..n][i].path == p;
          assert links[i].path == p;
        }
        if i :| 0 <= i < |links| && links[i].path == p {
          assert i < n ==> links[..n][i].path == p;
        }
      }
    }
  }

  lemma MakeLinkAdds(t: Tree, p: Path, target: Path, dir: Path)
    requires ChildOf(p, dir) && MakeLink(t, p, target).1
    ensures LinksIn(MakeLink(t, p, target).0, dir) == LinksIn(t, dir)[p := target]
  {
  }

  lemma LinkMapPush(done: seq<Symlink>, l: Symlink)
    ensures LinkMap(done + [l]) == LinkMap(done)[l.path := l.target]
  {
    assert (done + [l])[..|done|] == done;
  }

  lemma PushFirst(done: seq<Symlink>, links: seq<Symlink>)
    requires links != []
    ensures (done + [links[0]]) + links[1..] == done + links
  {
  }

  /** What a successful creation loop leaves: the links there were, and the new ones. */
  lemma {:induction false} CreateLinksAdds(t: Tree, dir: Path, done: seq<Symlink>, links: seq<Symlink>)
    requires forall i :: 0 <= i < |links| ==> ChildOf(links[i].path, dir)
    requires LinksIn(t, dir) == LinkMap(done) && CreateLinks(t, links).1
    ensures LinksIn(CreateLinks(t, links).0, dir) == LinkMap(done + links)
    decreases |links|
  {
    if links == [] {
      assert done + links == done;
    } else {
      var t' := MakeLink(t, links[0].path, links[0].target).0;
      MakeLinkAdds(t, links[0].path, links[0].target, dir);
      LinkMapPush(done, links[0]);
      CreateLinksAdds(t', dir, done + [links[0]], links[1..]);
      PushFirst(done, links);
    }
  }

  lemma CreateLinksFresh(t: Tree, dir: Path, links: seq<Symlink>)
    requires forall i :: 0 <= i < |links| ==> ChildOf(links[i].path, dir)
    requires LinksIn(t, dir) == map[] && CreateLinks(t, links).1
    ensures LinksIn(CreateLinks(t, links).0, dir) == LinkMap(links)
  {
    CreateLinksAdds(t, dir, [], links);
    assert [] + links == links;
  }

  /** Reordering recreates the links, or there was nothing to do since they are as wanted. */
  lemma ReorderCases(t: Tree, dir: Path, links: seq<Symlink>)
    requires links != [] && Apply(t, dir, LinksInOrder(links)).1
    ensures var t' := Apply(t, dir, LinksInOrder(links)).0;
            || (t' == t && LinksIn(t, dir) == LinkMap(links))
            || (t' == Recreate(t, dir, links).0 && Recreate(t, dir, links).1)
  {
  }

  /** A successful reorder leaves exactly the wanted links in the directory. */
  lemma ReorderLeavesExactly(t: Tree, dir: Path, links: seq<Symlink>)
    requires links != [] && forall i :: 0 <= i < |links| ==> ChildOf(links[i].path, dir)
    requires Apply(t, dir, LinksInOrder(links)).1
    ensures LinksIn(Apply(t, dir, LinksInOrder(links)).0, dir) == LinkMap(links)
  {
    ReorderCases(t, dir, links);
    if Recreate(t, dir, links).1 {
      RecreateLeavesExactly(t, dir, links);
    }
  }

  lemma RecreateLeavesExactly(t: Tree, dir: Path, links: seq<Symlink>)
    requires forall i :: 0 <= i < |links| ==> ChildOf(links[i].path, dir)
    requires Recreate(t, dir, links).1
    ensures LinksIn(Recreate(t, dir, links).0, dir) == LinkMap(links)
  {
    CreateLinksFresh(RemoveLinks(t, dir), dir, links);
  }

  /** Directories are made of directories only, whether or not the call succeeds. */
  lemma {:induction false} MakeDirAllFrame(t: Tree, p: Path)
    ensures var t' := MakeDirAll(t, p).0;
            && t'.mounted == t.mounted
            && (forall q :: q in t.nodes ==> q in t'.nodes && t'.nodes[q] == t.nodes[q])
            && (forall q :: q in t'.nodes && q !in t.nodes ==> t'.nodes[q] == Directory && q <= p)
    decreases |p|
  {
    if NodeAt(t, p).None? {
      MakeDirAllFrame(t, Parent(p));
    }
  }

  lemma {:induction false} FollowEndsOffLink(t: Tree, p: Path, budget: nat)
    ensures var q := Follow(t, p, budget);
            q.Some? ==> !(NodeAt(t, q.value).Some? && NodeAt(t, q.value).value.Link?)
    decreases budget
  {
    if NodeAt(t, p).Some? && NodeAt(t, p).value.Link? && budget > 0 {
      FollowEndsOffLink(t, NodeAt(t, p).value.target, budget - 1);
    }
  }

  /** The goals whose changes neither create nor remove links, at any path. */
  predicate LeavesLinks(goal: Goal) {
    !goal.LinkTo? && !goal.LinksInOrder? && !goal.Absent?
  }

  lemma WriteKeepsLinks(t: Tree, path: Path, content: Content, dir: Path)
    ensures LinksIn(Write(t, path, content).0, dir) == LinksIn(t, dir)
  {
    FollowEndsOffLink(t, path, MAX_LINKS);
  }

  lemma MakeDirAllKeepsLinks(t: Tree, path: Path, dir: Path)
    ensures LinksIn(MakeDirAll(t, path).0, dir) == LinksIn(t, dir)
  {
    MakeDirAllFrame(t, path);
  }

  lemma OtherGoalsKeepLinks(t: Tree, path: Path, goal: Goal, dir: Path)
    requires LeavesLinks(goal)
    ensures LinksIn(Apply(t, path, goal).0, dir) == LinksIn(t, dir)
  {
    match goal
    case IsDirectory => MakeDirAllKeepsLinks(t, path, dir);
    case IsFile(content) => WriteKeepsLinks(t, path, content, dir);
    case ContentMatch(content) => WriteKeepsLinks(t, path, content, dir);
    case FileWrite(content) => WriteKeepsLinks(t, path, content, dir);
    case _ =>
  }
}
