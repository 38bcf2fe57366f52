/** Applying an ordinary gadget's transaction meets no error: what each change needs of the file tree, that earlier
    changes see to it, and that none takes it away. */
module TidyApply {
  import opened Common
  import opened Files
  import opened ChangeSet
  import opened Convergence

  predicate DirOrNone(t: Tree, p: Path) {
    NodeAt(t, p).None? || IsDir(t, p)
  }

  predicate FileOrNone(t: Tree, p: Path) {
    NodeAt(t, p).None? || NodeAt(t, p).value.File?
  }

  predicate LinkOrNone(t: Tree, p: Path) {
    NodeAt(t, p).None? || IsLink(t, p)
  }

  /** Nothing but directories on the way to p. */
  predicate WayIsOpen(t: Tree, p: Path) {
    forall i :: 0 <= i <= |p| ==> DirOrNone(t, p[..i])
  }

  predicate Writes(c: Change) {
    c.goal.ContentMatch? || c.goal.FileWrite?
  }

  /** The nodes at the paths of the change are of the kind it makes of them, or absent. */
  predicate KindFits(t: Tree, c: Change) {
    match c.goal
    case MountedConfigFS => IsDir(t, c.path)
    case IsDirectory => WayIsOpen(t, c.path)
    case ContentMatch(_) => c.path != [] && FileOrNone(t, c.path)
    case FileWrite(_) => c.path != [] && FileOrNone(t, c.path)
    case Absent => !IsDir(t, c.path)
    case LinksInOrder(links) => forall l :: l in links ==> LinkOrNone(t, l.path)
    case _ => true
  }

  /** The links lie directly in the directory, each once. */
  predicate ProperLinks(dir: Path, links: seq<Symlink>) {
    && links != []
    && (forall i :: 0 <= i < |links| ==> ChildOf(links[i].path, dir))
    && (forall i, j :: 0 <= i < j < |links| ==> links[i].path != links[j].path)
  }

  /** And the directory it works in is there. */
  predicate Ready(t: Tree, c: Change) {
    KindFits(t, c) &&
    match c.goal
    case ContentMatch(_) => IsDir(t, Parent(c.path))
    case FileWrite(_) => IsDir(t, Parent(c.path))
    case LinksInOrder(links) => IsDir(t, c.path) && ProperLinks(c.path, links)
    case LinkTo(_) => false
    case IsFile(_) => false
    case Touch => false
    case _ => true
  }

  lemma {:induction false} MakeDirAllWorks(t: Tree, p: Path)
    requires WayIsOpen(t, p)
    ensures MakeDirAll(t, p).1 && IsDir(MakeDirAll(t, p).0, p)
    decreases |p|
  {
    assert p[..|p|] == p && DirOrNone(t, p[..|p|]);
    if NodeAt(t, p).None? {
      var up := Parent(p);
      forall i | 0 <= i <= |up|
        ensures DirOrNone(t, up[..i])
      {
        assert up[..i] == p[..i];
      }
      MakeDirAllWorks(t, up);
      MakeDirAllFrame(t, up);
    }
  }

  lemma {:induction false} CreateLinksWorks(t: Tree, dir: Path, links: seq<Symlink>)
    requires IsDir(t, dir) && forall i :: 0 <= i < |links| ==> ChildOf(links[i].path, dir) && NodeAt(t, links[i].path).None?
    requires forall i, j :: 0 <= i < j < |links| ==> links[i].path != links[j].path
    ensures CreateLinks(t, links).1
    decreases |links|
  {
    if links != [] {
      var t' := MakeLink(t, links[0].path, links[0].target).0;
      CreateLinksWorks(t', dir, links[1..]);
    }
  }

  lemma RecreateWorks(t: Tree, dir: Path, links: seq<Symlink>)
    requires IsDir(t, dir) && ProperLinks(dir, links) && forall l :: l in links ==> LinkOrNone(t, l.path)
    ensures Recreate(t, dir, links).1
  {
    var t1 := RemoveLinks(t, dir);
    forall i | 0 <= i < |links|
      ensures NodeAt(t1, links[i].path).None?
    {
      assert links[i] in links;
    }
    CreateLinksWorks(t1, dir, links);
  }

  lemma WriteSucceeds(t: Tree, c: Change)
    requires Ready(t, c) && Writes(c)
    ensures Apply(t, c.path, c.goal).1
  {
  }

  /** A change that is ready is carried out. */
  lemma ReadySucceeds(t: Tree, c: Change)
    requires Ready(t, c)
    ensures Apply(t, c.path, c.goal).1 && (c.goal.IsDirectory? ==> IsDir(After(t, c.path, c.goal), c.path))
  {
    match c.goal
    case IsDirectory => MakeDirAllWorks(t, c.path);
    case LinksInOrder(links) =>
      if ActionFor(t, c.path, c.goal) == ReorderSymlinks {
        RecreateWorks(t, c.path, links);
      }
    case ContentMatch(_) => WriteSucceeds(t, c);
    case FileWrite(_) => WriteSucceeds(t, c);
    case _ =>
  }

  // ---------- what a change does to a node ----------

  /** All a fitting change can do to the node at q. */
  predicate Effect(t: Tree, t': Tree, d: Change, q: Path) {
    || NodeAt(t', q) == NodeAt(t, q)
    || (d.goal.IsDirectory? && q <= d.path && NodeAt(t, q).None? && IsDir(t', q))
    || (Writes(d) && q == d.path && NodeAt(t', q).Some? && NodeAt(t', q).value.File?)
    || (d.goal.Absent? && q == d.path && NodeAt(t', q).None?)
    || (d.goal.LinksInOrder? && LinkOrNone(t, q) && (NodeAt(t', q).None? || (IsLink(t', q) && MakesLinkAt(d.goal, d.path, q))))
  }

  lemma ReorderEffect(t: Tree, d: Change, q: Path)
    requires d.goal.LinksInOrder? && KindFits(t, d)
    ensures Effect(t, After(t, d.path, d.goal), d, q)
  {
    if ActionFor(t, d.path, d.goal) == ReorderSymlinks && IsDir(t, d.path) {
      var t1 := RemoveLinks(t, d.path);
      CreateLinksFrame(t1, d.goal.links);
      assert q in t1.nodes ==> q in t.nodes && t1.nodes[q] == t.nodes[q];
      assert q in t.nodes && q !in t1.nodes ==> q in LinksIn(t, d.path);
    }
  }

  lemma FitEffect(t: Tree, d: Change, q: Path)
    requires KindFits(t, d) && !d.goal.LinkTo? && !d.goal.IsFile?
    ensures Effect(t, After(t, d.path, d.goal), d, q)
  {
    match d.goal
    case IsDirectory => MakeDirAllFrame(t, d.path);
    case LinksInOrder(_) => ReorderEffect(t, d, q);
    case _ =>
  }

  /** Directories stay. */
  lemma DirStays(t: Tree, d: Change, q: Path)
    requires KindFits(t, d) && !d.goal.LinkTo? && !d.goal.IsFile? && IsDir(t, q)
    ensures IsDir(After(t, d.path, d.goal), q)
  {
    FitEffect(t, d, q);
  }

  /** A place the change makes something other than a directory of. */
  predicate Occupies(c: Change, p: Path) {
    ((Writes(c) || c.goal.Absent?) && p == c.path) || MakesLinkAt(c.goal, c.path, p)
  }

  /** No directory of one at or below such a place of the other, and no file of one where the other has a link. */
  ghost predicate Fair(d: Change, c: Change) {
    && (d.goal.IsDirectory? ==> forall p :: Occupies(c, p) ==> !(p <= d.path))
    && (c.goal.IsDirectory? ==> forall p :: Occupies(d, p) ==> !(p <= c.path))
    && (Writes(c) ==> !MakesLinkAt(d.goal, d.path, c.path))
    && (Writes(d) ==> !MakesLinkAt(c.goal, c.path, d.path))
  }

  lemma WayStaysOpen(t: Tree, d: Change, c: Change, i: nat)
    requires KindFits(t, d) && KindFits(t, c) && Fair(d, c) && !d.goal.LinkTo? && !d.goal.IsFile?
    requires c.goal.IsDirectory? && i <= |c.path|
    ensures DirOrNone(After(t, d.path, d.goal), c.path[..i])
  {
    var q := c.path[..i];
    assert q <= c.path && DirOrNone(t, q);
    FitEffect(t, d, q);
    assert !Occupies(d, q);
  }

  lemma KindKept(t: Tree, d: Change, c: Change)
    requires KindFits(t, d) && KindFits(t, c) && Fair(d, c)
    requires !d.goal.LinkTo? && !d.goal.IsFile?
    ensures KindFits(After(t, d.path, d.goal), c)
  {
    var t' := After(t, d.path, d.goal);
    match c.goal
    case IsDirectory =>
      forall i | 0 <= i <= |c.path|
        ensures DirOrNone(t', c.path[..i])
      {
        WayStaysOpen(t, d, c, i);
      }
    case LinksInOrder(links) =>
      forall l | l in links
        ensures LinkOrNone(t', l.path)
      {
        FitEffect(t, d, l.path);
        assert Occupies(c, l.path) && MakesLinkAt(c.goal, c.path, l.path);
      }
    case MountedConfigFS => DirStays(t, d, c.path);
    case LinkTo(_) =>
    case Unknown =>
    case Touch =>
    case IsFile(_) =>
    case _ =>
      FitEffect(t, d, c.path);
      assert Occupies(c, c.path);
  }
}
