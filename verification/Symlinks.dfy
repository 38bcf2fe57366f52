/** Checking and recreating the ordered symlinks of a configuration directory. */
module Symlinks {
  import opened Common
  import opened Files

  /** One directory entry; link is the target if the entry is a symlink. */
  datatype Entry = Entry(name: string, link: Option<Path>)

  /** What reading a directory that holds the links m returns: every entry once, by name. */
  ghost predicate Listing(m: map<Path, Path>, dir: Path, files: seq<Entry>) {
    && (forall i, j :: 0 <= i < j < |files| ==> Less(files[i].name, files[j].name))
    && (forall i :: 0 <= i < |files| ==> files[i].link == LookUp(m, dir + [files[i].name]))
    && (forall p :: p in m ==> exists i :: 0 <= i < |files| && p == dir + [files[i].name])
  }

  function LookUp(m: map<Path, Path>, p: Path): Option<Path> {
    if p in m then Some(m[p]) else None
  }

  lemma {:induction false} LessAsymmetric(a: string, b: string)
    ensures !(Less(a, b) && Less(b, a))
    decreases |a|
  {
    if a != "" && b != "" && a[0] == b[0] {
      LessAsymmetric(a[1..], b[1..]);
    }
  }

  lemma {:induction false} LinkMapLookup(links: seq<Symlink>, i: nat)
    requires SortedByName(links) && i < |links|
    ensures links[i].path in LinkMap(links) && LinkMap(links)[links[i].path] == links[i].target
    decreases |links|
  {
    var n := |links| - 1;
    if i < n {
      LinkMapLookup(links[..n], i);
      LessAsymmetric(Base(links[i].path), Base(links[n].path));
      assert links[..n][i] == links[i];
    }
  }

  lemma LastIsNew(links: seq<Symlink>)
    requires SortedByName(links) && links != []
    ensures links[|links| - 1].path !in LinkMap(links[..|links| - 1])
  {
    var n := |links| - 1;
    LinkMapKeys(links[..n]);
    if links[n].path in LinkMap(links[..n]) {
      var i :| 0 <= i < n && links[..n][i].path == links[n].path;
      LessAsymmetric(Base(links[i].path), Base(links[n].path));
    }
  }

  lemma LinkMapDropLast(links: seq<Symlink>)
    requires SortedByName(links) && links != []
    ensures LinkMap(links[..|links| - 1]) == LinkMap(links) - {links[|links| - 1].path}
  {
    LastIsNew(links);
    var n := |links| - 1;
    PutThenDrop(LinkMap(links[..n]), links[n].path, links[n].target);
  }

  lemma PutThenDrop(m: map<Path, Path>, p: Path, target: Path)
    requires p !in m
    ensures m[p := target] - {p} == m
  {
  }

  /** The last of a sorted list is not below any link of the directory. */
  lemma LastIsGreatest(links: seq<Symlink>, p: Path)
    requires SortedByName(links) && p in LinkMap(links)
    ensures links != [] && (p == links[|links| - 1].path || Less(Base(p), Base(links[|links| - 1].path)))
  {
    LinkMapKeys(links);
    var i :| 0 <= i < |links| && links[i].path == p;
  }

  /** Lists sorted by name are equal as soon as they hold the same links. */
  lemma {:induction false} SortedListsAgree(a: seq<Symlink>, b: seq<Symlink>)
    requires SortedByName(a) && SortedByName(b) && LinkMap(a) == LinkMap(b)
    ensures a == b
    decreases |a|
  {
    if a == [] || b == [] {
      if b != [] {
        LinkMapLookup(b, 0);
      } else if a != [] {
        LinkMapLookup(a, 0);
      }
    } else {
      var m, n := |a| - 1, |b| - 1;
      SameLast(a, b);
      LinkMapDropLast(a);
      LinkMapDropLast(b);
      SortedListsAgree(a[..m], b[..n]);
      assert a == a[..m] + [a[m]] && b == b[..n] + [b[n]];
    }
  }

  lemma SameLast(a: seq<Symlink>, b: seq<Symlink>)
    requires SortedByName(a) && SortedByName(b) && LinkMap(a) == LinkMap(b) && a != [] && b != []
    ensures a[|a| - 1] == b[|b| - 1]
  {
    var m, n := |a| - 1, |b| - 1;
    LinkMapLookup(a, m);
    LinkMapLookup(b, n);
    LastIsGreatest(a, b[n].path);
    LastIsGreatest(b, a[m].path);
    LessAsymmetric(Base(a[m].path), Base(b[n].path));
  }

  /** The links among the first n entries. */
  function Collected(dir: Path, files: seq<Entry>, n: nat): seq<Symlink>
    requires n <= |files|
  {
    if n == 0 then []
    else
      var before := Collected(dir, files, n - 1);
      match files[n - 1].link
      case None => before
      case Some(target) => before + [Symlink(dir + [files[n - 1].name], target)]
  }

  lemma {:induction false} CollectedEntries(dir: Path, files: seq<Entry>, n: nat)
    requires n <= |files|
    ensures forall s :: s in Collected(dir, files, n) ==>
      exists i :: 0 <= i < n && s.path == dir + [files[i].name] && files[i].link == Some(s.target)
    ensures forall i :: 0 <= i < n && files[i].link.Some? ==>
      Symlink(dir + [files[i].name], files[i].link.value) in Collected(dir, files, n)
    decreases n
  {
    if n > 0 {
      CollectedEntries(dir, files, n - 1);
      forall s | s in Collected(dir, files, n)
        ensures exists i :: 0 <= i < n && s.path == dir + [files[i].name] && files[i].link == Some(s.target)
      {
        if s !in Collected(dir, files, n - 1) {
          assert files[n - 1].link == Some(s.target);
        }
      }
    }
  }

  lemma {:induction false} CollectedSorted(dir: Path, files: seq<Entry>, n: nat)
    requires n <= |files| && forall i, j :: 0 <= i < j < |files| ==> Less(files[i].name, files[j].name)
    ensures SortedByName(Collected(dir, files, n))
    decreases n
  {
    if n > 0 {
      CollectedSorted(dir, files, n - 1);
      var before, all := Collected(dir, files, n - 1), Collected(dir, files, n);
      CollectedEntries(dir, files, n - 1);
      forall i, j | 0 <= i < j < |all|
        ensures Less(Base(all[i].path), Base(all[j].path))
      {
        if j == |before| {
          assert before[i] in before && Base(all[j].path) == files[n - 1].name;
        }
      }
    }
  }

  /** A sorted list that names exactly the links of m is m. */
  lemma LinkMapIs(links: seq<Symlink>, m: map<Path, Path>)
    requires SortedByName(links)
    requires forall l :: l in links ==> l.path in m && m[l.path] == l.target
    requires forall p :: p in m ==> Symlink(p, m[p]) in links
    ensures LinkMap(links) == m
  {
    LinkMapKeys(links);
    forall p | p in LinkMap(links)
      ensures p in m && LinkMap(links)[p] == m[p]
    {
      var i :| 0 <= i < |links| && links[i].path == p;
      assert links[i] in links;
      LinkMapLookup(links, i);
    }
    forall p | p in m
      ensures p in LinkMap(links)
    {
      assert Symlink(p, m[p]) in links;
    }
  }

  /** The collected links are the directory's links. */
  lemma CollectedAll(m: map<Path, Path>, dir: Path, files: seq<Entry>)
    requires Listing(m, dir, files)
    ensures SortedByName(Collected(dir, files, |files|)) && LinkMap(Collected(dir, files, |files|)) == m
  {
    var all := Collected(dir, files, |files|);
    CollectedSorted(dir, files, |files|);
    CollectedEntries(dir, files, |files|);
    forall p | p in m
      ensures Symlink(p, m[p]) in all
    {
      var i :| 0 <= i < |files| && p == dir + [files[i].name];
    }
    LinkMapIs(all, m);
  }

  /** Reads the directory's symlinks in listing order and compares them with the wanted list. */
  method CheckIfSymlinksInOrder(t: Tree, dir: Path, links: seq<Symlink>, files: seq<Entry>) returns (inOrder: bool)
    requires Listing(LinksIn(t, dir), dir, files)
    ensures inOrder <==> InOrder(t, dir, links)
  {
    var symlinks: seq<Symlink> := [];
    var i := 0;
    while i < |files|
      invariant 0 <= i <= |files| && symlinks == Collected(dir, files, i)
    {
      if files[i].link.Some? {
        symlinks := symlinks + [Symlink(dir + [files[i].name], files[i].link.value)];
      }
      i := i + 1;
    }
    CollectedAll(LinksIn(t, dir), dir, files);
    inOrder := links == symlinks;
    if InOrder(t, dir, links) {
      SortedListsAgree(links, symlinks);
    }
  }

  /** Creates the links in turn. */
  method CreateInTurn(t: Tree, links: seq<Symlink>) returns (tree: Tree, ok: bool)
    ensures (tree, ok) == CreateLinks(t, links)
  {
    tree, ok := t, true;
    var i := 0;
    while i < |links|
      invariant 0 <= i <= |links| && ok
      invariant CreateLinks(t, links) == CreateLinks(tree, links[i..])
    {
      assert links[i..][0] == links[i] && links[i..][1..] == links[i + 1..];
      var (made, fine) := MakeLink(tree, links[i].path, links[i].target);
      tree, ok := made, fine;
      if !ok {
        return;
      }
      i := i + 1;
    }
  }

  function Paths(links: seq<Symlink>): set<Path> {
    set s | s in links :: s.path
  }

  lemma SkipsFile(dir: Path, files: seq<Entry>, i: nat)
    requires i < |files|
    ensures files[i].link.None? ==> Collected(dir, files, i + 1) == Collected(dir, files, i)
  {
  }

  /** Removes the listed symlinks in turn; every removal succeeds. */
  method RemoveInTurn(t: Tree, dir: Path, files: seq<Entry>) returns (tree: Tree, ok: bool)
    requires Listing(LinksIn(t, dir), dir, files)
    ensures ok && tree == RemoveLinks(t, dir)
  {
    tree, ok := t, true;
    var i := 0;
    assert t.nodes - {} == t.nodes;
    while i < |files|
      invariant 0 <= i <= |files| && ok
      invariant tree == t.(nodes := t.nodes - Paths(Collected(dir, files, i)))
    {
      SkipsFile(dir, files, i);
      if files[i].link.Some? {
        RemovesNext(t, dir, files, i);
        var (rest, fine) := Delete(tree, dir + [files[i].name]);
        tree, ok := rest, fine;
        if !ok {
          return;
        }
      }
      i := i + 1;
    }
    CollectedAll(LinksIn(t, dir), dir, files);
    PathsAreKeys(Collected(dir, files, |files|));
  }

  /** Removes every symlink of the directory, then creates the wanted ones, stopping at the first failure. */
  method RecreateSymlinks(t: Tree, dir: Path, links: seq<Symlink>, files: seq<Entry>) returns (tree: Tree, ok: bool)
    requires IsDir(t, dir) && Listing(LinksIn(t, dir), dir, files)
    ensures (tree, ok) == Recreate(t, dir, links)
  {
    tree, ok := RemoveInTurn(t, dir, files);
    if ok {
      tree, ok := CreateInTurn(tree, links);
    }
  }

  lemma PathsAreKeys(links: seq<Symlink>)
    ensures Paths(links) == LinkMap(links).Keys
  {
    LinkMapKeys(links);
    forall p | p in Paths(links)
      ensures p in LinkMap(links)
    {
      var s :| s in links && s.path == p;
      var i :| 0 <= i < |links| && links[i] == s;
    }
  }

  /** Deleting the next listed link succeeds and removes just its path. */
  lemma NotYetCollected(t: Tree, dir: Path, files: seq<Entry>, i: nat)
    requires Listing(LinksIn(t, dir), dir, files) && i < |files|
    ensures dir + [files[i].name] !in Paths(Collected(dir, files, i))
  {
    var p := dir + [files[i].name];
    CollectedEntries(dir, files, i);
    if p in Paths(Collected(dir, files, i)) {
      var s :| s in Collected(dir, files, i) && s.path == p;
      var k :| 0 <= k < i && s.path == dir + [files[k].name];
      assert files[k].name == (dir + [files[k].name])[|dir|] == p[|dir|] == files[i].name;
      LessAsymmetric(files[k].name, files[i].name);
    }
  }

  lemma PathsOfOneMore(before: seq<Symlink>, x: Symlink)
    ensures Paths(before + [x]) == Paths(before) + {x.path}
  {
    forall q
      ensures q in Paths(before + [x]) <==> q in Paths(before) + {x.path}
    {
      if q in Paths(before) {
        var s :| s in before && s.path == q;
        assert s in before + [x];
      }
      assert x in before + [x];
    }
  }

  lemma RemovesNext(t: Tree, dir: Path, files: seq<Entry>, i: nat)
    requires Listing(LinksIn(t, dir), dir, files) && i < |files| && files[i].link.Some?
    ensures Delete(t.(nodes := t.nodes - Paths(Collected(dir, files, i))), dir + [files[i].name]) ==
            (t.(nodes := t.nodes - Paths(Collected(dir, files, i + 1))), true)
  {
    var p, done := dir + [files[i].name], Paths(Collected(dir, files, i));
    assert p in LinksIn(t, dir);
    NotYetCollected(t, dir, files, i);
    PathsOfOneMore(Collected(dir, files, i), Symlink(p, files[i].link.value));
    assert Collected(dir, files, i + 1) == Collected(dir, files, i) + [Symlink(p, files[i].link.value)];
    assert t.nodes - (done + {p}) == (t.nodes - done) - {p};
  }
}
