/** What carrying out a change leaves in the tree, node by node: for a write the content asked for, byte for byte, at the
    node the path leads to, and everything else as it was. */
module FileContents {
  import opened Common
  import opened Files
  import opened ChangeSet
  import opened Convergence

  // ---------- where a path leads ----------

  /** Each path of the chain is a link to the next one. */
  predicate Chain(t: Tree, hops: seq<Path>) {
    && hops != []
    && forall i :: 0 <= i < |hops| - 1 ==> hops[i] != [] && hops[i] in t.nodes && t.nodes[hops[i]] == Link(hops[i + 1])
  }

  /** A chain of n links at most goes from p to q, which is no link. */
  ghost predicate LeadsWithin(t: Tree, p: Path, q: Path, n: nat) {
    && !(q != [] && q in t.nodes && t.nodes[q].Link?)
    && exists hops :: Chain(t, hops) && |hops| <= n + 1 && hops[0] == p && hops[|hops| - 1] == q
  }

  /** The kernel follows forty links. */
  ghost predicate Leads(t: Tree, p: Path, q: Path) {
    LeadsWithin(t, p, q, 40)
  }

  lemma ChainFrom(t: Tree, p: Path, hops: seq<Path>)
    requires Chain(t, hops) && p != [] && p in t.nodes && t.nodes[p] == Link(hops[0])
    ensures Chain(t, [p] + hops)
  {
    var more := [p] + hops;
    forall i | 0 <= i < |more| - 1
      ensures more[i] != [] && more[i] in t.nodes && t.nodes[more[i]] == Link(more[i + 1])
    {
      if i > 0 {
        assert more[i] == hops[i - 1] && more[i + 1] == hops[i];
      }
    }
  }

  lemma ChainRest(t: Tree, hops: seq<Path>)
    requires Chain(t, hops) && |hops| > 1
    ensures Chain(t, hops[1..])
  {
  }

  lemma {:induction false} FollowIsLed(t: Tree, p: Path, n: nat)
    requires Follow(t, p, n).Some?
    ensures LeadsWithin(t, p, Follow(t, p, n).value, n)
    decreases n
  {
    if NodeAt(t, p).Some? && NodeAt(t, p).value.Link? {
      var next, q := NodeAt(t, p).value.target, Follow(t, p, n).value;
      FollowIsLed(t, next, n - 1);
      var hops :| Chain(t, hops) && |hops| <= n && hops[0] == next && hops[|hops| - 1] == q;
      ChainFrom(t, p, hops);
      assert ([p] + hops)[|hops|] == q;
    } else {
      assert Chain(t, [p]);
    }
  }

  lemma {:induction false} ChainIsFollowed(t: Tree, hops: seq<Path>, n: nat)
    requires Chain(t, hops) && |hops| <= n + 1
    requires var q := hops[|hops| - 1]; !(q != [] && q in t.nodes && t.nodes[q].Link?)
    ensures Follow(t, hops[0], n) == Some(hops[|hops| - 1])
    decreases |hops|
  {
    if |hops| > 1 {
      ChainRest(t, hops);
      ChainIsFollowed(t, hops[1..], n - 1);
    }
  }

  lemma FollowLeads(t: Tree, p: Path, q: Path)
    ensures Follow(t, p, MAX_LINKS) == Some(q) <==> Leads(t, p, q)
  {
    if Follow(t, p, MAX_LINKS) == Some(q) {
      FollowIsLed(t, p, MAX_LINKS);
    }
    if Leads(t, p, q) {
      var hops :| Chain(t, hops) && |hops| <= 41 && hops[0] == p && hops[|hops| - 1] == q;
      ChainIsFollowed(t, hops, 40);
    }
  }

  // ---------- one write ----------

  /** The node at the path is a file, with the content up to one trailing line feed if one is given. */
  predicate IsFileAt(t: Tree, p: Path) {
    p != [] && p in t.nodes && t.nodes[p].File?
  }

  predicate Matching(t: Tree, p: Path, c: Content) {
    IsFileAt(t, p) && (t.nodes[p].content == c || t.nodes[p].content == c + [0x0A])
  }

  /** The goal asks for this content and the tree does not have it yet, so the file is written. */
  predicate WritesNow(t: Tree, p: Path, goal: Goal, c: Content) {
    match goal
    case FileWrite(content) => content == c
    case ContentMatch(content) => content == c && !Matching(t, p, c)
    case IsFile(content) => content == c && !IsFileAt(t, p)
    case _ => false
  }

  predicate CanHoldFile(t: Tree, q: Path) {
    q != [] && IsDir(t, q[..|q| - 1]) && !IsDir(t, q)
  }

  /** A write succeeds exactly if its path leads to a place for a file, and then exactly that content is there, and
      nothing else has changed; a failed one changes nothing. */
  lemma WriteIsExact(t: Tree, p: Path, goal: Goal, c: Content)
    requires WritesNow(t, p, goal, c)
    ensures var (t', ok) := Apply(t, p, goal);
            && (ok <==> exists q :: Leads(t, p, q) && CanHoldFile(t, q))
            && (!ok ==> t' == t)
            && forall q :: ok && Leads(t, p, q) ==> CanHoldFile(t, q) && t' == Tree(t.nodes[q := File(c)], t.mounted)
  {
    var followed := Follow(t, p, MAX_LINKS);
    forall q
      ensures Leads(t, p, q) <==> followed == Some(q)
    {
      FollowLeads(t, p, q);
    }
    if followed.Some? {
      assert Leads(t, p, followed.value);
    }
  }

  /** A file that has the content already, with one trailing line feed or none, is not written again; nor is any file that
      is only asked to be there. */
  lemma MatchingIsKept(t: Tree, p: Path, c: Content)
    ensures Matching(t, p, c) ==> Apply(t, p, ContentMatch(c)) == (t, true)
    ensures IsFileAt(t, p) ==> Apply(t, p, IsFile(c)) == (t, true)
  {
  }

  // ---------- directories, links, removals, mounts ----------

  /** Some directory on the way to p, with nothing behind it. */
  ghost predicate Grows(t: Tree, p: Path) {
    exists k :: 0 <= k <= |p| && IsDir(t, p[..k]) && forall i :: k < i <= |p| ==> NodeAt(t, p[..i]).None?
  }

  /** Nothing is there from q on to p. */
  predicate MissingTo(t: Tree, q: Path, p: Path) {
    q <= p && forall i :: |q| <= i <= |p| ==> NodeAt(t, p[..i]).None?
  }

  /** The missing directories of the path are there, and nothing else has changed. */
  ghost predicate DirsMade(t: Tree, t': Tree, p: Path) {
    && t'.mounted == t.mounted
    && forall q :: NodeAt(t', q) == if MissingTo(t, q, p) then Some(Directory) else NodeAt(t, q)
  }

  lemma GrowsFromParent(t: Tree, p: Path)
    requires p != [] && NodeAt(t, p).None?
    ensures Grows(t, p) <==> Grows(t, p[..|p| - 1])
  {
    var up := p[..|p| - 1];
    assert p[..|p|] == p;
    if k :| 0 <= k <= |p| && IsDir(t, p[..k]) && forall i :: k < i <= |p| ==> NodeAt(t, p[..i]).None? {
      assert forall i :: 0 <= i <= |up| ==> up[..i] == p[..i];
      assert IsDir(t, up[..k]);
    }
    if k :| 0 <= k <= |up| && IsDir(t, up[..k]) && forall i :: k < i <= |up| ==> NodeAt(t, up[..i]).None? {
      assert forall i :: 0 <= i <= |up| ==> up[..i] == p[..i];
      assert IsDir(t, p[..k]);
    }
  }

  lemma MissingToChild(t: Tree, q: Path, p: Path)
    requires p != [] && NodeAt(t, p).None?
    ensures MissingTo(t, q, p) <==> q == p || MissingTo(t, q, p[..|p| - 1])
  {
    var up := p[..|p| - 1];
    assert p[..|p|] == p && forall i :: 0 <= i <= |up| ==> up[..i] == p[..i];
    if MissingTo(t, q, p) && q != p {
      assert q <= up;
    }
  }

  lemma DirsMadeMore(t: Tree, t': Tree, p: Path)
    requires p != [] && NodeAt(t, p).None? && DirsMade(t, t', p[..|p| - 1])
    ensures DirsMade(t, SetNode(t', p, Directory), p)
  {
    forall q
      ensures NodeAt(SetNode(t', p, Directory), q) == if MissingTo(t, q, p) then Some(Directory) else NodeAt(t, q)
    {
      MissingToChild(t, q, p);
    }
  }

  lemma GrowsIfDir(t: Tree, p: Path)
    requires NodeAt(t, p).Some?
    ensures Grows(t, p) <==> IsDir(t, p)
  {
    assert p[..|p|] == p;
  }

  lemma {:induction false} DirectoriesAre(t: Tree, p: Path)
    requires !IsLink(t, p)
    ensures var (t', ok) := MakeDirAll(t, p);
            (ok <==> Grows(t, p)) && (ok ==> DirsMade(t, t', p))
    decreases |p|
  {
    if NodeAt(t, p).Some? {
      GrowsIfDir(t, p);
      assert p[..|p|] == p;
    } else {
      var up := p[..|p| - 1];
      GrowsFromParent(t, p);
      if IsLink(t, up) {
        GrowsIfDir(t, up);
      } else {
        DirectoriesAre(t, up);
        var (t', ok) := MakeDirAll(t, up);
        if ok {
          assert NodeAt(t', p).None? && IsDir(t', up);
          DirsMadeMore(t, t', p);
        }
      }
    }
  }

  /** Asking for a directory makes those that are missing on its path, exactly if they have a directory to grow from; a
      link is left as it is, and does if it leads to a directory. */
  lemma DirectoryIsExact(t: Tree, p: Path)
    ensures var (t', ok) := Apply(t, p, IsDirectory);
            && (!IsLink(t, p) ==> (ok <==> Grows(t, p)) && (ok ==> DirsMade(t, t', p)))
            && (IsLink(t, p) ==> t' == t && (ok <==> exists q :: Leads(t, p, q) && IsDir(t, q)))
  {
    if IsLink(t, p) {
      forall q
        ensures Leads(t, p, q) <==> Follow(t, p, MAX_LINKS) == Some(q)
      {
        FollowLeads(t, p, q);
      }
    } else {
      DirectoriesAre(t, p);
      if IsDir(t, p) {
        assert MakeDirAll(t, p) == (t, true);
      }
    }
  }

  predicate HasChild(t: Tree, p: Path) {
    exists q :: q in t.nodes && q != [] && q[..|q| - 1] == p
  }

  /** A removal takes away the node itself, and only a directory with something in it is refused. */
  lemma RemovalIsExact(t: Tree, p: Path)
    requires p != []
    ensures var (t', ok) := Apply(t, p, Absent);
            && (ok <==> !(p in t.nodes && t.nodes[p] == Directory && HasChild(t, p)))
            && t' == if ok then Tree(t.nodes - {p}, t.mounted) else t
  {
    if p !in t.nodes {
      assert t.nodes - {p} == t.nodes;
    }
  }

  /** Asking for a link makes it where nothing or another link stands and its directory is there. */
  lemma LinkIsExact(t: Tree, p: Path, target: Path)
    requires p != []
    ensures var (t', ok) := Apply(t, p, LinkTo(target));
            && (ok <==> || (p in t.nodes && t.nodes[p] == Link(target))
                        || ((p in t.nodes ==> t.nodes[p].Link?) && IsDir(t, p[..|p| - 1])))
            && (ok ==> t' == Tree(t.nodes[p := Link(target)], t.mounted))
  {
    if p in t.nodes && t.nodes[p] == Link(target) {
      assert t.nodes[p := Link(target)] == t.nodes;
    } else if p in t.nodes && t.nodes[p].Link? {
      assert (t.nodes - {p})[p := Link(target)] == t.nodes[p := Link(target)];
      assert p[..|p| - 1] != p;
    }
  }

  /** Mounting takes a directory; touching takes a path that leads to something, and changes nothing that is modelled. */
  lemma MountAndTouchAreExact(t: Tree, p: Path)
    ensures Apply(t, p, MountedConfigFS) ==
            if IsDir(t, p) then (Tree(t.nodes, t.mounted + {p}), true) else (t, false)
    ensures var (t', ok) := Apply(t, p, Touch);
            t' == t && (ok <==> exists q :: Leads(t, p, q) && NodeAt(t, q).Some?)
  {
    if p in t.mounted {
      assert t.mounted + {p} == t.mounted;
    }
    forall q
      ensures Leads(t, p, q) <==> Follow(t, p, MAX_LINKS) == Some(q)
    {
      FollowLeads(t, p, q);
    }
  }

  // ---------- the content stays ----------

  predicate Holds(t: Tree, q: Path, c: Content) {
    q != [] && q in t.nodes && t.nodes[q] == File(c)
  }

  /** What may replace the file at q. */
  predicate Touches(d: Change, q: Path) {
    Disturbs(d, Change(PathKey(q), q, FileWrite([]), [], None, false, false))
  }

  lemma ContentKept(t: Tree, d: Change, q: Path, c: Content)
    requires Holds(t, q, c) && !Touches(d, q) && !(FollowsLink(d.goal) && IsLink(t, d.path))
    ensures Holds(After(t, d.path, d.goal), q, c)
  {
    match d.goal
    case IsDirectory => MakeDirAllFrame(t, d.path);
    case LinksInOrder(links) => RecreateFrame(t, d.path, links, q);
    case _ =>
  }

  lemma {:induction false} ContentStays(t: Tree, plan: seq<Change>, q: Path, c: Content)
    requires Holds(t, q, c) && NoLinksInTheWay(t, plan)
    requires forall j :: 0 <= j < |plan| ==> !Touches(plan[j], q)
    ensures Holds(ApplyPlan(t, plan).0, q, c)
    decreases |plan|
  {
    if plan != [] {
      var d := plan[0];
      assert d in plan;
      ContentKept(t, d, q, c);
      NoLinksAfter(t, plan);
      ContentStays(After(t, d.path, d.goal), plan[1..], q, c);
    }
  }

  /** The first disturbs the second exactly if it may replace the file that one writes. */
  lemma DisturbedWrite(d: Change, w: Change)
    requires w.goal.FileWrite?
    ensures Disturbs(d, w) <==> Touches(d, w.path)
  {
  }

  lemma WriteThen(t: Tree, w: Change, behind: seq<Change>, c: Content, q: Path)
    requires ApplyPlan(t, [w] + behind).1 && (w.ignoreErrors ==> Apply(t, w.path, w.goal).1)
    requires WritesNow(t, w.path, w.goal, c) && Leads(t, w.path, q)
    requires NoLinksInTheWay(After(t, w.path, w.goal), behind) && forall d :: d in behind ==> !Touches(d, q)
    ensures Holds(ApplyPlan(t, [w] + behind).0, q, c)
  {
    assert ([w] + behind)[1..] == behind;
    WriteIsExact(t, w.path, w.goal, c);
    ContentStays(After(t, w.path, w.goal), behind, q, c);
  }

  lemma SplitAt(plan: seq<Change>, i: nat)
    requires i < |plan|
    ensures plan == plan[..i] + ([plan[i]] + plan[i + 1..])
  {
  }

  /** A plan's write lasts: when it is carried out at its turn, and no link is in the way of what comes behind it and none
      of that touches what it wrote, then to the end of the plan exactly its content is at the node its path led to. */
  lemma WriteLasts(t: Tree, plan: seq<Change>, i: nat, c: Content, q: Path)
    requires ApplyPlan(t, plan).1 && i < |plan|
    requires var t1 := ApplyPlan(t, plan[..i]).0;
             && WritesNow(t1, plan[i].path, plan[i].goal, c) && Leads(t1, plan[i].path, q)
             && (plan[i].ignoreErrors ==> Apply(t1, plan[i].path, plan[i].goal).1)
             && NoLinksInTheWay(After(t1, plan[i].path, plan[i].goal), plan[i + 1..])
    requires forall d :: d in plan[i + 1..] ==> !Touches(d, q)
    ensures Holds(ApplyPlan(t, plan).0, q, c)
  {
    SplitAt(plan, i);
    ApplyPlanSplit(t, plan[..i], [plan[i]] + plan[i + 1..]);
    WriteThen(ApplyPlan(t, plan[..i]).0, plan[i], plan[i + 1..], c, q);
  }
}
