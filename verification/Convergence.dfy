/** Convergence: which changes a successful apply settles, so that resolving them again finds nothing to do. */
module Convergence {
  import opened Common
  import opened Files
  import opened ChangeSet
  import Symlinks

  predicate IsLink(t: Tree, p: Path) {
    NodeAt(t, p).Some? && NodeAt(t, p).value.Link?
  }

  /** The goals whose calls follow a link at their own path. */
  predicate FollowsLink(goal: Goal) {
    goal.IsDirectory? || goal.IsFile? || goal.ContentMatch? || goal.FileWrite?
  }

  /** Writing and touching are never done; ordered links are done if they are listed by name and in the directory. */
  predicate Lasting(path: Path, goal: Goal) {
    match goal
    case FileWrite(_) => false
    case Touch => false
    case LinksInOrder(links) => SortedByName(links) && forall l :: l in links ==> ChildOf(l.path, path)
    case _ => true
  }

  predicate Settled(t: Tree, path: Path, goal: Goal) {
    ActionFor(t, path, goal) == DoNothing
  }

  /** A link to the target stands at p, directly in the directory. */
  predicate LinkIsIn(t: Tree, dir: Path, p: Path, target: Path) {
    p in t.nodes && p != [] && p[..|p| - 1] == dir && t.nodes[p] == Link(target)
  }

  /** The tree is as the goal asks: what stands at the path and, for ordered links, what links are in the directory. */
  ghost predicate Meets(t: Tree, path: Path, goal: Goal) {
    var node := NodeAt(t, path);
    match goal
    case IsDirectory => node == Some(Directory)
    case IsFile(_) => node.Some? && node.value.File?
    case ContentMatch(content) => node == Some(File(content)) || node == Some(File(content + [0x0A]))
    case LinkTo(target) => node == Some(Link(target))
    case Absent => node == None
    case MountedConfigFS => node == Some(Directory) && path in t.mounted
    case LinksInOrder(links) =>
      && node == Some(Directory)
      && (links == [] || (SortedByName(links) && forall p, target ::
            LinkIsIn(t, path, p, target) <==> Symlink(p, target) in links))
    case Unknown => true
    case FileWrite(_) => false
    case Touch => false
  }

  lemma LinkMapIff(links: seq<Symlink>, p: Path, target: Path)
    requires SortedByName(links)
    ensures Symlink(p, target) in links <==> p in LinkMap(links) && LinkMap(links)[p] == target
  {
    LinkMapKeys(links);
    if Symlink(p, target) in links {
      var i :| 0 <= i < |links| && links[i] == Symlink(p, target);
      Symlinks.LinkMapLookup(links, i);
    }
    if p in LinkMap(links) {
      var i :| 0 <= i < |links| && links[i].path == p;
      Symlinks.LinkMapLookup(links, i);
    }
  }

  lemma LinksInIff(t: Tree, path: Path, p: Path, target: Path)
    ensures LinkIsIn(t, path, p, target) <==> p in LinksIn(t, path) && LinksIn(t, path)[p] == target
  {
  }

  lemma LinksAsListed(t: Tree, path: Path, links: seq<Symlink>)
    requires SortedByName(links)
    ensures LinksIn(t, path) == LinkMap(links) <==>
            forall p, target :: LinkIsIn(t, path, p, target) <==> Symlink(p, target) in links
  {
    var found, wanted := LinksIn(t, path), LinkMap(links);
    forall p, target
      ensures LinkIsIn(t, path, p, target) <==> p in found && found[p] == target
      ensures Symlink(p, target) in links <==> p in wanted && wanted[p] == target
    {
      LinksInIff(t, path, p, target);
      LinkMapIff(links, p, target);
    }
    if forall p, target :: LinkIsIn(t, path, p, target) <==> Symlink(p, target) in links {
      forall p
        ensures p in found <==> p in wanted
        ensures p in found ==> found[p] == wanted[p]
      {
        if p in found {
          assert LinkIsIn(t, path, p, found[p]);
        }
        if p in wanted {
          assert Symlink(p, wanted[p]) in links;
        }
      }
    }
  }

  /** Nothing is done exactly if the tree is as the goal asks. */
  lemma SettledMeans(t: Tree, path: Path, goal: Goal)
    ensures Settled(t, path, goal) <==> Meets(t, path, goal)
  {
    if goal.LinksInOrder? && SortedByName(goal.links) {
      LinksAsListed(t, path, goal.links);
    }
  }

  /** The new tree. */
  function After(t: Tree, path: Path, goal: Goal): Tree {
    Apply(t, path, goal).0
  }

  lemma UnlistedNeverInOrder(t: Tree, path: Path, links: seq<Symlink>)
    requires exists l :: l in links && !ChildOf(l.path, path)
    ensures !InOrder(t, path, links)
  {
    var l :| l in links && !ChildOf(l.path, path);
    var i :| 0 <= i < |links| && links[i] == l;
    if InOrder(t, path, links) {
      Symlinks.LinkMapLookup(links, i);
    }
  }

  /** What cannot last is never settled, in any tree. */
  lemma NeverSettled(t: Tree, path: Path, goal: Goal)
    requires !Lasting(path, goal)
    ensures !Settled(t, path, goal)
  {
    if goal.LinksInOrder? && exists l :: l in goal.links && !ChildOf(l.path, path) {
      UnlistedNeverInOrder(t, path, goal.links);
    }
  }

  lemma {:induction false} CreateLinksFrame(t: Tree, links: seq<Symlink>)
    ensures var t' := CreateLinks(t, links).0;
            && t'.mounted == t.mounted
            && (forall q :: q in t.nodes ==> q in t'.nodes && t'.nodes[q] == t.nodes[q])
            && (forall q :: q in t'.nodes && q !in t.nodes ==> t'.nodes[q].Link? && MakesLinkAt(LinksInOrder(links), [], q))
    decreases |links|
  {
    if links != [] {
      var (t1, ok) := MakeLink(t, links[0].path, links[0].target);
      if ok {
        CreateLinksFrame(t1, links[1..]);
        var t' := CreateLinks(t, links).0;
        forall q | q in t'.nodes && q !in t.nodes
          ensures MakesLinkAt(LinksInOrder(links), [], q)
        {
          if q != links[0].path {
            var l :| l in links[1..] && l.path == q;
            assert l in links;
          }
        }
      }
    }
  }

  /** The goal at this path may make a link at q. */
  predicate MakesLinkAt(goal: Goal, path: Path, q: Path) {
    match goal
    case LinkTo(_) => q == path
    case LinksInOrder(links) => exists l :: l in links && l.path == q
    case _ => false
  }

  lemma ReorderSettles(t: Tree, path: Path, links: seq<Symlink>)
    requires Apply(t, path, LinksInOrder(links)).1 && Lasting(path, LinksInOrder(links))
    ensures Settled(After(t, path, LinksInOrder(links)), path, LinksInOrder(links))
  {
    if ActionFor(t, path, LinksInOrder(links)) == ReorderSymlinks {
      forall i | 0 <= i < |links|
        ensures ChildOf(links[i].path, path)
      {
        assert links[i] in links;
      }
      ReorderLeavesExactly(t, path, links);
      CreateLinksFrame(RemoveLinks(t, path), links);
    }
  }

  /** A link at the path of a write or a directory is still there afterwards. */
  lemma LinkStays(t: Tree, path: Path, goal: Goal)
    requires FollowsLink(goal) && IsLink(t, path)
    ensures NodeAt(After(t, path, goal), path) == NodeAt(t, path)
  {
    FollowEndsOffLink(t, path, MAX_LINKS);
  }

  /** A change carried out without error is settled exactly if it can last and no link stood in its way. */
  lemma SettlesIff(t: Tree, path: Path, goal: Goal)
    requires Apply(t, path, goal).1
    ensures Settled(After(t, path, goal), path, goal) <==> Lasting(path, goal) && !(FollowsLink(goal) && IsLink(t, path))
  {
    if !Lasting(path, goal) {
      NeverSettled(After(t, path, goal), path, goal);
    } else if goal.LinksInOrder? {
      ReorderSettles(t, path, goal.links);
    } else if FollowsLink(goal) && IsLink(t, path) {
      LinkStays(t, path, goal);
    }
  }

  /** A write to a link at the root: it succeeds, and the same write is due again. */
  lemma WriteThroughLinkNeverSettles(name: string, target: string, content: Content)
    requires name != target
    ensures var t := Tree(map[[name] := Link([target])], {});
            Apply(t, [name], ContentMatch(content)).1
            && !Settled(After(t, [name], ContentMatch(content)), [name], ContentMatch(content))
  {
    var t := Tree(map[[name] := Link([target])], {});
    assert [name][0] != [target][0];
    assert Follow(t, [target], MAX_LINKS - 1) == Some([target]);
    SettlesIff(t, [name], ContentMatch(content));
  }

  // ---------- what later changes leave alone ----------

  /** Carrying out d may undo c. */
  predicate Disturbs(d: Change, c: Change) {
    match d.goal
    case IsDirectory => c.goal.Absent? && c.path <= d.path
    case IsFile(_) => c.path == d.path
    case ContentMatch(_) => c.path == d.path
    case FileWrite(_) => c.path == d.path
    case Absent =>
      || (c.path == d.path && !c.goal.Absent?)
      || (c.goal.LinksInOrder? && exists l :: l in c.goal.links && l.path == d.path)
    case LinkTo(_) => c.path == d.path || (c.goal.LinksInOrder? && ChildOf(d.path, c.path))
    case LinksInOrder(links) =>
      || (c.goal.LinkTo? && ChildOf(c.path, d.path))
      || (exists l :: l in links && l.path == c.path)
      || (c.goal.LinksInOrder? && (c.path == d.path || exists l :: l in links && ChildOf(l.path, c.path)))
    case _ => false
  }

  /** The node at a path, and for ordered links those of the directory, decide whether a change is settled. */
  lemma SameNodeSettled(t: Tree, t': Tree, c: Change)
    requires NodeAt(t', c.path) == NodeAt(t, c.path) && t.mounted <= t'.mounted
    requires c.goal.LinksInOrder? ==> LinksIn(t', c.path) == LinksIn(t, c.path)
    requires Settled(t, c.path, c.goal)
    ensures Settled(t', c.path, c.goal)
  {
  }

  lemma DirectoryKeeps(t: Tree, d: Change, c: Change)
    requires d.goal.IsDirectory? && !Disturbs(d, c) && Settled(t, c.path, c.goal)
    ensures Settled(After(t, d.path, d.goal), c.path, c.goal)
  {
    MakeDirAllFrame(t, d.path);
    OtherGoalsKeepLinks(t, d.path, d.goal, c.path);
    if NodeAt(t, c.path).Some? || c.goal.Absent? {
      SameNodeSettled(t, After(t, d.path, d.goal), c);
    }
  }

  /** Recreating links changes a node only where a link of the directory was or a wanted link is made. */
  lemma RecreateFrame(t: Tree, dir: Path, links: seq<Symlink>, q: Path)
    ensures var t' := Recreate(t, dir, links).0;
            && t'.mounted == t.mounted
            && (NodeAt(t', q) == NodeAt(t, q) || (ChildOf(q, dir) && IsLink(t, q)) ||
                (NodeAt(t, q).None? && IsLink(t', q) && MakesLinkAt(LinksInOrder(links), dir, q)))
            && (IsLink(t', q) ==> IsLink(t, q) || MakesLinkAt(LinksInOrder(links), dir, q))
  {
    CreateLinksFrame(RemoveLinks(t, dir), links);
    var t1 := RemoveLinks(t, dir);
    assert q in t1.nodes ==> q in t.nodes && t1.nodes[q] == t.nodes[q];
    assert q in t.nodes && q !in t1.nodes ==> q in LinksIn(t, dir);
  }

  /** Recreating the links of one directory leaves those of another alone if none of the wanted ones is there. */
  lemma RecreateElsewhere(t: Tree, dir: Path, links: seq<Symlink>, other: Path)
    requires other != dir && forall l :: l in links ==> !ChildOf(l.path, other)
    ensures LinksIn(Recreate(t, dir, links).0, other) == LinksIn(t, other)
  {
    var t' := Recreate(t, dir, links).0;
    forall p | ChildOf(p, other)
      ensures NodeAt(t', p) == NodeAt(t, p)
    {
      RecreateFrame(t, dir, links, p);
    }
  }

  lemma ReorderKeeps(t: Tree, d: Change, c: Change)
    requires d.goal.LinksInOrder? && !Disturbs(d, c) && Settled(t, c.path, c.goal)
    ensures Settled(After(t, d.path, d.goal), c.path, c.goal)
  {
    if ActionFor(t, d.path, d.goal) == ReorderSymlinks {
      RecreateFrame(t, d.path, d.goal.links, c.path);
      if c.goal.LinksInOrder? {
        RecreateElsewhere(t, d.path, d.goal.links, c.path);
      }
      var t' := Recreate(t, d.path, d.goal.links).0;
      if NodeAt(t', c.path) == NodeAt(t, c.path) {
        SameNodeSettled(t, t', c);
      }
    }
  }

  lemma WriteKeeps(t: Tree, d: Change, c: Change)
    requires LeavesLinks(d.goal) && !d.goal.IsDirectory? && !Disturbs(d, c) && Settled(t, c.path, c.goal)
    requires !(FollowsLink(d.goal) && IsLink(t, d.path))
    ensures Settled(After(t, d.path, d.goal), c.path, c.goal)
  {
    OtherGoalsKeepLinks(t, d.path, d.goal, c.path);
    SameNodeSettled(t, After(t, d.path, d.goal), c);
  }

  /** Ordered links stay in order when something else is removed from their directory. */
  lemma UnwantedRemovalKeepsOrder(t: Tree, path: Path, c: Change)
    requires c.goal.LinksInOrder? && Settled(t, c.path, c.goal) && path != c.path
    requires forall l :: l in c.goal.links ==> l.path != path
    ensures Settled(After(t, path, Absent), c.path, c.goal)
  {
    var links := c.goal.links;
    if links != [] {
      LinkMapKeys(links);
      assert forall i :: 0 <= i < |links| ==> links[i] in links;
    }
  }

  lemma RemovalKeeps(t: Tree, d: Change, c: Change)
    requires d.goal.Absent? && !Disturbs(d, c) && Settled(t, c.path, c.goal)
    ensures Settled(After(t, d.path, d.goal), c.path, c.goal)
  {
    if c.goal.LinksInOrder? {
      UnwantedRemovalKeepsOrder(t, d.path, c);
    } else if c.path != d.path {
      SameNodeSettled(t, After(t, d.path, d.goal), c);
    }
  }

  lemma LinkKeeps(t: Tree, d: Change, c: Change)
    requires d.goal.LinkTo? && !Disturbs(d, c) && Settled(t, c.path, c.goal)
    ensures Settled(After(t, d.path, d.goal), c.path, c.goal)
  {
    var t' := After(t, d.path, d.goal);
    SameNodeSettled(t, t', c);
  }

  /** A settled change stays settled through any change that does not disturb it, whether or not that one succeeds. */
  lemma SettledKept(t: Tree, d: Change, c: Change)
    requires !Disturbs(d, c) && Settled(t, c.path, c.goal)
    requires !(FollowsLink(d.goal) && IsLink(t, d.path))
    ensures Settled(After(t, d.path, d.goal), c.path, c.goal)
  {
    match d.goal
    case IsDirectory => DirectoryKeeps(t, d, c);
    case LinksInOrder(_) => ReorderKeeps(t, d, c);
    case Absent => RemovalKeeps(t, d, c);
    case LinkTo(_) => LinkKeeps(t, d, c);
    case _ => WriteKeeps(t, d, c);
  }

  lemma NoLinkKept(t: Tree, d: Change, q: Path)
    requires !IsLink(t, q) && !MakesLinkAt(d.goal, d.path, q)
    ensures !IsLink(After(t, d.path, d.goal), q)
  {
    if d.goal.IsDirectory? {
      MakeDirAllFrame(t, d.path);
    } else if d.goal.LinksInOrder? {
      RecreateFrame(t, d.path, d.goal.links, q);
    }
  }

  /** No link stands at a path that is to be written or made a directory, and the plan puts none there. */
  predicate NoLinksInTheWay(t: Tree, plan: seq<Change>) {
    forall c :: c in plan && FollowsLink(c.goal) ==>
      !IsLink(t, c.path) && forall d :: d in plan ==> !MakesLinkAt(d.goal, d.path, c.path)
  }

  lemma NoLinksAfter(t: Tree, plan: seq<Change>)
    requires plan != [] && NoLinksInTheWay(t, plan)
    ensures NoLinksInTheWay(After(t, plan[0].path, plan[0].goal), plan[1..])
  {
    assert forall c :: c in plan[1..] ==> c in plan;
    forall c | c in plan[1..] && FollowsLink(c.goal)
      ensures !IsLink(After(t, plan[0].path, plan[0].goal), c.path)
    {
      NoLinkKept(t, plan[0], c.path);
    }
  }

  /** Nothing behind position i of the plan disturbs the change there. */
  predicate Undisturbed(plan: seq<Change>, i: nat)
    requires i < |plan|
  {
    forall j :: i < j < |plan| ==> !Disturbs(plan[j], plan[i])
  }

  lemma {:induction false} SettledThrough(t: Tree, plan: seq<Change>, c: Change)
    requires Settled(t, c.path, c.goal) && ApplyPlan(t, plan).1 && NoLinksInTheWay(t, plan)
    requires forall j :: 0 <= j < |plan| ==> !Disturbs(plan[j], c)
    ensures Settled(ApplyPlan(t, plan).0, c.path, c.goal)
    decreases |plan|
  {
    if plan != [] {
      var d := plan[0];
      assert d in plan;
      SettledKept(t, d, c);
      NoLinksAfter(t, plan);
      SettledThrough(After(t, d.path, d.goal), plan[1..], c);
    }
  }

  /** Convergence: after a plan was applied without error, a change of it whose own errors were not ignored and that no
      later one disturbs resolves to nothing exactly if it can last: every goal can but writing and touching a file
      and ordered links that are not listed by name. */
  lemma {:induction false} ConvergesIff(t: Tree, plan: seq<Change>, i: nat)
    requires ApplyPlan(t, plan).1 && NoLinksInTheWay(t, plan)
    requires i < |plan| && !plan[i].ignoreErrors && Undisturbed(plan, i)
    ensures Acts(ApplyPlan(t, plan).0, plan[i]) <==> !Lasting(plan[i].path, plan[i].goal)
    decreases |plan|
  {
    var d, c := plan[0], plan[i];
    if !Lasting(c.path, c.goal) {
      NeverSettled(ApplyPlan(t, plan).0, c.path, c.goal);
    } else {
      assert d in plan;
      NoLinksAfter(t, plan);
      if i == 0 {
        SettlesIff(t, c.path, c.goal);
        SettledThrough(After(t, d.path, d.goal), plan[1..], c);
      } else {
        assert Undisturbed(plan[1..], i - 1);
        ConvergesIff(After(t, d.path, d.goal), plan[1..], i - 1);
      }
    }
  }

  /** A plan of lasting changes that do not disturb each other is carried out once: applying it again finds nothing
      to do and leaves the tree as it is. */
  lemma SecondApplyDoesNothing(t: Tree, plan: seq<Change>)
    requires ApplyPlan(t, plan).1 && NoLinksInTheWay(t, plan)
    requires forall i :: 0 <= i < |plan| ==>
      !plan[i].ignoreErrors && Undisturbed(plan, i) && Lasting(plan[i].path, plan[i].goal)
    ensures ApplyPlan(ApplyPlan(t, plan).0, plan) == (ApplyPlan(t, plan).0, true)
  {
    var t' := ApplyPlan(t, plan).0;
    forall i | 0 <= i < |plan|
      ensures !Acts(t', plan[i])
    {
      ConvergesIff(t, plan, i);
    }
    NothingToDo(t', plan);
  }

  lemma {:induction false} NothingToDo(t: Tree, plan: seq<Change>)
    requires forall i :: 0 <= i < |plan| ==> !Acts(t, plan[i])
    ensures ApplyPlan(t, plan) == (t, true)
    decreases |plan|
  {
    if plan != [] {
      assert !Acts(t, plan[0]);
      NothingToDo(t, plan[1..]);
    }
  }
}
