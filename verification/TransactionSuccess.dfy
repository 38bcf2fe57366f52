/** An ordinary gadget's transaction succeeds on every file tree with room for it, and leaves such a tree. */
module TransactionSuccess {
  import opened Common
  import opened Files
  import opened ChangeSet
  import opened Convergence
  import opened GadgetTx
  import opened GadgetOrder
  import opened GadgetPlan
  import opened TransactionConvergence
  import opened Layout
  import opened TidyKeys
  import opened TidyChanges
  import opened TidyApply
  import Graph

  /** Configfs and the driver's directory are there, and whatever is where the transaction works is of the right kind:
      directories, files and links where it makes them, no directory where it removes something. */
  ghost predicate HasRoom(s: Setup, rebind: bool, t: Tree) {
    && IsDir(t, s.configFS) && IsDir(t, s.dwc3)
    && forall c :: c in Committed(s, rebind) ==> KindFits(t, c)
  }

  // ---------- no change is in another's way ----------

  /** Something at p is not at or above any directory the transaction makes. */
  lemma NotAboveDirs(s: Setup, a: Item, p: Path, d: Change)
    requires Tidy(s) && a in s.items && Sourced(s, d) && d.goal.IsDirectory?
    requires FilePlace(s, a, p) || GonePlace(s, a, p) || LinkPlace(s, a, p)
    ensures !(p <= d.path)
  {
    if FunctionFile(s, a, p) {
      FunctionsInGadget(s, a, p);
      NotAbove(s, p, s.config);
    } else {
      ConfigsInConfig(s, a, p);
    }
    if !FromOpening(s, d) {
      var b :| b in s.items && FromItem(s, b, d);
      NotAboveDirOf(s, a, b, p, d.path);
    }
  }

  lemma NotAboveDirOf(s: Setup, a: Item, b: Item, p: Path, q: Path)
    requires Tidy(s) && a in s.items && b in s.items && DirPlace(s, b, q)
    requires FilePlace(s, a, p) || GonePlace(s, a, p) || LinkPlace(s, a, p)
    ensures !(p <= q)
  {
    if FunctionFile(s, a, p) {
      FunctionsInGadget(s, a, p);
      if FunctionDir(s, b, q) {
        FileNotAboveDir(s, a, b, p);
      } else {
        ConfigsInConfig(s, b, q);
        NotAbove(s, p, q);
      }
    } else {
      ConfigsInConfig(s, a, p);
      if FunctionDir(s, b, q) {
        FunctionsInGadget(s, b, q);
        NotAbove(s, p, q);
      } else if ConfigFile(s, a, p) {
        ConfigFileNotAbove(s, a, b, p);
      } else {
        var i, j := SameItem(s, a, b);
        ConfigPathsApart(s, i, j);
      }
    }
  }

  lemma ControllerNotAboveDirs(s: Setup, d: Change)
    requires Tidy(s) && Sourced(s, d) && d.goal.IsDirectory?
    ensures !(s.gadget + ["UDC"] <= d.path)
  {
    var p, q := s.gadget + ["UDC"], d.path;
    assert p[|s.gadget|] == "UDC" && (p <= q ==> |q| > |s.gadget| && q[|s.gadget|] == p[|s.gadget|]);
    if !FromOpening(s, d) {
      var b :| b in s.items && FromItem(s, b, d);
      if FunctionDir(s, b, q) {
        FunctionsInGadget(s, b, q);
      } else {
        ConfigsInConfig(s, b, q);
        ConfigIsNotGadget(s, q);
      }
    }
  }

  lemma DriverNotAboveDirs(s: Setup, name: string, d: Change)
    requires Tidy(s) && Sourced(s, d) && d.goal.IsDirectory?
    ensures !(s.dwc3 + [name] <= d.path)
  {
    DriverIsElsewhere(s, name);
  }

  lemma OccupiedNotAboveDir(s: Setup, rebind: bool, c: Change, p: Path, d: Change)
    requires Tidy(s) && c in Committed(s, rebind) && d in Committed(s, rebind) && d.goal.IsDirectory? && Occupies(c, p)
    ensures !(p <= d.path)
  {
    ChangeKinds(s, rebind, c);
    ChangeKinds(s, rebind, d);
    if IsRebind(s, c) {
      DriverNotAboveDirs(s, Base(c.path), d);
    } else if c == UdcChange(s) {
      ControllerNotAboveDirs(s, d);
    } else if c == ReorderChange(s, Drafted(s)) {
      var item := LinksHaveItems(s, p);
      NotAboveDirs(s, item, p, d);
    } else {
      var item :| item in s.items && FromItem(s, item, c);
      NotAboveDirs(s, item, p, d);
    }
  }

  lemma NoFileAtLinks(s: Setup, rebind: bool, c: Change, d: Change)
    requires Tidy(s) && c in Committed(s, rebind) && d in Committed(s, rebind) && Writes(c)
    ensures !MakesLinkAt(d.goal, d.path, c.path)
  {
    ChangeKinds(s, rebind, c);
    ChangeKinds(s, rebind, d);
    if MakesLinkAt(d.goal, d.path, c.path) {
      var item := LinksHaveItems(s, c.path);
      NothingAtLinks(s, rebind, c.path, c);
    }
  }

  lemma CommittedIsFair(s: Setup, rebind: bool, c: Change, d: Change)
    requires Tidy(s) && c in Committed(s, rebind) && d in Committed(s, rebind)
    ensures Fair(d, c) && !d.goal.LinkTo? && !d.goal.IsFile?
  {
    ChangeKinds(s, rebind, d);
    if d.goal.IsDirectory? {
      forall p | Occupies(c, p)
        ensures !(p <= d.path)
      {
        OccupiedNotAboveDir(s, rebind, c, p, d);
      }
    }
    if c.goal.IsDirectory? {
      forall p | Occupies(d, p)
        ensures !(p <= c.path)
      {
        OccupiedNotAboveDir(s, rebind, d, p, c);
      }
    }
    if Writes(c) {
      NoFileAtLinks(s, rebind, c, d);
    }
    if Writes(d) {
      NoFileAtLinks(s, rebind, d, c);
    }
  }

  lemma RoomStays(s: Setup, rebind: bool, t: Tree, d: Change)
    requires Tidy(s) && HasRoom(s, rebind, t) && d in Committed(s, rebind)
    ensures HasRoom(s, rebind, After(t, d.path, d.goal))
  {
    CommittedIsFair(s, rebind, d, d);
    DirStays(t, d, s.configFS);
    DirStays(t, d, s.dwc3);
    forall c | c in Committed(s, rebind)
      ensures KindFits(After(t, d.path, d.goal), c)
    {
      CommittedIsFair(s, rebind, c, d);
      KindKept(t, d, c);
    }
  }

  // ---------- the directory is made first ----------

  /** A change that makes the directory of a file, and that the file's change depends on. */
  predicate MakesDirFor(e: Change, c: Change) {
    e.goal.IsDirectory? && !e.conditional && e.path == Parent(c.path) && e.key == PathKey(e.path) && e.key in c.dependsOn
  }

  ghost predicate HasDir(changes: seq<Change>, c: Change) {
    c.goal.ContentMatch? ==> exists e :: e in changes && MakesDirFor(e, c)
  }

  ghost predicate DirsThere(s: Setup, d: Draft) {
    && Opening(s).changes[1] in d.changes && Opening(s).changes[2] in d.changes
    && PathKey(s.gadget) in d.deps && (d.links != [] ==> PathKey(s.gadget) in d.linkDeps)
    && forall c :: c in d.changes ==> HasDir(d.changes, c)
  }

  lemma AddKeepsDirs(s: Setup, d: Draft, c: Change)
    requires DirsThere(s, d) && HasDir(d.changes, c)
    ensures DirsThere(s, Add(d, c))
  {
    forall x | x in Add(d, c).changes
      ensures HasDir(Add(d, c).changes, x)
    {
      if x.goal.ContentMatch? {
        var e :| e in d.changes && MakesDirFor(e, x);
        assert e in Add(d, c).changes;
      }
    }
  }

  lemma {:induction false} AddAttrsKeepsDirs(s: Setup, d: Draft, base: Path, attrs: Attrs, before: seq<Key>, e: Change)
    requires DirsThere(s, d)
    requires e in d.changes && e.goal.IsDirectory? && !e.conditional && e.path == base && e.key == PathKey(base)
    ensures var d' := AddAttrs(d, base, attrs, before);
            DirsThere(s, d') && e in d'.changes && d'.links == d.links && (forall k :: k in d.deps ==> k in d'.deps)
    decreases |attrs|
  {
    if attrs != [] {
      var n := |attrs| - 1;
      var d1 := AddAttrs(d, base, attrs[..n], before);
      var c := AttrChange(base, attrs[n].0, attrs[n].1, before);
      AddAttrsKeepsDirs(s, d, base, attrs[..n], before, e);
      assert Parent(c.path) == base && MakesDirFor(e, c);
      AddKeepsDirs(s, d1, c);
    }
  }

  lemma AddFunctionKeepsDirs(s: Setup, d: Draft, item: Item)
    requires DirsThere(s, d)
    ensures DirsThere(s, AddFunction(s, d, item)) && AddFunction(s, d, item).links == d.links
  {
    var dir := s.gadget + item.path;
    var d1 := if dir != s.gadget then AddDir(d, dir) else d;
    var e := if dir != s.gadget then MakeDir(dir, d.deps) else Opening(s).changes[2];
    AddAttrsKeepsDirs(s, d1, dir, item.attrs, BeforeOf(s, item), e);
    var d2 := AddAttrs(d1, dir, item.attrs, BeforeOf(s, item));
    var c := ReportDescChange(dir, item, d2.deps, BeforeOf(s, item));
    assert e.key in d1.deps && Parent(c.path) == dir && MakesDirFor(e, c);
    AddKeepsDirs(s, d2, c);
  }

  lemma AddConfigKeepsDirs(s: Setup, d: Draft, item: Item)
    requires DirsThere(s, d)
    ensures DirsThere(s, AddConfig(s, d, item)) && AddConfig(s, d, item).links == d.links
  {
    if HasConfigAttrs(item) {
      var dir := s.config + ConfigPath(item);
      var d1 := if dir != s.config then AddDir(d, dir) else d;
      var e := if dir != s.config then MakeDir(dir, d.deps) else Opening(s).changes[1];
      AddAttrsKeepsDirs(s, d1, dir, item.configAttrs.value, BeforeOf(s, item), e);
    }
  }

  lemma AddItemKeepsDirs(s: Setup, d: Draft, item: Item)
    requires DirsThere(s, d)
    ensures DirsThere(s, AddItem(s, d, item))
  {
    if IsEnabled(s, item) {
      AddFunctionKeepsDirs(s, d, item);
      var d1 := AddFunction(s, d, item);
      AddConfigKeepsDirs(s, d1, item);
      if Linkable(item) {
        AddKeepsDirs(s, AddConfig(s, d1, item), UnlinkChange(s, item));
      }
    } else if item.configPath.Some? {
      var path := s.config + item.configPath.value;
      AddKeepsDirs(s, d, Change(PathKey(path), path, Absent, [], None, false, false));
    }
  }

  lemma {:induction false} DraftHasDirs(s: Setup, items: seq<Item>)
    ensures DirsThere(s, AddItems(s, Opening(s), items))
    decreases |items|
  {
    if items != [] {
      DraftHasDirs(s, items[..|items| - 1]);
      AddItemKeepsDirs(s, AddItems(s, Opening(s), items[..|items| - 1]), items[|items| - 1]);
    }
  }

  // ---------- the links are distinct ----------

  ghost predicate LinksOfFirst(s: Setup, n: nat, links: seq<Symlink>)
    requires n <= |s.items|
  {
    && (forall l :: l in links ==> exists i :: 0 <= i < n && LinkPlace(s, s.items[i], l.path))
    && (forall i, j :: 0 <= i < j < |links| ==> links[i].path != links[j].path)
  }

  lemma OneMoreLink(s: Setup, n: nat, links: seq<Symlink>, l: Symlink)
    requires Tidy(s) && n < |s.items| && LinksOfFirst(s, n, links) && LinkPlace(s, s.items[n], l.path)
    ensures LinksOfFirst(s, n + 1, links + [l])
  {
    forall k | 0 <= k < |links|
      ensures links[k].path != l.path
    {
      assert links[k] in links;
      var i :| 0 <= i < n && LinkPlace(s, s.items[i], links[k].path);
      if links[k].path == l.path {
        ConfigPlacesApart(s, i, n, l.path);
      }
    }
    forall x | x in links + [l]
      ensures exists i :: 0 <= i < n + 1 && LinkPlace(s, s.items[i], x.path)
    {
      if x in links {
        var i :| 0 <= i < n && LinkPlace(s, s.items[i], x.path);
      }
    }
  }

  lemma {:induction false} LinksAreDistinct(s: Setup, n: nat)
    requires Tidy(s) && n <= |s.items|
    ensures LinksOfFirst(s, n, AddItems(s, Opening(s), s.items[..n]).links)
  {
    if n > 0 {
      var item, d := s.items[n - 1], AddItems(s, Opening(s), s.items[..n - 1]);
      assert s.items[..n][..n - 1] == s.items[..n - 1];
      LinksAreDistinct(s, n - 1);
      if IsEnabled(s, item) {
        AddFunctionKeepsCoreLinks(s, d, item);
      }
      if IsFunction(s, item) {
        OneMoreLink(s, n - 1, d.links, Symlink(s.config + item.configPath.value, s.gadget + item.path));
      }
    }
  }

  lemma DraftedLinksProper(s: Setup, rebind: bool)
    requires Tidy(s) && Drafted(s).links != []
    ensures ProperLinks(s.config, Drafted(s).links)
  {
    LinksAreDistinct(s, |s.items|);
    assert s.items[..|s.items|] == s.items;
    TidyLinksApart(s, rebind);
    forall i | 0 <= i < |Drafted(s).links|
      ensures ChildOf(Drafted(s).links[i].path, s.config)
    {
      assert Drafted(s).links[i] in Drafted(s).links;
    }
  }

  // ---------- the run ----------

  /** The directories made so far are there. */
  predicate DirsSoFar(plan: seq<Change>, i: nat, t: Tree)
    requires i <= |plan|
  {
    forall j :: 0 <= j < i && plan[j].goal.IsDirectory? ==> IsDir(t, plan[j].path)
  }

  /** A drafted directory in front of position i is there. */
  lemma EarlierDir(s: Setup, rebind: bool, t0: Tree, m: Maps, plan: seq<Change>, i: nat, t: Tree, e: Change)
    requires Tidy(s) && Planned(s, rebind, t0, m, plan) && i < |plan| && DirsSoFar(plan, i, t)
    requires e in Drafted(s).changes && e.goal.IsDirectory? && !e.conditional && At(plan, e.key) < i
    ensures IsDir(t, e.path)
  {
    TidyIsUnique(s, rebind);
    FiledUnderKey(Committed(s, rebind), m, e);
    BaseAt(s, rebind, t0, m, plan, e.key);
  }

  lemma PlannedAt(s: Setup, rebind: bool, t0: Tree, m: Maps, plan: seq<Change>, i: nat)
    requires Tidy(s) && Planned(s, rebind, t0, m, plan) && i < |plan| && !plan[i].conditional
    ensures plan[i] in Committed(s, rebind) && At(plan, plan[i].key) == i
    ensures plan[i].key in m.base && m.base[plan[i].key] == plan[i]
  {
    PlannedIsCommitted(s, rebind, t0, m, plan, plan[i]);
    TidyIsUnique(s, rebind);
    FiledUnderKey(Committed(s, rebind), m, plan[i]);
    Graph.IndexOfAt(Keys(plan), i);
  }

  lemma FileHasDir(s: Setup, rebind: bool, t0: Tree, m: Maps, plan: seq<Change>, i: nat, t: Tree)
    requires Tidy(s) && Planned(s, rebind, t0, m, plan) && i < |plan| && DirsSoFar(plan, i, t)
    requires plan[i] in Drafted(s).changes && plan[i].goal.ContentMatch? && !plan[i].conditional
    ensures IsDir(t, Parent(plan[i].path))
  {
    var c := plan[i];
    DraftHasDirs(s, s.items);
    var e :| e in Drafted(s).changes && MakesDirFor(e, c);
    PlannedAt(s, rebind, t0, m, plan, i);
    TidyIsUnique(s, rebind);
    FiledUnderKey(Committed(s, rebind), m, e);
    DependencyAt(s, rebind, t0, m, plan, e.key, c.key);
    EarlierDir(s, rebind, t0, m, plan, i, t, e);
  }

  /** The configuration's directory, the gadget's, the links and the controller's file, in this order. */
  lemma RootsInOrder(s: Setup, rebind: bool, t0: Tree, m: Maps, plan: seq<Change>)
    requires Tidy(s) && Planned(s, rebind, t0, m, plan) && Drafted(s).links != []
    ensures At(plan, PathKey(s.config)) < At(plan, PathKey(s.gadget)) < At(plan, REORDER) < At(plan, UDC)
    ensures MakeDir(s.config, [PathKey(s.configFS)]) in Drafted(s).changes
    ensures MakeDir(s.gadget, [PathKey(s.config)]) in Drafted(s).changes
  {
    DraftHasDirs(s, s.items);
    TidyIsUnique(s, rebind);
    ClosingFiled(s, rebind, m);
    var c, g := Opening(s).changes[1], Opening(s).changes[2];
    FiledUnderKey(Committed(s, rebind), m, c);
    FiledUnderKey(Committed(s, rebind), m, g);
    DependencyAt(s, rebind, t0, m, plan, c.key, g.key);
    DependencyAt(s, rebind, t0, m, plan, g.key, REORDER);
    DependencyAt(s, rebind, t0, m, plan, REORDER, UDC);
  }

  lemma ControllerIsReady(s: Setup, rebind: bool, t0: Tree, m: Maps, plan: seq<Change>, i: nat, t: Tree)
    requires Tidy(s) && Planned(s, rebind, t0, m, plan) && Drafted(s).links != []
    requires HasRoom(s, rebind, t) && i < |plan| && DirsSoFar(plan, i, t)
    requires plan[i] == UdcChange(s)
    ensures Ready(t, plan[i])
  {
    RootsInOrder(s, rebind, t0, m, plan);
    PlannedAt(s, rebind, t0, m, plan, i);
    assert KindFits(t, plan[i]);
    EarlierDir(s, rebind, t0, m, plan, i, t, MakeDir(s.gadget, [PathKey(s.config)]));
    assert Parent(plan[i].path) == s.gadget;
  }

  lemma ReorderIsReady(s: Setup, rebind: bool, t0: Tree, m: Maps, plan: seq<Change>, i: nat, t: Tree)
    requires Tidy(s) && Planned(s, rebind, t0, m, plan) && Drafted(s).links != []
    requires HasRoom(s, rebind, t) && i < |plan| && DirsSoFar(plan, i, t)
    requires plan[i] == ReorderChange(s, Drafted(s))
    ensures Ready(t, plan[i])
  {
    RootsInOrder(s, rebind, t0, m, plan);
    PlannedAt(s, rebind, t0, m, plan, i);
    assert KindFits(t, plan[i]);
    DraftedLinksProper(s, rebind);
    EarlierDir(s, rebind, t0, m, plan, i, t, MakeDir(s.config, [PathKey(s.configFS)]));
  }

  /** Every change is ready when its turn comes. */
  lemma StepIsReady(s: Setup, rebind: bool, t0: Tree, m: Maps, plan: seq<Change>, i: nat, t: Tree)
    requires Tidy(s) && Planned(s, rebind, t0, m, plan) && Drafted(s).links != []
    requires HasRoom(s, rebind, t) && i < |plan| && DirsSoFar(plan, i, t)
    ensures Ready(t, plan[i])
  {
    var c := plan[i];
    PlannedIsCommitted(s, rebind, t0, m, plan, c);
    ChangeKinds(s, rebind, c);
    assert KindFits(t, c);
    if c == UdcChange(s) {
      ControllerIsReady(s, rebind, t0, m, plan, i, t);
    } else if c == ReorderChange(s, Drafted(s)) {
      ReorderIsReady(s, rebind, t0, m, plan, i, t);
    } else {
      if Sourced(s, c) && c.goal.ContentMatch? {
        FileHasDir(s, rebind, t0, m, plan, i, t);
      }
    }
  }

  lemma {:induction false} RestSucceeds(s: Setup, rebind: bool, t0: Tree, m: Maps, plan: seq<Change>, i: nat, t: Tree)
    requires Tidy(s) && Planned(s, rebind, t0, m, plan) && Drafted(s).links != []
    requires HasRoom(s, rebind, t) && i <= |plan| && DirsSoFar(plan, i, t)
    ensures ApplyPlan(t, plan[i..]).1 && HasRoom(s, rebind, ApplyPlan(t, plan[i..]).0)
    decreases |plan| - i
  {
    if i < |plan| {
      var c := plan[i];
      var t' := After(t, c.path, c.goal);
      StepIsReady(s, rebind, t0, m, plan, i, t);
      ReadySucceeds(t, c);
      PlannedIsCommitted(s, rebind, t0, m, plan, c);
      RoomStays(s, rebind, t, c);
      CommittedIsFair(s, rebind, c, c);
      forall j | 0 <= j < i + 1 && plan[j].goal.IsDirectory?
        ensures IsDir(t', plan[j].path)
      {
        if j < i {
          DirStays(t, c, plan[j].path);
        }
      }
      assert plan[i..][0] == c && plan[i..][1..] == plan[i + 1..];
      RestSucceeds(s, rebind, t0, m, plan, i + 1, t');
    }
  }

  lemma NoLinkWhereWorking(s: Setup, rebind: bool, t: Tree, c: Change)
    requires HasRoom(s, rebind, t) && c in Committed(s, rebind) && FollowsLink(c.goal) && !c.goal.IsFile?
    ensures !IsLink(t, c.path)
  {
    assert KindFits(t, c);
    assert c.path[..|c.path|] == c.path;
    if c.goal.IsDirectory? {
      assert DirOrNone(t, c.path[..|c.path|]);
    }
  }

  lemma NoLinkMadeWhereWorking(s: Setup, rebind: bool, c: Change, d: Change)
    requires Tidy(s) && c in Committed(s, rebind) && d in Committed(s, rebind) && FollowsLink(c.goal)
    ensures !MakesLinkAt(d.goal, d.path, c.path) && !c.goal.IsFile?
  {
    CommittedIsFair(s, rebind, c, d);
    CommittedIsFair(s, rebind, c, c);
    assert MakesLinkAt(d.goal, d.path, c.path) ==> Occupies(d, c.path);
  }

  lemma RoomHasNoLinks(s: Setup, rebind: bool, t0: Tree, m: Maps, plan: seq<Change>, t: Tree)
    requires Tidy(s) && Planned(s, rebind, t0, m, plan) && HasRoom(s, rebind, t)
    ensures NoLinksInTheWay(t, plan)
  {
    forall c, d | c in plan && d in plan && FollowsLink(c.goal)
      ensures !IsLink(t, c.path) && !MakesLinkAt(d.goal, d.path, c.path)
    {
      PlannedIsCommitted(s, rebind, t0, m, plan, c);
      PlannedIsCommitted(s, rebind, t0, m, plan, d);
      NoLinkMadeWhereWorking(s, rebind, c, d);
      NoLinkWhereWorking(s, rebind, t, c);
    }
  }

  /** An ordinary gadget's transaction, whichever functions are enabled, whatever plan is made of it, and on every file
      tree with room for it: no change fails; exactly the enabled functions' links are left; each change that can last
      finds nothing to do the next time, and no other; and there is room for the transaction again. */
  lemma TidyTransaction(s: Setup, rebind: bool, t: Tree, m: Maps, plan: seq<Change>)
    requires Tidy(s) && Planned(s, rebind, t, m, plan) && Drafted(s).links != [] && HasRoom(s, rebind, t)
    ensures var (t', ok) := ApplyPlan(t, plan);
            && ok && HasRoom(s, rebind, t')
            && LinksIn(t', s.config) == LinkMap(Drafted(s).links)
            && forall c :: c in plan && !c.conditional && !c.ignoreErrors ==> (Acts(t', c) <==> !Lasting(c.path, c.goal))
  {
    assert plan[0..] == plan;
    RestSucceeds(s, rebind, t, m, plan, 0, t);
    RoomHasNoLinks(s, rebind, t, m, plan, t);
    TidyLinksApart(s, rebind);
    TidyIsPeaceful(s, rebind);
    LinksAreExact(s, rebind, t, m, plan);
    forall c | c in plan && !c.conditional && !c.ignoreErrors
      ensures Acts(ApplyPlan(t, plan).0, c) <==> !Lasting(c.path, c.goal)
    {
      TransactionSettlesIff(s, rebind, t, m, plan, c);
    }
  }
}
