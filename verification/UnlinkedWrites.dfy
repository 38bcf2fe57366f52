/** What the order of a gadget transaction is for: an enabled function is written only while no function is linked. */
module UnlinkedWrites {
  import opened Common
  import opened Files
  import opened ChangeSet
  import opened Convergence
  import opened GadgetTx
  import opened GadgetOrder
  import opened GadgetPlan
  import opened TransactionConvergence
  import opened Layout
  import opened TidyKeys
  import opened TidyChanges
  import opened TidyApply
  import opened TransactionSuccess
  import GadgetLinks
  import Graph

  /** Unlinking is requested by device, so each function needs one of its own. */
  predicate OwnDevices(s: Setup) {
    forall f, g :: f in s.items && g in s.items && IsFunction(s, f) && IsFunction(s, g) && f.device == g.device ==> f == g
  }

  /** An ordinary gadget's transaction, planned and applied on a tree with room for it. */
  ghost predicate Underway(s: Setup, rebind: bool, t: Tree, m: Maps, plan: seq<Change>) {
    Tidy(s) && Planned(s, rebind, t, m, plan) && Drafted(s).links != [] && HasRoom(s, rebind, t)
  }

  /** The tree after the first i changes of the plan, if none of them fails. */
  function TreeAt(t: Tree, plan: seq<Change>, i: nat): Tree
    requires i <= |plan|
  {
    if i == 0 then t else After(TreeAt(t, plan, i - 1), plan[i - 1].path, plan[i - 1].goal)
  }

  lemma OneChange(t: Tree, c: Change)
    ensures ApplyPlan(t, [c]).0 == After(t, c.path, c.goal)
  {
    assert [c][1..] == [];
  }

  lemma {:induction false} PrefixApplies(t: Tree, plan: seq<Change>, i: nat)
    requires ApplyPlan(t, plan).1 && i <= |plan|
    ensures ApplyPlan(t, plan[..i]) == (TreeAt(t, plan, i), true)
    decreases i
  {
    assert plan[..i] + plan[i..] == plan;
    ApplyPlanSplit(t, plan[..i], plan[i..]);
    if i > 0 {
      PrefixApplies(t, plan, i - 1);
      assert plan[..i - 1] + [plan[i - 1]] == plan[..i];
      ApplyPlanSplit(t, plan[..i - 1], [plan[i - 1]]);
      OneChange(TreeAt(t, plan, i - 1), plan[i - 1]);
    }
  }

  lemma PlanApplies(s: Setup, rebind: bool, t: Tree, m: Maps, plan: seq<Change>)
    requires Underway(s, rebind, t, m, plan)
    ensures ApplyPlan(t, plan).1
  {
    assert plan[0..] == plan;
    RestSucceeds(s, rebind, t, m, plan, 0, t);
  }

  lemma {:induction false} RoomAt(s: Setup, rebind: bool, t: Tree, m: Maps, plan: seq<Change>, i: nat)
    requires Underway(s, rebind, t, m, plan) && ApplyPlan(t, plan).1 && i <= |plan|
    ensures HasRoom(s, rebind, TreeAt(t, plan, i))
    decreases i
  {
    if i > 0 {
      RoomAt(s, rebind, t, m, plan, i - 1);
      PlannedIsCommitted(s, rebind, t, m, plan, plan[i - 1]);
      RoomStays(s, rebind, TreeAt(t, plan, i - 1), plan[i - 1]);
    }
  }

  // ---------- what needs no action when planned needs none when its turn comes ----------

  lemma NothingDisturbsBefore(s: Setup, rebind: bool, t: Tree, m: Maps, plan: seq<Change>, i: nat)
    requires Underway(s, rebind, t, m, plan) && i < |plan| && !plan[i].conditional && plan[i].key != REORDER
    ensures forall j :: 0 <= j < i ==> !Disturbs(plan[j], plan[i])
  {
    TidyIsPeaceful(s, rebind);
    PlannedIsCommitted(s, rebind, t, m, plan, plan[i]);
    forall j | 0 <= j < i
      ensures !Disturbs(plan[j], plan[i])
    {
      assert plan[j].key != plan[i].key;
      PlannedIsCommitted(s, rebind, t, m, plan, plan[j]);
    }
  }

  lemma StillSettled(t: Tree, plan: seq<Change>, i: nat)
    requires ApplyPlan(t, plan).1 && NoLinksInTheWay(t, plan) && i < |plan|
    requires Settled(t, plan[i].path, plan[i].goal) && forall j :: 0 <= j < i ==> !Disturbs(plan[j], plan[i])
    ensures Settled(TreeAt(t, plan, i), plan[i].path, plan[i].goal)
  {
    PrefixApplies(t, plan, i);
    assert forall c :: c in plan[..i] ==> c in plan;
    SettledThrough(t, plan[..i], plan[i]);
  }

  lemma ActsWhenPlanned(s: Setup, rebind: bool, t: Tree, m: Maps, plan: seq<Change>, i: nat)
    requires Underway(s, rebind, t, m, plan) && i < |plan| && !plan[i].conditional && plan[i].key != REORDER
    requires Acts(TreeAt(t, plan, i), plan[i])
    ensures Acts(t, plan[i])
  {
    PlanApplies(s, rebind, t, m, plan);
    RoomHasNoLinks(s, rebind, t, m, plan, t);
    NothingDisturbsBefore(s, rebind, t, m, plan, i);
    if Settled(t, plan[i].path, plan[i].goal) {
      StillSettled(t, plan, i);
    }
  }

  // ---------- a link that is gone stays gone up to the reordering ----------

  lemma ReorderCommitted(s: Setup, rebind: bool)
    ensures ReorderChange(s, Drafted(s)) in Committed(s, rebind)
  {
    assert ReorderChange(s, Drafted(s)) in Closing(s, rebind);
  }

  lemma GoneStays(s: Setup, rebind: bool, t: Tree, c: Change, d: Change)
    requires Tidy(s) && HasRoom(s, rebind, t) && c in Committed(s, rebind) && d in Committed(s, rebind)
    requires c.goal.Absent? && MakesLinkAt(LinksInOrder(Drafted(s).links), s.config, c.path)
    requires d != ReorderChange(s, Drafted(s)) && NodeAt(t, c.path).None?
    ensures NodeAt(After(t, d.path, d.goal), c.path).None?
  {
    CommittedIsFair(s, rebind, c, d);
    FitEffect(t, d, c.path);
    assert Occupies(c, c.path);
    ReorderCommitted(s, rebind);
    CommittedIsFair(s, rebind, d, ReorderChange(s, Drafted(s)));
    ChangeKinds(s, rebind, d);
  }

  lemma RemovedAt(s: Setup, rebind: bool, t: Tree, m: Maps, plan: seq<Change>, j: nat)
    requires Underway(s, rebind, t, m, plan) && ApplyPlan(t, plan).1 && j < |plan| && plan[j].goal.Absent?
    ensures NodeAt(TreeAt(t, plan, j + 1), plan[j].path).None?
  {
    RoomAt(s, rebind, t, m, plan, j);
    PlannedIsCommitted(s, rebind, t, m, plan, plan[j]);
    assert KindFits(TreeAt(t, plan, j), plan[j]);
  }

  lemma NotReorderBefore(s: Setup, plan: seq<Change>, i: nat)
    requires (forall a, b :: 0 <= a < b < |plan| ==> plan[a].key != plan[b].key) && i < At(plan, REORDER) < |plan|
    ensures plan[i] != ReorderChange(s, Drafted(s))
  {
    Graph.IndexOfAt(Keys(plan), i);
  }

  lemma GoneAfterNext(s: Setup, rebind: bool, t: Tree, m: Maps, plan: seq<Change>, c: Change, i: nat)
    requires Underway(s, rebind, t, m, plan) && ApplyPlan(t, plan).1
    requires i < At(plan, REORDER) < |plan| && c in plan && c.goal.Absent?
    requires MakesLinkAt(LinksInOrder(Drafted(s).links), s.config, c.path)
    requires NodeAt(TreeAt(t, plan, i), c.path).None?
    ensures NodeAt(TreeAt(t, plan, i + 1), c.path).None?
  {
    RoomAt(s, rebind, t, m, plan, i);
    PlannedIsCommitted(s, rebind, t, m, plan, c);
    PlannedIsCommitted(s, rebind, t, m, plan, plan[i]);
    NotReorderBefore(s, plan, i);
    GoneStays(s, rebind, TreeAt(t, plan, i), c, plan[i]);
  }

  lemma {:induction false} NothingUntil(t: Tree, plan: seq<Change>, p: Path, j: nat, i: nat)
    requires j <= i <= |plan| && NodeAt(TreeAt(t, plan, j), p).None?
    requires forall k :: j <= k < i && NodeAt(TreeAt(t, plan, k), p).None? ==> NodeAt(TreeAt(t, plan, k + 1), p).None?
    ensures NodeAt(TreeAt(t, plan, i), p).None?
    decreases i
  {
    if j < i {
      NothingUntil(t, plan, p, j, i - 1);
    }
  }

  lemma GoneUntil(s: Setup, rebind: bool, t: Tree, m: Maps, plan: seq<Change>, j: nat, i: nat)
    requires Underway(s, rebind, t, m, plan) && ApplyPlan(t, plan).1
    requires j < i <= At(plan, REORDER) < |plan| && plan[j].goal.Absent?
    requires MakesLinkAt(LinksInOrder(Drafted(s).links), s.config, plan[j].path)
    ensures NodeAt(TreeAt(t, plan, i), plan[j].path).None?
  {
    RemovedAt(s, rebind, t, m, plan, j);
    forall k | j + 1 <= k < i && NodeAt(TreeAt(t, plan, k), plan[j].path).None?
      ensures NodeAt(TreeAt(t, plan, k + 1), plan[j].path).None?
    {
      GoneAfterNext(s, rebind, t, m, plan, plan[j], k);
    }
    NothingUntil(t, plan, plan[j].path, j + 1, i);
  }

  // ---------- the unlinking in front of a write ----------

  lemma UnlinkOf(s: Setup, rebind: bool, f: Item, c: Change)
    requires OwnDevices(s) && f in s.items && IsFunction(s, f) && c in Committed(s, rebind) && c.key == Disable(f.device)
    ensures c.goal.Absent? && c.path == s.config + f.configPath.value
  {
    CommittedShape(s, rebind);
    ChangeKinds(s, rebind, c);
    var g :| g in s.items && FromItem(s, g, c);
  }

  /** The planned change with a function's unlinking key removes that function's link. */
  lemma UnlinkAt(s: Setup, rebind: bool, t: Tree, m: Maps, plan: seq<Change>, f: Item, j: nat)
    requires Underway(s, rebind, t, m, plan) && OwnDevices(s) && f in s.items && IsFunction(s, f)
    requires j < |plan| && plan[j].key == Disable(f.device)
    ensures plan[j].goal.Absent? && plan[j].path == s.config + f.configPath.value
  {
    PlannedIsCommitted(s, rebind, t, m, plan, plan[j]);
    UnlinkOf(s, rebind, f, plan[j]);
  }

  lemma {:induction false} IndexOfIs(keys: seq<Key>, k: Key)
    requires Graph.IndexOf(keys, k) >= 0
    ensures Graph.IndexOf(keys, k) < |keys| && keys[Graph.IndexOf(keys, k)] == k
    decreases |keys|
  {
    if keys[0] != k {
      IndexOfIs(keys[1..], k);
    }
  }

  lemma KeyAt(plan: seq<Change>, k: Key)
    requires At(plan, k) >= 0
    ensures At(plan, k) < |plan| && plan[At(plan, k)].key == k
  {
    IndexOfIs(Keys(plan), k);
  }

  lemma ReorderIsPlanned(s: Setup, rebind: bool, t: Tree, m: Maps, plan: seq<Change>)
    requires Planned(s, rebind, t, m, plan)
    ensures 0 <= At(plan, REORDER) < |plan|
  {
    ClosingFiled(s, rebind, m);
    BaseAt(s, rebind, t, m, plan, REORDER);
  }

  lemma LinkOfFunction(s: Setup, f: Item)
    requires f in s.items && IsFunction(s, f)
    ensures MakesLinkAt(LinksInOrder(Drafted(s).links), s.config, s.config + f.configPath.value)
  {
    GadgetLinks.FunctionIsLinked(s, f);
  }

  lemma UnlinkedAt(s: Setup, rebind: bool, t: Tree, m: Maps, plan: seq<Change>, item: Item, i: nat, f: Item)
    requires Underway(s, rebind, t, m, plan) && OwnDevices(s) && i < |plan|
    requires item in s.items && IsFunction(s, item) && plan[i] in Drafted(s).changes && IsWriteOf(s, item, plan[i])
    requires Acts(t, plan[i]) && f in s.items && IsFunction(s, f)
    ensures NodeAt(TreeAt(t, plan, i), s.config + f.configPath.value).None?
  {
    var c, d := plan[i], Disable(f.device);
    PlanApplies(s, rebind, t, m, plan);
    DisableKeyOf(s, s.items, f);
    Graph.IndexOfAt(Keys(plan), i);
    UnlinkBeforeWrite(s, rebind, t, m, plan, item, c, d);
    WriteBeforeReorder(s, rebind, t, m, plan, item, c);
    RootsInOrder(s, rebind, t, m, plan);
    ReorderIsPlanned(s, rebind, t, m, plan);
    var j := At(plan, d);
    KeyAt(plan, d);
    UnlinkAt(s, rebind, t, m, plan, f, j);
    LinkOfFunction(s, f);
    GoneUntil(s, rebind, t, m, plan, j, i);
  }

  /** Whenever an attribute or the report descriptor of an enabled function is really written, in whatever order the plan
      has, no enabled function's link is in the configuration's directory. */
  lemma WritesMeetNoLinks(s: Setup, rebind: bool, t: Tree, m: Maps, plan: seq<Change>, item: Item, i: nat)
    requires Tidy(s) && OwnDevices(s) && Planned(s, rebind, t, m, plan) && HasRoom(s, rebind, t) && i < |plan|
    requires item in s.items && IsFunction(s, item) && plan[i] in Drafted(s).changes && IsWriteOf(s, item, plan[i])
    requires Acts(ApplyPlan(t, plan[..i]).0, plan[i])
    ensures var (u, ok) := ApplyPlan(t, plan[..i]);
            ok && forall f :: f in s.items && IsFunction(s, f) ==> NodeAt(u, s.config + f.configPath.value).None?
  {
    GadgetLinks.LinkedIff(s);
    PlanApplies(s, rebind, t, m, plan);
    PrefixApplies(t, plan, i);
    ActsWhenPlanned(s, rebind, t, m, plan, i);
    forall f | f in s.items && IsFunction(s, f)
      ensures NodeAt(TreeAt(t, plan, i), s.config + f.configPath.value).None?
    {
      UnlinkedAt(s, rebind, t, m, plan, item, i, f);
    }
  }
}
