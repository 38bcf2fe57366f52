/** Gadget transactions as planned and applied: the order of the plan, and the links it leaves. */
module GadgetPlan {
  import opened Common
  import opened Files
  import opened ChangeSet
  import opened GadgetTx
  import opened GadgetOrder
  import Graph

  /** Where a plan has the change with this key; -1 if it has none. */
  function At(plan: seq<Change>, k: Key): int {
    Graph.IndexOf(Keys(plan), k)
  }

  ghost predicate Planned(s: Setup, rebind: bool, t: Tree, m: Maps, plan: seq<Change>) {
    && Filed(s, rebind, m)
    && Triggered(t, m.base) <= m.cond.Keys && IsPlan(t, m, plan)
  }

  lemma FoundAt(s: Setup, rebind: bool, t: Tree, m: Maps, plan: seq<Change>, k: Key)
    requires Planned(s, rebind, t, m, plan) && k in PlanMap(t, m)
    ensures 0 <= At(plan, k) < |plan| && plan[At(plan, k)] == PlanMap(t, m)[k] && PlanMap(t, m)[k].key == k
  {
    assert MapsOf(m, Committed(s, rebind));
    var c := PlanMap(t, m)[k];
    assert c in plan;
    var i :| 0 <= i < |plan| && plan[i] == c;
    Graph.IndexOfAt(Keys(plan), i);
  }

  lemma PrecedesAt(s: Setup, rebind: bool, t: Tree, m: Maps, plan: seq<Change>, a: Key, b: Key)
    requires Planned(s, rebind, t, m, plan) && a in PlanMap(t, m) && b in PlanMap(t, m)
    requires MustPrecede(t, m, PlanMap(t, m)[a], PlanMap(t, m)[b])
    ensures 0 <= At(plan, a) < At(plan, b) < |plan|
  {
    FoundAt(s, rebind, t, m, plan, a);
    FoundAt(s, rebind, t, m, plan, b);
  }

  lemma BaseInPlan(s: Setup, rebind: bool, t: Tree, m: Maps, k: Key)
    requires Filed(s, rebind, m) && Triggered(t, m.base) <= m.cond.Keys && k in m.base
    ensures k in PlanMap(t, m) && PlanMap(t, m)[k] == m.base[k]
  {
    NothingMissing(s, rebind, t, m);
  }

  lemma BaseAt(s: Setup, rebind: bool, t: Tree, m: Maps, plan: seq<Change>, k: Key)
    requires Planned(s, rebind, t, m, plan) && k in m.base
    ensures 0 <= At(plan, k) < |plan| && plan[At(plan, k)] == m.base[k]
  {
    BaseInPlan(s, rebind, t, m, k);
    FoundAt(s, rebind, t, m, plan, k);
  }

  /** A change comes after the changes it depends on. */
  lemma DependencyAt(s: Setup, rebind: bool, t: Tree, m: Maps, plan: seq<Change>, a: Key, b: Key)
    requires Planned(s, rebind, t, m, plan) && a in m.base && b in m.base
    requires a != b && a in m.base[b].dependsOn
    ensures 0 <= At(plan, a) < At(plan, b)
  {
    assert MapsOf(m, Committed(s, rebind));
    BaseInPlan(s, rebind, t, m, a);
    BaseInPlan(s, rebind, t, m, b);
    PrecedesAt(s, rebind, t, m, plan, a, b);
  }

  /** A change comes after the changes it triggers. */
  lemma TriggerAt(s: Setup, rebind: bool, t: Tree, m: Maps, plan: seq<Change>, d: Key, k: Key)
    requires Planned(s, rebind, t, m, plan) && k in m.base && d in Wanted(t, m.base[k])
    ensures 0 <= At(plan, d) < At(plan, k)
  {
    assert MapsOf(m, Committed(s, rebind));
    NothingMissing(s, rebind, t, m);
    assert d in Triggered(t, m.base);
    BaseInPlan(s, rebind, t, m, k);
    PrecedesAt(s, rebind, t, m, plan, d, k);
  }

  /** Changes with the same key are the same change. */
  predicate UniqueKeys(changes: seq<Change>) {
    forall a, b :: a in changes && b in changes && !a.conditional && !b.conditional && a.key == b.key ==> a == b
  }

  /** A change is filed under its key, as itself or as one that asks for the same. */
  lemma FiledUnderKey(changes: seq<Change>, m: Maps, c: Change)
    requires MapsOf(m, changes) && c in changes && !c.conditional
    ensures c.key in m.base && IsSame(m.base[c.key], c) && (UniqueKeys(changes) ==> m.base[c.key] == c)
  {
  }

  /** Distinct keys are all it takes for the change set to be accepted. */
  lemma {:induction false} UniqueKeysCollect(m: Maps, done: seq<Change>, changes: seq<Change>)
    requires MapsOf(m, done) && UniqueKeys(done + changes)
    ensures Collect(m, changes).Ok?
    decreases |changes|
  {
    if changes != [] {
      var c := changes[0];
      assert c in done + changes && forall x :: x in done ==> x in done + changes;
      AddMaps(m, done, c);
      UniqueKeysCollect(AddChange(m, c).value, done + [c], changes[1..]);
    }
  }

  /** The named changes of a transaction are its last ones. */
  lemma NamedIsClosing(s: Setup, rebind: bool, c: Change)
    requires c in Committed(s, rebind) && !c.key.PathKey? && !c.conditional
    ensures c == ReorderChange(s, Drafted(s)) || c == UdcChange(s)
  {
    AddItemsKeepsCore(s, s.items);
    assert c !in Drafted(s).changes;
    assert c in Closing(s, rebind);
  }

  /** The closing changes of a transaction are where the resolver finds them. */
  lemma ClosingFiled(s: Setup, rebind: bool, m: Maps)
    requires Filed(s, rebind, m)
    ensures REORDER in m.base && m.base[REORDER] == ReorderChange(s, Drafted(s))
    ensures UDC in m.base && m.base[UDC] == UdcChange(s)
  {
    assert MapsOf(m, Committed(s, rebind));
    assert REORDER in m.base && UDC in m.base;
    NamedIsClosing(s, rebind, m.base[REORDER]);
    NamedIsClosing(s, rebind, m.base[UDC]);
  }

  lemma {:induction false} DisableKeyOf(s: Setup, items: seq<Item>, item: Item)
    requires item in items && IsFunction(s, item)
    ensures Disable(item.device) in DisableKeys(s, items)
    decreases |items|
  {
    if item in items[..|items| - 1] {
      DisableKeyOf(s, items[..|items| - 1], item);
    }
  }

  lemma WriteIsWaitedFor(s: Setup, item: Item, c: Change)
    requires item in s.items && IsFunction(s, item) && c in Drafted(s).changes && IsWriteOf(s, item, c)
    ensures c.key in ReorderChange(s, Drafted(s)).dependsOn
  {
    DisableKeyOf(s, s.items, item);
    AddItemsTriggers(s, s.items);
  }

  /** The plan has the change at the place of its key, or one that asks for the same. */
  predicate Stands(plan: seq<Change>, c: Change) {
    0 <= At(plan, c.key) < |plan| && IsSame(plan[At(plan, c.key)], c)
  }

  /** A write of an enabled function comes before the reorder change, which comes before the controller's. */
  lemma WriteBeforeReorder(s: Setup, rebind: bool, t: Tree, m: Maps, plan: seq<Change>, item: Item, c: Change)
    requires Planned(s, rebind, t, m, plan)
    requires item in s.items && IsFunction(s, item) && c in Drafted(s).changes && IsWriteOf(s, item, c)
    ensures Stands(plan, c) && At(plan, c.key) < At(plan, REORDER) < At(plan, UDC)
  {
    ClosingFiled(s, rebind, m);
    FiledUnderKey(Committed(s, rebind), m, c);
    WriteIsWaitedFor(s, item, c);
    BaseAt(s, rebind, t, m, plan, c.key);
    DependencyAt(s, rebind, t, m, plan, c.key, REORDER);
    DependencyAt(s, rebind, t, m, plan, REORDER, UDC);
  }

  /** A planned write that needs action at plan time comes after the unlinking of every enabled function. */
  lemma UnlinkBeforeWrite(s: Setup, rebind: bool, t: Tree, m: Maps, plan: seq<Change>, item: Item, c: Change, d: Key)
    requires Planned(s, rebind, t, m, plan) && c in plan
    requires c in Drafted(s).changes && IsWriteOf(s, item, c) && Acts(t, c) && d in DisableKeys(s, s.items)
    ensures 0 <= At(plan, d) < At(plan, c.key)
  {
    FiledUnderKey(Committed(s, rebind), m, c);
    BaseInPlan(s, rebind, t, m, c.key);
    TriggerAt(s, rebind, t, m, plan, d, c.key);
  }

  lemma RebindFiled(s: Setup, m: Maps)
    requires Filed(s, true, m)
    ensures var u, b := UnbindChange(s, true), BindChange(s);
            && u.key in m.base && IsSame(m.base[u.key], u) && b.key in m.base && IsSame(m.base[b.key], b) && u.key != b.key
  {
    var u, b := UnbindChange(s, true), BindChange(s);
    assert u in Closing(s, true) && b in Closing(s, true);
    FiledUnderKey(Committed(s, true), m, u);
    FiledUnderKey(Committed(s, true), m, b);
    assert u.path[|u.path| - 1] != b.path[|b.path| - 1];
  }

  /** Writing the controller's name to the gadget, then to the driver's "unbind", then to its "bind". */
  ghost predicate RebindsInOrder(s: Setup, plan: seq<Change>) {
    var k, u, b := At(plan, Named("udc")), At(plan, PathKey(s.dwc3 + ["unbind"])), At(plan, PathKey(s.dwc3 + ["bind"]));
    && 0 <= k < u < b < |plan|
    && plan[k].path == s.gadget + ["UDC"] && plan[k].goal == ContentMatch(s.udc)
    && plan[u].path == s.dwc3 + ["unbind"] && plan[u].goal == FileWrite(s.udc)
    && plan[b].path == s.dwc3 + ["bind"] && plan[b].goal == FileWrite(s.udc)
  }

  lemma RebindAfterUdc(s: Setup, t: Tree, m: Maps, plan: seq<Change>)
    requires Planned(s, true, t, m, plan)
    ensures RebindsInOrder(s, plan)
  {
    ClosingFiled(s, true, m);
    RebindFiled(s, m);
    BaseAt(s, true, t, m, plan, UDC);
    BaseAt(s, true, t, m, plan, UnbindChange(s, true).key);
    BaseAt(s, true, t, m, plan, BindChange(s).key);
    DependencyAt(s, true, t, m, plan, UDC, UnbindChange(s, true).key);
    DependencyAt(s, true, t, m, plan, UnbindChange(s, true).key, BindChange(s).key);
  }

  /** The write's place: in front of the reordering of the links, which is in front of writing, unbinding and binding
      the controller; and behind the unlinking of every enabled function if it is planned and needs action at plan
      time. It is planned unless an earlier change asks for the same under its key. */
  ghost predicate InItsPlace(s: Setup, t: Tree, plan: seq<Change>, c: Change) {
    && Stands(plan, c)
    && At(plan, c.key) < At(plan, Named("reorder-symlinks")) < At(plan, Named("udc")) && RebindsInOrder(s, plan)
    && (c in plan && Acts(t, c) ==> forall d :: d in DisableKeys(s, s.items) ==> 0 <= At(plan, d) < At(plan, c.key))
    && (UniqueKeys(Committed(s, true)) ==> c in plan)
  }

  lemma WriteInItsPlace(s: Setup, t: Tree, m: Maps, plan: seq<Change>, item: Item, c: Change)
    requires Planned(s, true, t, m, plan)
    requires item in s.items && IsFunction(s, item) && c in Drafted(s).changes && IsWriteOf(s, item, c)
    ensures InItsPlace(s, t, plan, c)
  {
    WriteBeforeReorder(s, true, t, m, plan, item, c);
    RebindAfterUdc(s, t, m, plan);
    FiledUnderKey(Committed(s, true), m, c);
    BaseAt(s, true, t, m, plan, c.key);
    if c in plan && Acts(t, c) {
      forall d | d in DisableKeys(s, s.items)
        ensures 0 <= At(plan, d) < At(plan, c.key)
      {
        UnlinkBeforeWrite(s, true, t, m, plan, item, c, d);
      }
    }
  }

  /** The order of a transaction: in every plan, every attribute write and the report descriptor write of every enabled
      function is in its place. */
  lemma TransactionOrder(s: Setup, t: Tree, m: Maps, plan: seq<Change>, item: Item)
    requires Planned(s, true, t, m, plan)
    requires item in s.items && IsFunction(s, item)
    ensures HoldsWrites(s, item, Drafted(s))
    ensures forall c :: c in Drafted(s).changes && IsWriteOf(s, item, c) ==> InItsPlace(s, t, plan, c)
  {
    AddItemsHolds(s, s.items);
    forall c | c in Drafted(s).changes && IsWriteOf(s, item, c)
      ensures InItsPlace(s, t, plan, c)
    {
      WriteInItsPlace(s, t, m, plan, item, c);
    }
  }

  // ---------- the links a plan leaves ----------

  /** A change that triggers something is one the reorder change waits for. */
  lemma TriggerIsWaitedFor(s: Setup, rebind: bool, t: Tree, m: Maps, k: Key)
    requires Filed(s, rebind, m) && k in m.base && Wanted(t, m.base[k]) != {}
    ensures k in ReorderChange(s, Drafted(s)).dependsOn && k != REORDER
  {
    assert MapsOf(m, Committed(s, rebind));
    var w := m.base[k];
    TriggerIsDrafted(s, rebind, w);
    AddItemsTriggers(s, s.items);
    AddItemsKeepsCore(s, s.items);
  }

  lemma TriggerIsDrafted(s: Setup, rebind: bool, w: Change)
    requires w in Committed(s, rebind) && w.beforeChange.Some?
    ensures w in Drafted(s).changes
  {
    assert w !in Closing(s, rebind);
  }

  /** Unlinking changes come before the reorder change in every plan. */
  lemma UnlinkBeforeReorder(s: Setup, rebind: bool, t: Tree, m: Maps, plan: seq<Change>, c: Change)
    requires Planned(s, rebind, t, m, plan) && c in plan && c.conditional
    ensures At(plan, c.key) < At(plan, REORDER)
  {
    assert MapsOf(m, Committed(s, rebind));
    ClosingFiled(s, rebind, m);
    assert c.key in Triggered(t, m.base);
    var k :| k in m.base && c.key in Wanted(t, m.base[k]);
    TriggerIsWaitedFor(s, rebind, t, m, k);
    TriggerAt(s, rebind, t, m, plan, c.key, k);
    DependencyAt(s, rebind, t, m, plan, k, REORDER);
  }

  /** The links of the configuration lie directly in its directory, and no unconditional removal is aimed at one
      of them: disabled items have other configuration paths than enabled functions. */
  predicate LinksApart(s: Setup, rebind: bool) {
    && (forall l :: l in Drafted(s).links ==> ChildOf(l.path, s.config))
    && (forall c :: c in Committed(s, rebind) && !c.conditional && c.goal == Absent ==> c.path !in LinkMap(Drafted(s).links))
  }

  /** Behind the reorder change nothing touches the links. */
  predicate Harmless(s: Setup, c: Change) {
    LeavesLinks(c.goal) || (c.goal == Absent && c.path !in LinkMap(Drafted(s).links))
  }

  predicate AllHarmless(s: Setup, changes: seq<Change>) {
    forall i :: 0 <= i < |changes| ==> Harmless(s, changes[i])
  }

  lemma {:induction false} HarmlessTail(s: Setup, t: Tree, tail: seq<Change>)
    requires LinksIn(t, s.config) == LinkMap(Drafted(s).links)
    requires AllHarmless(s, tail)
    ensures LinksIn(ApplyPlan(t, tail).0, s.config) == LinkMap(Drafted(s).links)
    decreases |tail|
  {
    if tail != [] {
      var c := tail[0];
      if c.goal != Absent {
        OtherGoalsKeepLinks(t, c.path, c.goal, s.config);
      }
      HarmlessTail(s, Apply(t, c.path, c.goal).0, tail[1..]);
    }
  }

  lemma PlannedIsCommitted(s: Setup, rebind: bool, t: Tree, m: Maps, plan: seq<Change>, c: Change)
    requires Planned(s, rebind, t, m, plan) && c in plan
    ensures c in Committed(s, rebind)
  {
    assert MapsOf(m, Committed(s, rebind));
  }

  /** Of the committed changes, only the reorder change makes links. */
  lemma OnlyReorderLinks(s: Setup, rebind: bool, c: Change)
    requires c in Committed(s, rebind) && c.key != REORDER && LinksApart(s, rebind) && !c.conditional
    ensures Harmless(s, c)
  {
    AddItemsKeepsCore(s, s.items);
    if c !in Drafted(s).changes {
      assert c in Closing(s, rebind);
    }
  }

  lemma BehindReorderHarmless(s: Setup, rebind: bool, t: Tree, m: Maps, plan: seq<Change>, i: nat)
    requires Planned(s, rebind, t, m, plan) && LinksApart(s, rebind) && At(plan, REORDER) < i < |plan|
    ensures Harmless(s, plan[i])
  {
    var c := plan[i];
    Graph.IndexOfAt(Keys(plan), i);
    PlannedIsCommitted(s, rebind, t, m, plan, c);
    if c.conditional {
      UnlinkBeforeReorder(s, rebind, t, m, plan, c);
    } else {
      OnlyReorderLinks(s, rebind, c);
    }
  }

  lemma ReorderStep(s: Setup, t: Tree)
    requires forall l :: l in Drafted(s).links ==> ChildOf(l.path, s.config)
    requires Drafted(s).links != [] && Apply(t, s.config, LinksInOrder(Drafted(s).links)).1
    ensures LinksIn(Apply(t, s.config, LinksInOrder(Drafted(s).links)).0, s.config) == LinkMap(Drafted(s).links)
  {
    var links := Drafted(s).links;
    forall i | 0 <= i < |links|
      ensures ChildOf(links[i].path, s.config)
    {
      assert links[i] in links;
    }
    ReorderLeavesExactly(t, s.config, links);
  }

  lemma SplitAt(plan: seq<Change>, r: nat)
    requires r < |plan|
    ensures plan == plan[..r] + ([plan[r]] + plan[r + 1..]) && ([plan[r]] + plan[r + 1..])[1..] == plan[r + 1..]
  {
  }

  lemma TailHarmless(s: Setup, rebind: bool, t: Tree, m: Maps, plan: seq<Change>)
    requires Planned(s, rebind, t, m, plan) && LinksApart(s, rebind)
    requires 0 <= At(plan, REORDER) < |plan|
    ensures AllHarmless(s, plan[At(plan, REORDER) + 1..])
  {
    var r := At(plan, REORDER);
    forall i | r < i < |plan|
      ensures Harmless(s, plan[i])
    {
      BehindReorderHarmless(s, rebind, t, m, plan, i);
    }
  }

  /** Applying a plan that reorders the links at position r and does nothing to them behind it. */
  lemma LinksAfter(s: Setup, t: Tree, plan: seq<Change>, r: nat)
    requires r < |plan| && plan[r] == ReorderChange(s, Drafted(s))
    requires AllHarmless(s, plan[r + 1..])
    requires forall l :: l in Drafted(s).links ==> ChildOf(l.path, s.config)
    requires Drafted(s).links != [] && ApplyPlan(t, plan).1
    ensures LinksIn(ApplyPlan(t, plan).0, s.config) == LinkMap(Drafted(s).links)
  {
    var c, head, tail := plan[r], plan[..r], plan[r + 1..];
    SplitAt(plan, r);
    ApplyPlanSplit(t, head, [c] + tail);
    var t1 := ApplyPlan(t, head).0;
    ReorderStep(s, t1);
    HarmlessTail(s, Apply(t1, c.path, c.goal).0, tail);
  }

  /** Symlink confluence: in every order the plan allows and from any initial set of links, a successful apply leaves
      exactly the enabled functions' links in the configuration directory, although removals of disabled functions
      are unordered against the reorder change. */
  lemma LinksAreExact(s: Setup, rebind: bool, t: Tree, m: Maps, plan: seq<Change>)
    requires Planned(s, rebind, t, m, plan) && LinksApart(s, rebind) && Drafted(s).links != []
    requires ApplyPlan(t, plan).1
    ensures LinksIn(ApplyPlan(t, plan).0, s.config) == LinkMap(Drafted(s).links)
  {
    ClosingFiled(s, rebind, m);
    BaseAt(s, rebind, t, m, plan, REORDER);
    TailHarmless(s, rebind, t, m, plan);
    LinksAfter(s, t, plan, At(plan, REORDER));
  }
}
