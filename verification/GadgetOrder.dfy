/** What holds of every gadget transaction: its graph has no cycle, its plan always exists, and the plan's
    order unlinks before writing, writes before relinking, and relinks before binding the controller. */
module GadgetOrder {
  import opened Common
  import opened Files
  import opened ChangeSet
  import opened GadgetTx
  import Graph

  /** The keys of the unconditional changes. */
  function PlainKeys(changes: seq<Change>): set<Key> {
    set c | c in changes && !c.conditional :: c.key
  }

  /** Every change depends only on changes listed before it. */
  predicate Grounded(changes: seq<Change>)
    decreases |changes|
  {
    changes == [] ||
    (var n := |changes| - 1;
     Grounded(changes[..n]) && forall k :: k in changes[n].dependsOn ==> k in PlainKeys(changes[..n]))
  }

  /** The form of an item's changes: exactly the unlinking ones are conditional, these are removals that depend on
      nothing; no change makes symlinks; and only unlinking changes are ever triggered. */
  predicate WellShaped(s: Setup, c: Change) {
    && (c.conditional <==> c.key.Disable?)
    && (if c.conditional then c.dependsOn == [] && c.beforeChange == None && c.goal == Absent else c.key.PathKey?)
    && !c.goal.LinkTo? && !c.goal.LinksInOrder?
    && (c.beforeChange.Some? ==> forall k :: k in c.beforeChange.value ==> k in DisableKeys(s, s.items))
  }

  predicate Core(s: Setup, d: Draft) {
    && Grounded(d.changes)
    && (forall k :: k in d.deps ==> k in PlainKeys(d.changes))
    && (forall k :: k in d.linkDeps ==> k in PlainKeys(d.changes))
    && (forall c :: c in d.changes ==> WellShaped(s, c))
    && PathKey(s.config) in PlainKeys(d.changes) && PathKey(s.gadget) in PlainKeys(d.changes)
  }

  /** Changes that trigger something are among those the reorder change waits for (or will wait for). */
  predicate TriggersLinked(d: Draft, more: seq<Key>) {
    forall c :: c in d.changes && c.beforeChange.Some? && c.beforeChange.value != [] ==> c.key in d.linkDeps || c.key in more
  }

  predicate Fits(s: Setup, d: Draft, c: Change) {
    WellShaped(s, c) && forall k :: k in c.dependsOn ==> k in PlainKeys(d.changes)
  }

  lemma PlainKeysGrow(changes: seq<Change>, c: Change)
    ensures PlainKeys(changes + [c]) == PlainKeys(changes) + if c.conditional then {} else {c.key}
  {
    var more := changes + [c];
    assert forall x :: x in more <==> x in changes || x == c;
  }

  lemma GroundedGrows(changes: seq<Change>, c: Change)
    requires Grounded(changes) && forall k :: k in c.dependsOn ==> k in PlainKeys(changes)
    ensures Grounded(changes + [c])
  {
    assert (changes + [c])[..|changes|] == changes;
  }

  lemma AddKeepsCore(s: Setup, d: Draft, c: Change)
    requires Core(s, d) && Fits(s, d, c)
    ensures Core(s, Add(d, c))
    ensures !c.conditional ==> c.key in PlainKeys(Add(d, c).changes)
    ensures PlainKeys(d.changes) <= PlainKeys(Add(d, c).changes)
  {
    PlainKeysGrow(d.changes, c);
    GroundedGrows(d.changes, c);
  }

  lemma {:induction false} AddAttrsKeepsCore(s: Setup, d: Draft, base: Path, attrs: Attrs, before: seq<Key>)
    requires Core(s, d) && PathKey(base) in PlainKeys(d.changes)
    requires forall k :: k in before ==> k in DisableKeys(s, s.items)
    ensures var d' := AddAttrs(d, base, attrs, before);
            && Core(s, d') && PlainKeys(d.changes) <= PlainKeys(d'.changes)
            && d'.links == d.links && d'.linkDeps == d.linkDeps
    decreases |attrs|
  {
    if attrs != [] {
      var n := |attrs| - 1;
      AddAttrsKeepsCore(s, d, base, attrs[..n], before);
      AddKeepsCore(s, AddAttrs(d, base, attrs[..n], before), AttrChange(base, attrs[n].0, attrs[n].1, before));
    }
  }

  lemma AddDirKeepsCore(s: Setup, d: Draft, path: Path)
    requires Core(s, d)
    ensures Core(s, AddDir(d, path)) && PathKey(path) in PlainKeys(AddDir(d, path).changes)
    ensures PlainKeys(d.changes) <= PlainKeys(AddDir(d, path).changes)
  {
    AddKeepsCore(s, d, MakeDir(path, d.deps));
  }

  lemma AddFunctionKeepsCore(s: Setup, d: Draft, item: Item)
    requires Core(s, d)
    ensures Core(s, AddFunction(s, d, item))
    ensures AddFunction(s, d, item).links == d.links && AddFunction(s, d, item).linkDeps == d.linkDeps
  {
    var dir := s.gadget + item.path;
    AddDirKeepsCore(s, d, dir);
    var d1 := if dir != s.gadget then AddDir(d, dir) else d;
    AddAttrsKeepsCore(s, d1, dir, item.attrs, BeforeOf(s, item));
    var d2 := AddAttrs(d1, dir, item.attrs, BeforeOf(s, item));
    AddKeepsCore(s, d2, ReportDescChange(dir, item, d2.deps, BeforeOf(s, item)));
  }

  lemma AddConfigKeepsCore(s: Setup, d: Draft, item: Item)
    requires Core(s, d)
    ensures Core(s, AddConfig(s, d, item))
    ensures AddConfig(s, d, item).links == d.links && AddConfig(s, d, item).linkDeps == d.linkDeps
  {
    if item.configAttrs.Some? && item.configAttrs.value != [] {
      var dir := s.config + item.configPath.GetOr([]);
      AddDirKeepsCore(s, d, dir);
      var d1 := if dir != s.config then AddDir(d, dir) else d;
      AddAttrsKeepsCore(s, d1, dir, item.configAttrs.value, BeforeOf(s, item));
    }
  }

  lemma AddItemKeepsCore(s: Setup, d: Draft, item: Item)
    requires Core(s, d)
    ensures Core(s, AddItem(s, d, item))
  {
    if item.key in s.enabled {
      AddFunctionKeepsCore(s, d, item);
      var d1 := AddFunction(s, d, item);
      AddConfigKeepsCore(s, d1, item);
      if Linkable(item) {
        AddKeepsCore(s, AddConfig(s, d1, item), UnlinkChange(s, item));
      }
    } else if item.configPath.Some? {
      var path := s.config + item.configPath.value;
      AddKeepsCore(s, d, Change(PathKey(path), path, Absent, [], None, false, false));
    }
  }

  /** Three changes, each of which depends on nothing but its predecessor. */
  lemma ChainGrounded(a: Change, b: Change, c: Change)
    requires a.dependsOn == [] && b.dependsOn == [a.key] && c.dependsOn == [b.key]
    requires !a.conditional && !b.conditional && !c.conditional
    ensures Grounded([a, b, c]) && PlainKeys([a, b, c]) == {a.key, b.key, c.key}
  {
    assert [] + [a] == [a] && [a] + [b] == [a, b] && [a, b] + [c] == [a, b, c];
    PlainKeysGrow([], a);
    GroundedGrows([], a);
    PlainKeysGrow([a], b);
    GroundedGrows([a], b);
    PlainKeysGrow([a, b], c);
    GroundedGrows([a, b], c);
  }

  lemma OpeningCore(s: Setup)
    ensures Core(s, Opening(s))
  {
    var d := Opening(s);
    ChainGrounded(d.changes[0], d.changes[1], d.changes[2]);
    assert d.changes == [d.changes[0], d.changes[1], d.changes[2]];
  }

  lemma {:induction false} AddItemsKeepsCore(s: Setup, items: seq<Item>)
    ensures Core(s, AddItems(s, Opening(s), items))
    decreases |items|
  {
    if items == [] {
      OpeningCore(s);
    } else {
      AddItemsKeepsCore(s, items[..|items| - 1]);
      AddItemKeepsCore(s, AddItems(s, Opening(s), items[..|items| - 1]), items[|items| - 1]);
    }
  }

  // ---------- every triggering change is waited for ----------

  lemma {:induction false} AddAttrsTriggers(d: Draft, base: Path, attrs: Attrs, before: seq<Key>)
    requires TriggersLinked(d, d.deps)
    ensures var d' := AddAttrs(d, base, attrs, before);
            TriggersLinked(d', d'.deps) && d'.linkDeps == d.linkDeps && forall k :: k in d.deps ==> k in d'.deps
    ensures before == [] && TriggersLinked(d, []) ==> TriggersLinked(AddAttrs(d, base, attrs, before), [])
    decreases |attrs|
  {
    if attrs != [] {
      AddAttrsTriggers(d, base, attrs[..|attrs| - 1], before);
    }
  }

  lemma AddFunctionTriggers(s: Setup, d: Draft, item: Item)
    requires TriggersLinked(d, [])
    ensures var d' := AddFunction(s, d, item);
            TriggersLinked(d', d'.deps) && (!Linkable(item) ==> TriggersLinked(d', []))
  {
    var dir := s.gadget + item.path;
    var d1 := if dir != s.gadget then AddDir(d, dir) else d;
    AddAttrsTriggers(d1, dir, item.attrs, BeforeOf(s, item));
  }

  lemma AddConfigTriggers(s: Setup, d: Draft, item: Item)
    requires TriggersLinked(d, d.deps) && (!Linkable(item) ==> TriggersLinked(d, []))
    ensures var d' := AddConfig(s, d, item);
            TriggersLinked(d', d'.deps) && (!Linkable(item) ==> TriggersLinked(d', []))
  {
    if item.configAttrs.Some? && item.configAttrs.value != [] {
      var dir := s.config + item.configPath.GetOr([]);
      var d1 := if dir != s.config then AddDir(d, dir) else d;
      AddAttrsTriggers(d1, dir, item.configAttrs.value, BeforeOf(s, item));
    }
  }

  lemma AddItemTriggers(s: Setup, d: Draft, item: Item)
    requires TriggersLinked(d, [])
    ensures TriggersLinked(AddItem(s, d, item), [])
  {
    if item.key in s.enabled {
      AddFunctionTriggers(s, d, item);
      AddConfigTriggers(s, AddFunction(s, d, item), item);
    }
  }

  lemma {:induction false} AddItemsTriggers(s: Setup, items: seq<Item>)
    ensures TriggersLinked(AddItems(s, Opening(s), items), [])
    decreases |items|
  {
    if items != [] {
      AddItemsTriggers(s, items[..|items| - 1]);
      AddItemTriggers(s, AddItems(s, Opening(s), items[..|items| - 1]), items[|items| - 1]);
    }
  }

  // ---------- every disable key has its unlinking change ----------

  predicate Keeps(d: Draft, d': Draft) {
    forall c :: c in d.changes ==> c in d'.changes
  }

  lemma {:induction false} AddAttrsKeeps(d: Draft, base: Path, attrs: Attrs, before: seq<Key>)
    ensures Keeps(d, AddAttrs(d, base, attrs, before))
    ensures forall i :: 0 <= i < |attrs| ==>
      AttrChange(base, attrs[i].0, attrs[i].1, before) in AddAttrs(d, base, attrs, before).changes
    decreases |attrs|
  {
    if attrs != [] {
      var n := |attrs| - 1;
      AddAttrsKeeps(d, base, attrs[..n], before);
      forall i | 0 <= i < |attrs|
        ensures AttrChange(base, attrs[i].0, attrs[i].1, before) in AddAttrs(d, base, attrs, before).changes
      {
        if i < n {
          assert attrs[..n][i] == attrs[i];
        }
      }
    }
  }

  /** An attribute or the report descriptor of a linkable function, written after all functions are unlinked. */
  predicate IsWriteOf(s: Setup, item: Item, c: Change) {
    var dir := s.gadget + item.path;
    && c.beforeChange == Some(DisableKeys(s, s.items)) && c.key == PathKey(c.path) && !c.conditional
    && ((c.path == dir + ["report_desc"] &&
         c.goal == if item.reportDesc.Some? then ContentMatch(item.reportDesc.value) else Absent)
        || exists a :: a in item.attrs && c.path == dir + [a.0] && c.goal == ContentMatch(a.1))
  }

  /** The draft holds the item's writes. */
  predicate HoldsWrites(s: Setup, item: Item, d: Draft) {
    var dir := s.gadget + item.path;
    && (exists c :: c in d.changes && IsWriteOf(s, item, c) && c.path == dir + ["report_desc"])
    && (forall a :: a in item.attrs ==> exists c :: c in d.changes && IsWriteOf(s, item, c) && c.path == dir + [a.0])
  }

  lemma HoldsWritesGrows(s: Setup, item: Item, d: Draft, d': Draft)
    requires HoldsWrites(s, item, d) && Keeps(d, d')
    ensures HoldsWrites(s, item, d')
  {
    forall a | a in item.attrs
      ensures exists c :: c in d'.changes && IsWriteOf(s, item, c) && c.path == s.gadget + item.path + [a.0]
    {
      var c :| c in d.changes && IsWriteOf(s, item, c) && c.path == s.gadget + item.path + [a.0];
    }
  }

  lemma AddFunctionHoldsWrites(s: Setup, d: Draft, item: Item)
    ensures Keeps(d, AddFunction(s, d, item))
    ensures Linkable(item) ==> HoldsWrites(s, item, AddFunction(s, d, item))
  {
    var dir := s.gadget + item.path;
    var before := BeforeOf(s, item);
    var d1 := if dir != s.gadget then AddDir(d, dir) else d;
    AddAttrsKeeps(d1, dir, item.attrs, before);
    var d2 := AddAttrs(d1, dir, item.attrs, before);
    var report := ReportDescChange(dir, item, d2.deps, before);
    var d3 := AddFunction(s, d, item);
    assert report in d3.changes;
    if Linkable(item) {
      assert IsWriteOf(s, item, report);
      forall a | a in item.attrs
        ensures exists c :: c in d3.changes && IsWriteOf(s, item, c) && c.path == dir + [a.0]
      {
        var i :| 0 <= i < |item.attrs| && item.attrs[i] == a;
        var c := AttrChange(dir, a.0, a.1, before);
        assert c in d3.changes && IsWriteOf(s, item, c);
      }
    }
  }

  lemma AddConfigKeeps(s: Setup, d: Draft, item: Item)
    ensures Keeps(d, AddConfig(s, d, item))
  {
    if item.configAttrs.Some? && item.configAttrs.value != [] {
      var dir := s.config + item.configPath.GetOr([]);
      var d1 := if dir != s.config then AddDir(d, dir) else d;
      AddAttrsKeeps(d1, dir, item.configAttrs.value, BeforeOf(s, item));
    }
  }

  predicate IsFunction(s: Setup, item: Item) {
    item.key in s.enabled && Linkable(item)
  }

  predicate HoldsUnlink(d: Draft, k: Key) {
    exists c :: c in d.changes && c.key == k && c.conditional
  }

  lemma AddItemHolds(s: Setup, d: Draft, item: Item)
    ensures Keeps(d, AddItem(s, d, item))
    ensures IsFunction(s, item) ==>
      HoldsWrites(s, item, AddItem(s, d, item)) && HoldsUnlink(AddItem(s, d, item), Disable(item.device))
  {
    if item.key in s.enabled {
      var d1 := AddFunction(s, d, item);
      var d2 := AddConfig(s, d1, item);
      var d3 := AddLink(s, d2, item);
      AddFunctionHoldsWrites(s, d, item);
      AddConfigKeeps(s, d1, item);
      assert Keeps(d2, d3);
      if Linkable(item) {
        HoldsWritesGrows(s, item, d1, d3);
        assert UnlinkChange(s, item) in d3.changes;
      }
    }
  }

  /** Every enabled function's writes, and its unlinking change, are in the draft. */
  lemma {:induction false} AddItemsHolds(s: Setup, items: seq<Item>)
    ensures forall item :: item in items && IsFunction(s, item) ==> HoldsWrites(s, item, AddItems(s, Opening(s), items))
    ensures forall k :: k in DisableKeys(s, items) ==> HoldsUnlink(AddItems(s, Opening(s), items), k)
    decreases |items|
  {
    if items != [] {
      var rest, last := items[..|items| - 1], items[|items| - 1];
      var d := AddItems(s, Opening(s), rest);
      AddItemsHolds(s, rest);
      AddItemHolds(s, d, last);
      var d' := AddItem(s, d, last);
      forall item | item in items && IsFunction(s, item)
        ensures HoldsWrites(s, item, d')
      {
        if item in rest {
          HoldsWritesGrows(s, item, d, d');
        }
      }
      forall k | k in DisableKeys(s, items)
        ensures HoldsUnlink(d', k)
      {
        if k in DisableKeys(s, rest) {
          var c :| c in d.changes && c.key == k && c.conditional;
          assert c in d'.changes;
        }
      }
    }
  }

  // ---------- the committed change set ----------

  /** The committed changes with the reorder change in front of the controller's. */
  function InRankOrder(s: Setup, rebind: bool): seq<Change> {
    var withUdc := Drafted(s).changes + [ReorderChange(s, Drafted(s))] + [UdcChange(s)];
    if rebind then withUdc + [UnbindChange(s, true)] + [BindChange(s)] else withUdc
  }

  lemma SameChanges(s: Setup, rebind: bool)
    ensures forall c :: c in Committed(s, rebind) <==> c in InRankOrder(s, rebind)
  {
  }

  lemma RankOrderGrounded(s: Setup, rebind: bool)
    ensures Grounded(InRankOrder(s, rebind))
  {
    AddItemsKeepsCore(s, s.items);
    var cs, d := Drafted(s).changes, Drafted(s);
    var a, b, u, v := ReorderChange(s, d), UdcChange(s), UnbindChange(s, true), BindChange(s);
    GroundedGrows(cs, a);
    PlainKeysGrow(cs, a);
    GroundedGrows(cs + [a], b);
    PlainKeysGrow(cs + [a], b);
    GroundedGrows(cs + [a] + [b], u);
    PlainKeysGrow(cs + [a] + [b], u);
    GroundedGrows(cs + [a] + [b] + [u], v);
  }

  /** The position of the first unconditional change with this key; -1 if there is none. */
  function Rank(changes: seq<Change>, k: Key): (r: int)
    ensures -1 <= r < |changes|
    ensures r >= 0 ==> changes[r].key == k && !changes[r].conditional
    ensures r >= 0 <==> k in PlainKeys(changes)
    decreases |changes|
  {
    if changes == [] then -1
    else
      var n := |changes| - 1;
      var r := Rank(changes[..n], k);
      assert changes == changes[..n] + [changes[n]];
      PlainKeysGrow(changes[..n], changes[n]);
      if r >= 0 then r else if changes[n].key == k && !changes[n].conditional then n else -1
  }

  lemma {:induction false} RankInPrefix(changes: seq<Change>, n: nat, k: Key)
    requires n <= |changes| && k in PlainKeys(changes[..n])
    ensures Rank(changes, k) == Rank(changes[..n], k)
    decreases |changes|
  {
    if n < |changes| {
      assert changes[..|changes| - 1][..n] == changes[..n];
      RankInPrefix(changes[..|changes| - 1], n, k);
    } else {
      assert changes[..n] == changes;
    }
  }

  lemma {:induction false} GroundedAt(changes: seq<Change>, i: nat)
    requires Grounded(changes) && i < |changes|
    ensures forall k :: k in changes[i].dependsOn ==> k in PlainKeys(changes[..i])
    decreases |changes|
  {
    var n := |changes| - 1;
    if i < n {
      GroundedAt(changes[..n], i);
      assert changes[..n][..i] == changes[..i];
    }
  }

  lemma DependencyRanksLower(s: Setup, rebind: bool, m: Maps, a: Key, b: Key)
    requires Filed(s, rebind, m) && b in m.base && a in m.base[b].dependsOn
    ensures Rank(InRankOrder(s, rebind), a) < Rank(InRankOrder(s, rebind), b)
  {
    assert MapsOf(m, Committed(s, rebind));
    var changes := InRankOrder(s, rebind);
    SameChanges(s, rebind);
    assert m.base[b] in changes;
    var i := Rank(changes, b);
    assert changes[i] in changes && IsSame(m.base[b], changes[i]);
    RankOrderGrounded(s, rebind);
    GroundedAt(changes, i);
    RankInPrefix(changes, i, a);
  }

  /** The committed changes: conditional ones are unlinkings that depend on nothing, and only those are triggered. */
  lemma CommittedShape(s: Setup, rebind: bool)
    ensures forall c :: c in Committed(s, rebind) ==>
      && (c.conditional <==> c.key.Disable?)
      && (c.conditional ==> c.dependsOn == [] && c.beforeChange == None && c.goal == Absent)
      && (c.beforeChange.Some? ==> forall k :: k in c.beforeChange.value ==> k in DisableKeys(s, s.items))
  {
    AddItemsKeepsCore(s, s.items);
    forall c | c in Committed(s, rebind)
      ensures c in Drafted(s).changes || c in Closing(s, rebind)
    {
    }
  }

  lemma DisableKeysAreDisable(s: Setup, items: seq<Item>)
    ensures forall k :: k in DisableKeys(s, items) ==> k.Disable?
  {
  }

  /** What can be triggered has been requested, and no key is both conditional and unconditional. */
  lemma NothingMissing(s: Setup, rebind: bool, t: Tree, m: Maps)
    requires Filed(s, rebind, m)
    ensures m.base.Keys !! m.cond.Keys && Triggered(t, m.base) <= m.cond.Keys
    ensures forall k :: k in Triggered(t, m.base) ==> k in DisableKeys(s, s.items)
  {
    assert MapsOf(m, Committed(s, rebind));
    CommittedShape(s, rebind);
    AddItemsHolds(s, s.items);
    forall d | d in Triggered(t, m.base)
      ensures d in DisableKeys(s, s.items) && d in m.cond
    {
      var k :| k in m.base && d in Wanted(t, m.base[k]);
      assert m.base[k] in Committed(s, rebind);
      assert HoldsUnlink(Drafted(s), d);
      var c :| c in Drafted(s).changes && c.key == d && c.conditional;
      assert c in Committed(s, rebind);
    }
  }

  /** An edge of the graph comes from a dependency or from a triggered change. */
  lemma EdgeCases(t: Tree, m: Maps, a: Key, b: Key)
    requires Triggered(t, m.base) <= m.cond.Keys && m.base.Keys !! m.cond.Keys && PlanGraph(t, m).Edge(a, b)
    ensures if b in m.base then a in m.base[b].dependsOn || a in Wanted(t, m.base[b])
            else b in m.cond && a in m.cond[b].dependsOn
  {
    assert a in Before(PlanMap(t, m), PlanDeps(t, m.base), b);
  }

  lemma ConditionalDependsOnNothing(s: Setup, rebind: bool, m: Maps, k: Key)
    requires Filed(s, rebind, m) && k in m.cond
    ensures m.cond[k].dependsOn == []
  {
    assert MapsOf(m, Committed(s, rebind));
    CommittedShape(s, rebind);
    assert m.cond[k] in Committed(s, rebind);
  }

  /** It leads to a higher rank; conditional changes have none. */
  lemma EdgeRises(s: Setup, rebind: bool, t: Tree, m: Maps, a: Key, b: Key)
    requires Filed(s, rebind, m) && Triggered(t, m.base) <= m.cond.Keys && PlanGraph(t, m).Edge(a, b)
    ensures Rank(InRankOrder(s, rebind), a) < Rank(InRankOrder(s, rebind), b)
  {
    NothingMissing(s, rebind, t, m);
    EdgeCases(t, m, a, b);
    if b !in m.base {
      ConditionalDependsOnNothing(s, rebind, m, b);
    } else if a in m.base[b].dependsOn {
      DependencyRanksLower(s, rebind, m, a, b);
    } else {
      TriggerRanksLower(s, rebind, t, m, a, b);
    }
  }

  lemma TriggerRanksLower(s: Setup, rebind: bool, t: Tree, m: Maps, a: Key, b: Key)
    requires Filed(s, rebind, m) && b in m.base && a in Wanted(t, m.base[b])
    ensures Rank(InRankOrder(s, rebind), a) < Rank(InRankOrder(s, rebind), b)
  {
    assert MapsOf(m, Committed(s, rebind));
    NothingMissing(s, rebind, t, m);
    SameChanges(s, rebind);
    DisableKeysAreDisable(s, s.items);
    assert a in Triggered(t, m.base) && m.base[b] in InRankOrder(s, rebind);
  }

  /** The graph of a transaction has no cycle: for any items, any set of enabled ones, attributes in any order, any
      state of the file system, and with or without a rebind. */
  lemma TransactionIsAcyclic(s: Setup, rebind: bool, t: Tree, m: Maps)
    requires Filed(s, rebind, m)
    ensures Triggered(t, m.base) <= m.cond.Keys && !Graph.HasCycle(PlanGraph(t, m))
  {
    NothingMissing(s, rebind, t, m);
    var rank := (k: Key) => Rank(InRankOrder(s, rebind), k);
    forall a, b | PlanGraph(t, m).Edge(a, b)
      ensures rank(a) < rank(b)
    {
      EdgeRises(s, rebind, t, m, a, b);
    }
    Graph.RankedIsAcyclic(PlanGraph(t, m), rank);
  }
}
