/** An ordinary gadget's transaction has no clashing keys. */
module TidyKeys {
  import opened Common
  import opened Files
  import opened ChangeSet
  import opened GadgetTx
  import opened GadgetOrder
  import opened GadgetPlan
  import opened Layout

  lemma AddUnique(changes: seq<Change>, c: Change)
    requires UniqueKeys(changes) && (c.conditional || c.key !in PlainKeys(changes))
    ensures UniqueKeys(changes + [c])
  {
    assert forall a :: a in changes && !a.conditional ==> a.key in PlainKeys(changes);
  }

  /** The draft's keys are distinct, and all new ones are keys of such paths. */
  ghost predicate Grown(d: Draft, d': Draft, where: Path -> bool) {
    UniqueKeys(d'.changes) &&
    forall k :: k in PlainKeys(d'.changes) ==> k in PlainKeys(d.changes) || (k.PathKey? && where(k.path))
  }

  lemma AddGrows(d: Draft, d': Draft, c: Change, where: Path -> bool)
    requires Grown(d, d', where) && !c.conditional && c.key.PathKey? && where(c.key.path) && c.key !in PlainKeys(d'.changes)
    ensures Grown(d, Add(d', c), where)
  {
    AddUnique(d'.changes, c);
    PlainKeysGrow(d'.changes, c);
  }

  lemma NewName(base: Path, attrs: Attrs)
    requires attrs != [] && DistinctNames(attrs)
    ensures DistinctNames(attrs[..|attrs| - 1])
    ensures forall name :: name in NamesOf(attrs) <==> name in NamesOf(attrs[..|attrs| - 1]) || name == attrs[|attrs| - 1].0
    ensures forall name :: name in NamesOf(attrs[..|attrs| - 1]) ==> base + [name] != base + [attrs[|attrs| - 1].0]
  {
    var n := |attrs| - 1;
    assert attrs[n] in attrs && forall a :: a in attrs <==> a in attrs[..n] || a == attrs[n];
    forall name | name in NamesOf(attrs[..n])
      ensures base + [name] != base + [attrs[n].0]
    {
      var i :| 0 <= i < n && attrs[i].0 == name;
      assert (base + [name])[|base|] == name && (base + [attrs[n].0])[|base|] == attrs[n].0;
    }
  }

  /** Where the attributes' files lie. */
  predicate AttrPlace(base: Path, attrs: Attrs, p: Path) {
    p != [] && Parent(p) == base && Base(p) in NamesOf(attrs)
  }

  lemma {:induction false} AddAttrsGrows(d0: Draft, d: Draft, base: Path, attrs: Attrs, before: seq<Key>, where: Path -> bool)
    requires Grown(d0, d, where) && DistinctNames(attrs)
    requires forall name :: name in NamesOf(attrs) ==> where(base + [name]) && PathKey(base + [name]) !in PlainKeys(d.changes)
    ensures var d' := AddAttrs(d, base, attrs, before);
            && Grown(d0, d', where)
            && forall k :: k in PlainKeys(d'.changes) ==>
                 k in PlainKeys(d.changes) || (k.PathKey? && AttrPlace(base, attrs, k.path))
    decreases |attrs|
  {
    if attrs != [] {
      var n := |attrs| - 1;
      NewName(base, attrs);
      AddAttrsGrows(d0, d, base, attrs[..n], before, where);
      var d1 := AddAttrs(d, base, attrs[..n], before);
      var c := AttrChange(base, attrs[n].0, attrs[n].1, before);
      assert Parent(c.path) == base && Base(c.path) == attrs[n].0;
      assert c.path != [] && (AttrPlace(base, attrs[..n], c.path) ==> base + [Base(c.path)] == c.path);
      AddGrows(d0, d1, c, where);
      PlainKeysGrow(d1.changes, c);
    }
  }

  predicate Unused(d: Draft, where: Path -> bool) {
    forall k :: k in PlainKeys(d.changes) && k.PathKey? ==> !where(k.path)
  }

  lemma AddDirGrows(d0: Draft, d: Draft, path: Path, where: Path -> bool)
    requires Grown(d0, d, where) && where(path) && PathKey(path) !in PlainKeys(d.changes)
    ensures Grown(d0, AddDir(d, path), where)
    ensures PlainKeys(AddDir(d, path).changes) == PlainKeys(d.changes) + {PathKey(path)}
  {
    AddGrows(d0, d, MakeDir(path, d.deps), where);
    PlainKeysGrow(d.changes, MakeDir(path, d.deps));
  }

  function InFunction(s: Setup, item: Item): Path -> bool {
    p => FunctionDir(s, item, p) || FunctionFile(s, item, p)
  }

  function InItsConfig(s: Setup, item: Item): Path -> bool {
    p => ConfigItemDir(s, item, p) || ConfigFile(s, item, p)
  }

  lemma FileOf(s: Setup, item: Item, name: string)
    requires IsEnabled(s, item) && HasFile(item, name)
    ensures FunctionFile(s, item, s.gadget + item.path + [name])
  {
    var p := s.gadget + item.path + [name];
    assert Parent(p) == s.gadget + item.path && Base(p) == name;
  }

  lemma AddFunctionGrows(s: Setup, d: Draft, item: Item)
    requires TidyItem(item) && IsEnabled(s, item) && UniqueKeys(d.changes) && Unused(d, InFunction(s, item))
    ensures Grown(d, AddFunction(s, d, item), InFunction(s, item))
  {
    var where, dir := InFunction(s, item), s.gadget + item.path;
    var d1 := if dir != s.gadget then AddDir(d, dir) else d;
    if dir != s.gadget {
      AddDirGrows(d, d, dir, where);
    }
    forall name | HasFile(item, name)
      ensures where(dir + [name]) && PathKey(dir + [name]) !in PlainKeys(d1.changes)
    {
      FileOf(s, item, name);
      assert |dir + [name]| == |dir| + 1;
    }
    AddAttrsGrows(d, d1, dir, item.attrs, BeforeOf(s, item), where);
    var d2 := AddAttrs(d1, dir, item.attrs, BeforeOf(s, item));
    var c := ReportDescChange(dir, item, d2.deps, BeforeOf(s, item));
    assert Base(c.path) == "report_desc";
    AddGrows(d, d2, c, where);
  }

  lemma ConfigFileOf(s: Setup, item: Item, name: string)
    requires IsEnabled(s, item) && HasConfigFile(item, name)
    ensures ConfigFile(s, item, s.config + ConfigPath(item) + [name])
  {
    var p := s.config + ConfigPath(item) + [name];
    assert Parent(p) == s.config + ConfigPath(item) && Base(p) == name;
  }

  lemma AddConfigGrows(s: Setup, d: Draft, item: Item)
    requires TidyItem(item) && IsEnabled(s, item) && UniqueKeys(d.changes) && Unused(d, InItsConfig(s, item))
    ensures Grown(d, AddConfig(s, d, item), InItsConfig(s, item))
  {
    if HasConfigAttrs(item) {
      var where, dir := InItsConfig(s, item), s.config + ConfigPath(item);
      var d1 := if dir != s.config then AddDir(d, dir) else d;
      if dir != s.config {
        AddDirGrows(d, d, dir, where);
      }
      forall name | HasConfigFile(item, name)
        ensures where(dir + [name]) && PathKey(dir + [name]) !in PlainKeys(d1.changes)
      {
        ConfigFileOf(s, item, name);
        assert |dir + [name]| == |dir| + 1;
      }
      AddAttrsGrows(d, d1, dir, item.configAttrs.value, BeforeOf(s, item), where);
    }
  }

  function InItem(s: Setup, item: Item): Path -> bool {
    p => PlaceOf(s, item, p)
  }

  /** An item's gadget places are not configuration places. */
  lemma ZonesApart(s: Setup, item: Item, p: Path)
    requires TidyPaths(s) && TidyItem(item) && InFunction(s, item)(p)
    ensures !InItsConfig(s, item)(p)
  {
    FunctionsInGadget(s, item, p);
    if InItsConfig(s, item)(p) {
      ConfigsInConfig(s, item, p);
      ConfigIsNotGadget(s, p);
    }
  }

  lemma FunctionKeysNotInConfig(s: Setup, d: Draft, item: Item)
    requires TidyPaths(s) && TidyItem(item) && Unused(d, InItem(s, item)) && IsEnabled(s, item)
    requires Grown(d, AddFunction(s, d, item), InFunction(s, item))
    ensures Unused(AddFunction(s, d, item), InItsConfig(s, item))
  {
    forall k | k in PlainKeys(AddFunction(s, d, item).changes) && k.PathKey?
      ensures !InItsConfig(s, item)(k.path)
    {
      if k !in PlainKeys(d.changes) {
        ZonesApart(s, item, k.path);
      }
    }
  }

  lemma AddLinkGrows(s: Setup, d: Draft, item: Item)
    requires UniqueKeys(d.changes)
    ensures UniqueKeys(AddLink(s, d, item).changes) && PlainKeys(AddLink(s, d, item).changes) == PlainKeys(d.changes)
  {
    if Linkable(item) {
      AddUnique(d.changes, UnlinkChange(s, item));
      PlainKeysGrow(d.changes, UnlinkChange(s, item));
    }
  }

  lemma EnabledGrows(s: Setup, d: Draft, item: Item)
    requires TidyPaths(s) && TidyItem(item) && UniqueKeys(d.changes) && Unused(d, InItem(s, item)) && IsEnabled(s, item)
    ensures Grown(d, AddItem(s, d, item), InItem(s, item))
  {
    var d1 := AddFunction(s, d, item);
    AddFunctionGrows(s, d, item);
    FunctionKeysNotInConfig(s, d, item);
    AddConfigGrows(s, d1, item);
    AddLinkGrows(s, AddConfig(s, d1, item), item);
  }

  lemma AddItemGrows(s: Setup, d: Draft, item: Item)
    requires TidyPaths(s) && TidyItem(item) && UniqueKeys(d.changes) && Unused(d, InItem(s, item))
    ensures Grown(d, AddItem(s, d, item), InItem(s, item))
  {
    if IsEnabled(s, item) {
      EnabledGrows(s, d, item);
    } else if item.configPath.Some? {
      var path := s.config + item.configPath.value;
      AddGrows(d, d, Change(PathKey(path), path, Absent, [], None, false, false), InItem(s, item));
    }
  }

  /** A key of the opening, or of a place of one of the first n items. */
  ghost predicate Claimed(s: Setup, n: nat, k: Key)
    requires n <= |s.items|
  {
    || k == PathKey(s.configFS) || k == PathKey(s.config) || k == PathKey(s.gadget)
    || exists i :: 0 <= i < n && k.PathKey? && PlaceOf(s, s.items[i], k.path)
  }

  lemma RootsAreNoPlaces(s: Setup, item: Item, p: Path)
    requires TidyPaths(s) && TidyItem(item) && PlaceOf(s, item, p)
    ensures p != s.configFS && p != s.config && p != s.gadget && s.configFS <= p
  {
    if FunctionDir(s, item, p) || FunctionFile(s, item, p) {
      FunctionsInGadget(s, item, p);
      if p == s.config {
        ConfigIsNotGadget(s, p);
      }
    } else {
      ConfigsInConfig(s, item, p);
    }
  }

  lemma UnclaimedByNext(s: Setup, n: nat, d: Draft)
    requires Tidy(s) && n < |s.items| && forall k :: k in PlainKeys(d.changes) ==> Claimed(s, n, k)
    ensures Unused(d, InItem(s, s.items[n]))
  {
    forall k | k in PlainKeys(d.changes) && k.PathKey?
      ensures !PlaceOf(s, s.items[n], k.path)
    {
      if i :| 0 <= i < n && PlaceOf(s, s.items[i], k.path) {
        PlacesApart(s, i, n, k.path);
      } else if PlaceOf(s, s.items[n], k.path) {
        RootsAreNoPlaces(s, s.items[n], k.path);
      }
    }
  }

  lemma NextItemUnique(s: Setup, n: nat, d: Draft)
    requires Tidy(s) && n < |s.items| && UniqueKeys(d.changes)
    requires forall k :: k in PlainKeys(d.changes) ==> Claimed(s, n, k)
    ensures var d' := AddItem(s, d, s.items[n]);
            UniqueKeys(d'.changes) && forall k :: k in PlainKeys(d'.changes) ==> Claimed(s, n + 1, k)
  {
    UnclaimedByNext(s, n, d);
    AddItemGrows(s, d, s.items[n]);
  }

  lemma OpeningUnique(s: Setup)
    requires TidyPaths(s)
    ensures UniqueKeys(Opening(s).changes) && forall k :: k in PlainKeys(Opening(s).changes) ==> Claimed(s, 0, k)
  {
  }

  lemma {:induction false} AddItemsUnique(s: Setup, n: nat)
    requires Tidy(s) && n <= |s.items|
    ensures var d := AddItems(s, Opening(s), s.items[..n]);
            UniqueKeys(d.changes) && forall k :: k in PlainKeys(d.changes) ==> Claimed(s, n, k)
  {
    if n == 0 {
      OpeningUnique(s);
    } else {
      var d := AddItems(s, Opening(s), s.items[..n - 1]);
      assert s.items[..n][..n - 1] == s.items[..n - 1];
      AddItemsUnique(s, n - 1);
      NextItemUnique(s, n - 1, d);
    }
  }

  lemma DriverIsElsewhere(s: Setup, name: string)
    requires TidyPaths(s)
    ensures !(s.configFS <= s.dwc3 + [name])
  {
    assert (s.dwc3 + [name])[..|s.configFS|] == s.dwc3[..|s.configFS|];
  }

  lemma ClaimedInConfigFS(s: Setup, k: Key)
    requires Tidy(s) && Claimed(s, |s.items|, k)
    ensures k.PathKey? && s.configFS <= k.path
  {
    if i :| 0 <= i < |s.items| && k.PathKey? && PlaceOf(s, s.items[i], k.path) {
      RootsAreNoPlaces(s, s.items[i], k.path);
    }
  }

  lemma DraftInConfigFS(s: Setup)
    requires Tidy(s)
    ensures UniqueKeys(Drafted(s).changes)
    ensures forall k :: k in PlainKeys(Drafted(s).changes) ==> k.PathKey? && s.configFS <= k.path
  {
    AddItemsUnique(s, |s.items|);
    assert s.items[..|s.items|] == s.items;
    forall k | k in PlainKeys(Drafted(s).changes)
      ensures k.PathKey? && s.configFS <= k.path
    {
      ClaimedInConfigFS(s, k);
    }
  }

  lemma TwoMore(d: seq<Change>, u: Change, r: Change)
    requires UniqueKeys(d) && !u.conditional && u.key !in PlainKeys(d) && r.key !in PlainKeys(d) && r.key != u.key
    ensures UniqueKeys(d + [u] + [r])
  {
    AddUnique(d, u);
    PlainKeysGrow(d, u);
    AddUnique(d + [u], r);
  }

  lemma FourMore(d: seq<Change>, u: Change, b: Change, x: Change, r: Change)
    requires UniqueKeys(d) && !u.conditional && !b.conditional && !x.conditional
    requires u.key !in PlainKeys(d) && b.key !in PlainKeys(d) && x.key !in PlainKeys(d) && r.key !in PlainKeys(d)
    requires u.key != b.key && u.key != x.key && u.key != r.key && b.key != x.key && b.key != r.key && x.key != r.key
    ensures UniqueKeys(d + [u] + [b] + [x] + [r])
  {
    AddUnique(d, u);
    PlainKeysGrow(d, u);
    AddUnique(d + [u], b);
    PlainKeysGrow(d + [u], b);
    TwoMore(d + [u] + [b], x, r);
  }

  /** An ordinary gadget's transaction is accepted: no two of its changes clash. */
  lemma TidyIsUnique(s: Setup, rebind: bool)
    requires Tidy(s)
    ensures UniqueKeys(Committed(s, rebind))
  {
    DraftInConfigFS(s);
    var d, u, r := Drafted(s).changes, UdcChange(s), ReorderChange(s, Drafted(s));
    if rebind {
      DriverIsElsewhere(s, "unbind");
      DriverIsElsewhere(s, "bind");
      var b, x := UnbindChange(s, true), BindChange(s);
      assert b.path[|s.dwc3|] != x.path[|s.dwc3|];
      FourMore(d, u, b, x, r);
    } else {
      TwoMore(d, u, r);
    }
  }
}
