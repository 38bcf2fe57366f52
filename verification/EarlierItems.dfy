/** The items of a gadget are written one behind the other, and all of them before the functions are linked. */
module EarlierItems {
  import opened Common
  import opened Files
  import opened ChangeSet
  import opened GadgetTx
  import opened GadgetOrder
  import opened GadgetPlan
  import Graph

  function ConfigDir(item: Item): Path {
    if item.configPath.Some? then item.configPath.value else []
  }

  /** A file of an enabled item: an attribute, the report descriptor, or an attribute in the configuration. */
  predicate FileOfItem(s: Setup, item: Item, p: Path) {
    && item.key in s.enabled
    && (|| p == s.gadget + item.path + ["report_desc"]
        || (exists a :: a in item.attrs && p == s.gadget + item.path + [a.0])
        || (item.configAttrs.Some? && exists a :: a in item.configAttrs.value && p == s.config + ConfigDir(item) + [a.0]))
  }

  predicate DepsGrow(d: Draft, d': Draft) {
    (forall k :: k in d.deps ==> k in d'.deps) && (forall k :: k in d.linkDeps ==> k in d'.linkDeps)
  }

  lemma {:induction false} AttrsAwaited(d: Draft, base: Path, attrs: Attrs, before: seq<Key>)
    ensures var d' := AddAttrs(d, base, attrs, before);
            DepsGrow(d, d') && (forall a :: a in attrs ==> PathKey(base + [a.0]) in d'.deps)
    decreases |attrs|
  {
    if attrs != [] {
      var n := |attrs| - 1;
      AttrsAwaited(d, base, attrs[..n], before);
      forall a | a in attrs
        ensures PathKey(base + [a.0]) in AddAttrs(d, base, attrs, before).deps
      {
        if a != attrs[n] {
          assert a in attrs[..n];
        }
      }
    }
  }

  lemma FunctionAwaited(s: Setup, d: Draft, item: Item)
    ensures var d', dir := AddFunction(s, d, item), s.gadget + item.path;
            && DepsGrow(d, d') && PathKey(dir + ["report_desc"]) in d'.deps
            && forall a :: a in item.attrs ==> PathKey(dir + [a.0]) in d'.deps
  {
    var dir := s.gadget + item.path;
    AttrsAwaited(if dir != s.gadget then AddDir(d, dir) else d, dir, item.attrs, BeforeOf(s, item));
  }

  lemma ConfigAwaited(s: Setup, d: Draft, item: Item)
    ensures var d', dir := AddConfig(s, d, item), s.config + item.configPath.GetOr([]);
            && DepsGrow(d, d')
            && (item.configAttrs.Some? ==> forall a :: a in item.configAttrs.value ==> PathKey(dir + [a.0]) in d'.deps)
  {
    if item.configAttrs.Some? && item.configAttrs.value != [] {
      var dir := s.config + item.configPath.GetOr([]);
      AttrsAwaited(if dir != s.config then AddDir(d, dir) else d, dir, item.configAttrs.value, BeforeOf(s, item));
    }
  }

  lemma ItemAwaited(s: Setup, d: Draft, item: Item)
    ensures var d' := AddItem(s, d, item);
            && DepsGrow(d, d')
            && (forall p :: FileOfItem(s, item, p) ==> PathKey(p) in d'.deps)
            && (IsFunction(s, item) ==> forall k :: k in d.deps ==> k in d'.linkDeps)
  {
    if item.key in s.enabled {
      FunctionAwaited(s, d, item);
      ConfigAwaited(s, AddFunction(s, d, item), item);
    }
  }

  lemma NextItem(s: Setup, n: nat)
    requires 0 < n <= |s.items|
    ensures AddItems(s, Opening(s), s.items[..n]) == AddItem(s, AddItems(s, Opening(s), s.items[..n - 1]), s.items[n - 1])
  {
    assert s.items[..n][..n - 1] == s.items[..n - 1];
  }

  /** Behind the item at i the draft waits for its files ... */
  lemma {:induction false} FilesAwaited(s: Setup, i: nat, n: nat, p: Path)
    requires i < n <= |s.items| && FileOfItem(s, s.items[i], p)
    ensures PathKey(p) in AddItems(s, Opening(s), s.items[..n]).deps
    decreases n
  {
    NextItem(s, n);
    ItemAwaited(s, AddItems(s, Opening(s), s.items[..n - 1]), s.items[n - 1]);
    if i < n - 1 {
      FilesAwaited(s, i, n - 1, p);
    }
  }

  /** ... and behind a later function its links do. */
  lemma {:induction false} LinksAwait(s: Setup, i: nat, j: nat, n: nat, p: Path)
    requires i < j < n <= |s.items| && FileOfItem(s, s.items[i], p) && IsFunction(s, s.items[j])
    ensures PathKey(p) in AddItems(s, Opening(s), s.items[..n]).linkDeps
    decreases n
  {
    NextItem(s, n);
    ItemAwaited(s, AddItems(s, Opening(s), s.items[..n - 1]), s.items[n - 1]);
    if j < n - 1 {
      LinksAwait(s, i, j, n - 1, p);
    } else {
      FilesAwaited(s, i, n - 1, p);
    }
  }

  lemma FileIsFiled(s: Setup, rebind: bool, m: Maps, item: Item, p: Path)
    requires Filed(s, rebind, m) && item in s.items && FileOfItem(s, item, p)
    ensures PathKey(p) in m.base && m.base[PathKey(p)].path == p
  {
    AddItemsKeepsCore(s, s.items);
    var i :| 0 <= i < |s.items| && s.items[i] == item;
    assert s.items[..|s.items|] == s.items;
    FilesAwaited(s, i, |s.items|, p);
    var c :| c in Drafted(s).changes && !c.conditional && c.key == PathKey(p);
    FiledUnderKey(Committed(s, rebind), m, c);
    DraftedAtKey(s, c);
  }

  predicate AtItsKey(c: Change) {
    !c.conditional ==> c.key == PathKey(c.path)
  }

  lemma {:induction false} AttrsAtKeys(d: Draft, base: Path, attrs: Attrs, before: seq<Key>)
    requires forall c :: c in d.changes ==> AtItsKey(c)
    ensures forall c :: c in AddAttrs(d, base, attrs, before).changes ==> AtItsKey(c)
    decreases |attrs|
  {
    if attrs != [] {
      AttrsAtKeys(d, base, attrs[..|attrs| - 1], before);
    }
  }

  lemma ItemAtKeys(s: Setup, d: Draft, item: Item)
    requires forall c :: c in d.changes ==> AtItsKey(c)
    ensures forall c :: c in AddItem(s, d, item).changes ==> AtItsKey(c)
  {
    if item.key in s.enabled {
      var dir, cdir := s.gadget + item.path, s.config + item.configPath.GetOr([]);
      AttrsAtKeys(if dir != s.gadget then AddDir(d, dir) else d, dir, item.attrs, BeforeOf(s, item));
      var d1 := AddFunction(s, d, item);
      if item.configAttrs.Some? {
        AttrsAtKeys(if cdir != s.config then AddDir(d1, cdir) else d1, cdir, item.configAttrs.value, BeforeOf(s, item));
      }
    }
  }

  lemma {:induction false} DraftAtKeys(s: Setup, items: seq<Item>)
    ensures forall c :: c in AddItems(s, Opening(s), items).changes ==> AtItsKey(c)
    decreases |items|
  {
    if items != [] {
      DraftAtKeys(s, items[..|items| - 1]);
      ItemAtKeys(s, AddItems(s, Opening(s), items[..|items| - 1]), items[|items| - 1]);
    }
  }

  lemma DraftedAtKey(s: Setup, c: Change)
    requires c in Drafted(s).changes && !c.conditional
    ensures c.key == PathKey(c.path)
  {
    DraftAtKeys(s, s.items);
  }

  /** Where the plan has a file's change. */
  predicate PlannedFile(plan: seq<Change>, p: Path) {
    0 <= At(plan, PathKey(p)) < |plan| && plan[At(plan, PathKey(p))].path == p
  }

  /** Every attribute, report descriptor and configuration attribute of an enabled item that is listed before some enabled
      function comes before the reordering of the links in every plan, and that before the gadget is bound. */
  lemma EarlierBeforeLinks(s: Setup, rebind: bool, t: Tree, m: Maps, plan: seq<Change>, i: nat, j: nat, p: Path)
    requires Planned(s, rebind, t, m, plan)
    requires i < j < |s.items| && FileOfItem(s, s.items[i], p) && IsFunction(s, s.items[j])
    ensures PlannedFile(plan, p)
    ensures At(plan, PathKey(p)) < At(plan, Named("reorder-symlinks")) < At(plan, Named("udc"))
  {
    assert s.items[..|s.items|] == s.items;
    LinksAwait(s, i, j, |s.items|, p);
    FileIsFiled(s, rebind, m, s.items[i], p);
    ClosingFiled(s, rebind, m);
    BaseAt(s, rebind, t, m, plan, PathKey(p));
    DependencyAt(s, rebind, t, m, plan, PathKey(p), REORDER);
    DependencyAt(s, rebind, t, m, plan, REORDER, UDC);
  }

  /** The draft has a report descriptor's change for the item, which waits for the key. */
  predicate DescriptorWaits(s: Setup, d: Draft, item: Item, k: Key) {
    exists c :: c in d.changes && !c.conditional && c.key == PathKey(s.gadget + item.path + ["report_desc"]) &&
      k in c.dependsOn
  }

  lemma DescriptorStays(s: Setup, d: Draft, d': Draft, item: Item, k: Key)
    requires DescriptorWaits(s, d, item, k) && Keeps(d, d')
    ensures DescriptorWaits(s, d', item, k)
  {
  }

  lemma {:induction false} DescriptorAwaits(s: Setup, i: nat, j: nat, n: nat, p: Path)
    requires i < j < n <= |s.items| && FileOfItem(s, s.items[i], p) && s.items[j].key in s.enabled
    ensures DescriptorWaits(s, AddItems(s, Opening(s), s.items[..n]), s.items[j], PathKey(p))
    decreases n
  {
    var d, item := AddItems(s, Opening(s), s.items[..n - 1]), s.items[n - 1];
    NextItem(s, n);
    if j < n - 1 {
      DescriptorAwaits(s, i, j, n - 1, p);
      AddItemHolds(s, d, item);
      DescriptorStays(s, d, AddItem(s, d, item), s.items[j], PathKey(p));
    } else {
      FilesAwaited(s, i, n - 1, p);
      DescriptorAdded(s, d, item, PathKey(p));
    }
  }

  lemma DescriptorAdded(s: Setup, d: Draft, item: Item, k: Key)
    requires item.key in s.enabled && k in d.deps
    ensures DescriptorWaits(s, AddItem(s, d, item), item, k)
  {
    var dir, before := s.gadget + item.path, BeforeOf(s, item);
    var d1 := if dir != s.gadget then AddDir(d, dir) else d;
    AttrsAwaited(d1, dir, item.attrs, before);
    var c := ReportDescChange(dir, item, AddAttrs(d1, dir, item.attrs, before).deps, before);
    var d2 := AddFunction(s, d, item);
    assert c in d2.changes && k in c.dependsOn;
    AddConfigKeeps(s, d2, item);
  }

  /** And before the report descriptor of every enabled item listed behind it: the items' files come item by item. */
  lemma EarlierBeforeLater(s: Setup, rebind: bool, t: Tree, m: Maps, plan: seq<Change>, i: nat, j: nat, p: Path)
    requires Planned(s, rebind, t, m, plan)
    requires i < j < |s.items| && FileOfItem(s, s.items[i], p) && s.items[j].key in s.enabled
    requires p != s.gadget + s.items[j].path + ["report_desc"]
    ensures PlannedFile(plan, p)
    ensures At(plan, PathKey(p)) < At(plan, PathKey(s.gadget + s.items[j].path + ["report_desc"])) < |plan|
  {
    var k := PathKey(s.gadget + s.items[j].path + ["report_desc"]);
    assert s.items[..|s.items|] == s.items;
    DescriptorAwaits(s, i, j, |s.items|, p);
    var c :| c in Drafted(s).changes && !c.conditional && c.key == k && PathKey(p) in c.dependsOn;
    FileIsFiled(s, rebind, m, s.items[i], p);
    FiledUnderKey(Committed(s, rebind), m, c);
    BaseAt(s, rebind, t, m, plan, PathKey(p));
    BaseAt(s, rebind, t, m, plan, k);
    DependencyAt(s, rebind, t, m, plan, PathKey(p), k);
  }
}
