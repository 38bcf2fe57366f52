/** The gadget that a transaction leaves in the file tree, told from the configuration items alone. */
module ConfiguredGadget {
  import opened Common
  import opened Files
  import opened ChangeSet
  import opened Convergence
  import opened FileContents
  import opened GadgetTx
  import opened GadgetOrder
  import opened GadgetPlan
  import opened TransactionConvergence
  import opened Layout
  import opened TidyKeys
  import opened TidyChanges
  import opened TidyApply
  import opened TransactionSuccess
  import opened GadgetLinks
  import opened UnlinkedWrites
  import Graph

  // ---------- what a configured gadget looks like ----------

  /** Every attribute is a file in the directory with its value, but for the one the kernel may not have. */
  predicate AttrsThere(t: Tree, dir: Path, attrs: Attrs) {
    forall a :: a in attrs && a.0 != "wakeup_on_write" ==> Matching(t, dir + [a.0], a.1)
  }

  predicate Gone(t: Tree, p: Path) {
    p != [] && p !in t.nodes
  }

  /** An enabled item: its directory, its attributes, its report descriptor exactly if it has one, and its attributes in
      the configuration. */
  predicate EnabledThere(s: Setup, item: Item, t: Tree) {
    var dir := s.gadget + item.path;
    && IsDir(t, dir) && AttrsThere(t, dir, item.attrs)
    && (match item.reportDesc
        case Some(desc) => Matching(t, dir + ["report_desc"], desc)
        case None => Gone(t, dir + ["report_desc"]))
    && (item.configAttrs.Some? && item.configAttrs.value != [] ==>
          var configDir := s.config + (if item.configPath.Some? then item.configPath.value else []);
          IsDir(t, configDir) && AttrsThere(t, configDir, item.configAttrs.value))
  }

  predicate DisabledThere(s: Setup, item: Item, t: Tree) {
    item.configPath.Some? ==> Gone(t, s.config + item.configPath.value)
  }

  /** The links in the configuration's directory are those of the enabled functions, each to its function's directory. */
  ghost predicate LinksThere(s: Setup, t: Tree) {
    forall p, target :: |p| == |s.config| + 1 && s.config <= p ==>
      (p in t.nodes && t.nodes[p] == Link(target) <==> LinksSome(s, p, target))
  }

  ghost predicate LinksSome(s: Setup, p: Path, target: Path) {
    exists item :: item in s.items && LinksTo(s, item, p, target)
  }

  predicate LinksTo(s: Setup, item: Item, p: Path, target: Path) {
    && item.key in s.enabled && item.configPath.Some? && item.configAttrs.None?
    && p == s.config + item.configPath.value && target == s.gadget + item.path
  }

  /** Configfs is mounted; the items are there as asked for; the gadget is bound to the controller, and after a rebinding
      the driver's two files have been given exactly the controller's name. */
  ghost predicate Configured(s: Setup, rebind: bool, t: Tree) {
    && s.configFS in t.mounted && IsDir(t, s.gadget) && IsDir(t, s.config)
    && (forall item :: item in s.items ==>
          if item.key in s.enabled then EnabledThere(s, item, t) else DisabledThere(s, item, t))
    && LinksThere(s, t)
    && Matching(t, s.gadget + ["UDC"], s.udc)
    && (rebind ==> Holds(t, s.dwc3 + ["unbind"], s.udc) && Holds(t, s.dwc3 + ["bind"], s.udc))
  }

  /** Some function is enabled. */
  ghost predicate HasFunction(s: Setup) {
    exists f :: f in s.items && f.key in s.enabled && f.configPath.Some? && f.configAttrs.None?
  }

  // ---------- what the transaction asks for ----------

  /** An unconditional change whose errors count asks for the goal at the path. */
  ghost predicate Asks(changes: seq<Change>, p: Path, goal: Goal) {
    exists c :: c in changes && !c.conditional && !c.ignoreErrors && c.path == p && c.goal == goal
  }

  ghost predicate AttrsAsked(changes: seq<Change>, dir: Path, attrs: Attrs) {
    forall a :: a in attrs && a.0 != "wakeup_on_write" ==> Asks(changes, dir + [a.0], ContentMatch(a.1))
  }

  ghost predicate FunctionAsked(s: Setup, item: Item, changes: seq<Change>) {
    var dir := s.gadget + item.path;
    && Asks(changes, dir, IsDirectory) && AttrsAsked(changes, dir, item.attrs)
    && Asks(changes, dir + ["report_desc"], if item.reportDesc.Some? then ContentMatch(item.reportDesc.value) else Absent)
  }

  ghost predicate ConfigAsked(s: Setup, item: Item, changes: seq<Change>) {
    HasConfigAttrs(item) ==>
      var dir := s.config + ConfigPath(item);
      Asks(changes, dir, IsDirectory) && AttrsAsked(changes, dir, item.configAttrs.value)
  }

  ghost predicate ItemAsked(s: Setup, item: Item, changes: seq<Change>) {
    if item.key in s.enabled then FunctionAsked(s, item, changes) && ConfigAsked(s, item, changes)
    else item.configPath.Some? ==> Asks(changes, s.config + item.configPath.value, Absent)
  }

  ghost predicate RootsAsked(s: Setup, changes: seq<Change>) {
    && Asks(changes, s.configFS, MountedConfigFS)
    && Asks(changes, s.gadget, IsDirectory) && Asks(changes, s.config, IsDirectory)
  }

  lemma AskedBy(changes: seq<Change>, c: Change)
    requires c in changes && !c.conditional && !c.ignoreErrors
    ensures Asks(changes, c.path, c.goal)
  {
  }

  lemma AttrsStayAsked(d: Draft, d': Draft, dir: Path, attrs: Attrs)
    requires Keeps(d, d') && AttrsAsked(d.changes, dir, attrs)
    ensures AttrsAsked(d'.changes, dir, attrs)
  {
  }

  lemma StaysAsked(d: Draft, d': Draft, p: Path, goal: Goal)
    requires Keeps(d, d') && Asks(d.changes, p, goal)
    ensures Asks(d'.changes, p, goal)
  {
  }

  lemma AttrsAreAsked(d: Draft, dir: Path, attrs: Attrs, before: seq<Key>)
    ensures AttrsAsked(AddAttrs(d, dir, attrs, before).changes, dir, attrs)
  {
    AddAttrsKeeps(d, dir, attrs, before);
    var d' := AddAttrs(d, dir, attrs, before);
    forall a | a in attrs && a.0 != "wakeup_on_write"
      ensures Asks(d'.changes, dir + [a.0], ContentMatch(a.1))
    {
      AskedBy(d'.changes, AttrChange(dir, a.0, a.1, before));
    }
  }

  lemma FunctionIsAsked(s: Setup, d: Draft, item: Item)
    requires RootsAsked(s, d.changes)
    ensures FunctionAsked(s, item, AddFunction(s, d, item).changes)
  {
    var dir, before := s.gadget + item.path, BeforeOf(s, item);
    var d1 := if dir != s.gadget then AddDir(d, dir) else d;
    if dir != s.gadget {
      AskedBy(d1.changes, MakeDir(dir, d.deps));
    }
    var d2 := AddAttrs(d1, dir, item.attrs, before);
    AddAttrsKeeps(d1, dir, item.attrs, before);
    AttrsAreAsked(d1, dir, item.attrs, before);
    StaysAsked(d1, d2, dir, IsDirectory);
    var d3 := AddFunction(s, d, item);
    StaysAsked(d2, d3, dir, IsDirectory);
    AttrsStayAsked(d2, d3, dir, item.attrs);
    AskedBy(d3.changes, ReportDescChange(dir, item, d2.deps, before));
  }

  lemma ConfigIsAsked(s: Setup, d: Draft, item: Item)
    requires RootsAsked(s, d.changes)
    ensures ConfigAsked(s, item, AddConfig(s, d, item).changes)
  {
    if HasConfigAttrs(item) {
      var dir, before := s.config + ConfigPath(item), BeforeOf(s, item);
      var d1 := if dir != s.config then AddDir(d, dir) else d;
      if dir != s.config {
        AskedBy(d1.changes, MakeDir(dir, d.deps));
      }
      AddAttrsKeeps(d1, dir, item.configAttrs.value, before);
      AttrsAreAsked(d1, dir, item.configAttrs.value, before);
      StaysAsked(d1, AddConfig(s, d, item), dir, IsDirectory);
    }
  }

  lemma FunctionStaysAsked(s: Setup, d: Draft, d': Draft, item: Item)
    requires Keeps(d, d') && FunctionAsked(s, item, d.changes)
    ensures FunctionAsked(s, item, d'.changes)
  {
    AttrsStayAsked(d, d', s.gadget + item.path, item.attrs);
  }

  lemma ConfigStaysAsked(s: Setup, d: Draft, d': Draft, item: Item)
    requires Keeps(d, d') && ConfigAsked(s, item, d.changes)
    ensures ConfigAsked(s, item, d'.changes)
  {
    if HasConfigAttrs(item) {
      AttrsStayAsked(d, d', s.config + ConfigPath(item), item.configAttrs.value);
    }
  }

  lemma ItemStaysAsked(s: Setup, d: Draft, d': Draft, item: Item)
    requires Keeps(d, d') && ItemAsked(s, item, d.changes)
    ensures ItemAsked(s, item, d'.changes)
  {
    if item.key in s.enabled {
      FunctionStaysAsked(s, d, d', item);
      ConfigStaysAsked(s, d, d', item);
    }
  }

  lemma ItemIsAsked(s: Setup, d: Draft, item: Item)
    requires RootsAsked(s, d.changes)
    ensures ItemAsked(s, item, AddItem(s, d, item).changes)
  {
    var d' := AddItem(s, d, item);
    if item.key in s.enabled {
      var d1 := AddFunction(s, d, item);
      var d2 := AddConfig(s, d1, item);
      AddFunctionHoldsWrites(s, d, item);
      AddConfigKeeps(s, d1, item);
      FunctionIsAsked(s, d, item);
      StaysAsked(d, d1, s.configFS, MountedConfigFS);
      ConfigIsAsked(s, d1, item);
      FunctionStaysAsked(s, d1, d2, item);
      FunctionStaysAsked(s, d2, d', item);
      ConfigStaysAsked(s, d2, d', item);
    } else if item.configPath.Some? {
      var p := s.config + item.configPath.value;
      AskedBy(d'.changes, Change(PathKey(p), p, Absent, [], None, false, false));
    }
  }

  lemma OpeningAsks(s: Setup)
    ensures RootsAsked(s, Opening(s).changes)
  {
    var changes := Opening(s).changes;
    AskedBy(changes, changes[0]);
    AskedBy(changes, changes[1]);
    AskedBy(changes, changes[2]);
  }

  lemma {:induction false} ItemsAreAsked(s: Setup, items: seq<Item>)
    ensures var changes := AddItems(s, Opening(s), items).changes;
            RootsAsked(s, changes) && forall item :: item in items ==> ItemAsked(s, item, changes)
    decreases |items|
  {
    if items == [] {
      OpeningAsks(s);
    } else {
      var n := |items| - 1;
      var d := AddItems(s, Opening(s), items[..n]);
      ItemsAreAsked(s, items[..n]);
      AddItemHolds(s, d, items[n]);
      ItemIsAsked(s, d, items[n]);
      forall item | item in items
        ensures ItemAsked(s, item, AddItem(s, d, items[n]).changes)
      {
        if item != items[n] {
          assert item in items[..n];
          ItemStaysAsked(s, d, AddItem(s, d, items[n]), item);
        }
      }
    }
  }

  // ---------- what the applied plan leaves ----------

  lemma InPlan(s: Setup, rebind: bool, t: Tree, m: Maps, plan: seq<Change>, c: Change)
    requires Tidy(s) && Planned(s, rebind, t, m, plan) && c in Committed(s, rebind) && !c.conditional
    ensures c in plan
  {
    TidyIsUnique(s, rebind);
    FiledUnderKey(Committed(s, rebind), m, c);
    BaseAt(s, rebind, t, m, plan, c.key);
  }

  /** What was asked for and can last is so. */
  lemma AskedIsSettled(s: Setup, rebind: bool, t: Tree, m: Maps, plan: seq<Change>, p: Path, goal: Goal)
    requires Underway(s, rebind, t, m, plan) && Asks(Committed(s, rebind), p, goal) && Lasting(p, goal)
    ensures Settled(ApplyPlan(t, plan).0, p, goal)
  {
    var c :| c in Committed(s, rebind) && !c.conditional && !c.ignoreErrors && c.path == p && c.goal == goal;
    InPlan(s, rebind, t, m, plan, c);
    TidyTransaction(s, rebind, t, m, plan);
    assert Acts(ApplyPlan(t, plan).0, c) <==> !Lasting(p, goal);
  }

  lemma AttrsAreThere(s: Setup, rebind: bool, t: Tree, m: Maps, plan: seq<Change>, dir: Path, attrs: Attrs)
    requires Underway(s, rebind, t, m, plan) && AttrsAsked(Committed(s, rebind), dir, attrs)
    ensures AttrsThere(ApplyPlan(t, plan).0, dir, attrs)
  {
    forall a | a in attrs && a.0 != "wakeup_on_write"
      ensures Matching(ApplyPlan(t, plan).0, dir + [a.0], a.1)
    {
      AskedIsSettled(s, rebind, t, m, plan, dir + [a.0], ContentMatch(a.1));
    }
  }

  lemma FunctionIsThere(s: Setup, rebind: bool, t: Tree, m: Maps, plan: seq<Change>, item: Item)
    requires Underway(s, rebind, t, m, plan) && item.key in s.enabled
    requires FunctionAsked(s, item, Committed(s, rebind)) && ConfigAsked(s, item, Committed(s, rebind))
    ensures EnabledThere(s, item, ApplyPlan(t, plan).0)
  {
    var dir := s.gadget + item.path;
    AskedIsSettled(s, rebind, t, m, plan, dir, IsDirectory);
    AttrsAreThere(s, rebind, t, m, plan, dir, item.attrs);
    AskedIsSettled(s, rebind, t, m, plan, dir + ["report_desc"],
                   if item.reportDesc.Some? then ContentMatch(item.reportDesc.value) else Absent);
    if HasConfigAttrs(item) {
      AskedIsSettled(s, rebind, t, m, plan, s.config + ConfigPath(item), IsDirectory);
      AttrsAreThere(s, rebind, t, m, plan, s.config + ConfigPath(item), item.configAttrs.value);
    }
  }

  lemma ItemIsThere(s: Setup, rebind: bool, t: Tree, m: Maps, plan: seq<Change>, item: Item)
    requires Underway(s, rebind, t, m, plan) && ItemAsked(s, item, Committed(s, rebind))
    ensures var t' := ApplyPlan(t, plan).0;
            if item.key in s.enabled then EnabledThere(s, item, t') else DisabledThere(s, item, t')
  {
    if item.key in s.enabled {
      FunctionIsThere(s, rebind, t, m, plan, item);
    } else if item.configPath.Some? {
      AskedIsSettled(s, rebind, t, m, plan, s.config + item.configPath.value, Absent);
    }
  }

  lemma {:induction false} LinkMapHas(links: seq<Symlink>, i: nat)
    requires i < |links| && forall j, k :: 0 <= j < k < |links| ==> links[j].path != links[k].path
    ensures links[i].path in LinkMap(links) && LinkMap(links)[links[i].path] == links[i].target
    decreases |links|
  {
    var n := |links| - 1;
    if i < n {
      LinkMapHas(links[..n], i);
    }
  }

  lemma LinkMapIs(links: seq<Symlink>, p: Path, target: Path)
    requires forall j, k :: 0 <= j < k < |links| ==> links[j].path != links[k].path
    ensures p in LinkMap(links) && LinkMap(links)[p] == target <==> Symlink(p, target) in links
  {
    LinkMapKeys(links);
    if p in LinkMap(links) {
      var i :| 0 <= i < |links| && links[i].path == p;
      LinkMapHas(links, i);
    }
    if Symlink(p, target) in links {
      var i :| 0 <= i < |links| && links[i] == Symlink(p, target);
      LinkMapHas(links, i);
    }
  }

  /** The drafted links, told from the items. */
  lemma DraftedLinkIff(s: Setup, p: Path, target: Path)
    ensures Symlink(p, target) in Drafted(s).links <==> LinksSome(s, p, target)
  {
    DraftedLinksAre(s, s.items);
    LinksOfFunctions(s, s.items);
    if Symlink(p, target) in Drafted(s).links {
      var i :| 0 <= i < |s.items| && IsFunction(s, s.items[i]) &&
               Symlink(p, target) == Symlink(s.config + s.items[i].configPath.value, s.gadget + s.items[i].path);
      assert LinksTo(s, s.items[i], p, target);
    }
    if item :| item in s.items && LinksTo(s, item, p, target) {
      LinkOf(s, s.items, item);
    }
  }

  lemma LinkIsThere(s: Setup, t: Tree, p: Path, target: Path)
    requires LinksIn(t, s.config) == LinkMap(Drafted(s).links) && |p| == |s.config| + 1 && s.config <= p
    requires forall i, j :: 0 <= i < j < |Drafted(s).links| ==> Drafted(s).links[i].path != Drafted(s).links[j].path
    ensures p in t.nodes && t.nodes[p] == Link(target) <==> LinksSome(s, p, target)
  {
    assert ChildOf(p, s.config);
    assert p in t.nodes && t.nodes[p] == Link(target) <==> p in LinksIn(t, s.config) && LinksIn(t, s.config)[p] == target;
    LinkMapIs(Drafted(s).links, p, target);
    DraftedLinkIff(s, p, target);
  }

  lemma LinksAreThere(s: Setup, rebind: bool, t: Tree)
    requires Tidy(s) && Drafted(s).links != [] && LinksIn(t, s.config) == LinkMap(Drafted(s).links)
    ensures LinksThere(s, t)
  {
    DraftedLinksProper(s, rebind);
    forall p, target | |p| == |s.config| + 1 && s.config <= p
      ensures p in t.nodes && t.nodes[p] == Link(target) <==> LinksSome(s, p, target)
    {
      LinkIsThere(s, t, p, target);
    }
  }

  // ---------- the driver's files ----------

  predicate ToDriver(s: Setup, rebind: bool, w: Change) {
    && w in Committed(s, rebind) && !w.conditional && w.goal == FileWrite(s.udc)
    && w.path != [] && w.path[..|w.path| - 1] == s.dwc3
  }

  /** With room the path of a write to the driver leads to itself, and the write succeeds. */
  lemma DriverHasRoom(s: Setup, rebind: bool, t: Tree, w: Change)
    requires HasRoom(s, rebind, t) && ToDriver(s, rebind, w)
    ensures WritesNow(t, w.path, w.goal, s.udc) && Leads(t, w.path, w.path)
    ensures Apply(t, w.path, w.goal) == (Tree(t.nodes[w.path := File(s.udc)], t.mounted), true)
  {
    assert KindFits(t, w) && CanHoldFile(t, w.path);
    assert Chain(t, [w.path]) && [w.path][0] == w.path;
    WriteIsExact(t, w.path, w.goal, s.udc);
  }

  lemma NothingBehindTouches(s: Setup, rebind: bool, t: Tree, m: Maps, plan: seq<Change>, i: nat)
    requires Underway(s, rebind, t, m, plan) && i < |plan| && ToDriver(s, rebind, plan[i])
    ensures forall d :: d in plan[i + 1..] ==> !Touches(d, plan[i].path)
  {
    TidyIsPeaceful(s, rebind);
    NothingDisturbs(s, rebind, t, m, plan, i);
    forall d | d in plan[i + 1..]
      ensures !Touches(d, plan[i].path)
    {
      var j :| i < j < |plan| && plan[j] == d;
      DisturbedWrite(d, plan[i]);
    }
  }

  lemma NoLinksBehind(s: Setup, rebind: bool, t: Tree, m: Maps, plan: seq<Change>, i: nat)
    requires Underway(s, rebind, t, m, plan) && ApplyPlan(t, plan).1 && i < |plan|
    ensures NoLinksInTheWay(TreeAt(t, plan, i + 1), plan[i + 1..])
  {
    RoomAt(s, rebind, t, m, plan, i + 1);
    RoomHasNoLinks(s, rebind, t, m, plan, TreeAt(t, plan, i + 1));
    assert forall d :: d in plan[i + 1..] ==> d in plan;
  }

  /** A planned write to the driver is carried out at its turn, and nothing behind it touches what it wrote. */
  lemma DriverIsTold(s: Setup, rebind: bool, t: Tree, m: Maps, plan: seq<Change>, i: nat)
    requires Underway(s, rebind, t, m, plan) && i < |plan| && ToDriver(s, rebind, plan[i])
    ensures Holds(ApplyPlan(t, plan).0, plan[i].path, s.udc)
  {
    var w, t1 := plan[i], TreeAt(t, plan, i);
    PlanApplies(s, rebind, t, m, plan);
    PrefixApplies(t, plan, i);
    RoomAt(s, rebind, t, m, plan, i);
    DriverHasRoom(s, rebind, t1, w);
    NoLinksBehind(s, rebind, t, m, plan, i);
    NothingBehindTouches(s, rebind, t, m, plan, i);
    WriteLasts(t, plan, i, s.udc, w.path);
  }

  lemma PlannedIsTold(s: Setup, rebind: bool, t: Tree, m: Maps, plan: seq<Change>, w: Change)
    requires Underway(s, rebind, t, m, plan) && ToDriver(s, rebind, w)
    ensures Holds(ApplyPlan(t, plan).0, w.path, s.udc)
  {
    InPlan(s, rebind, t, m, plan, w);
    var i :| 0 <= i < |plan| && plan[i] == w;
    DriverIsTold(s, rebind, t, m, plan, i);
  }

  lemma DriverWrites(s: Setup, rebind: bool, t: Tree, m: Maps, plan: seq<Change>)
    requires Underway(s, rebind, t, m, plan) && rebind
    ensures var t' := ApplyPlan(t, plan).0;
            Holds(t', s.dwc3 + ["unbind"], s.udc) && Holds(t', s.dwc3 + ["bind"], s.udc)
  {
    assert UnbindChange(s, true) in Closing(s, true) && BindChange(s) in Closing(s, true);
    PlannedIsTold(s, rebind, t, m, plan, UnbindChange(s, true));
    PlannedIsTold(s, rebind, t, m, plan, BindChange(s));
  }

  lemma CommittedAsks(s: Setup, rebind: bool)
    ensures RootsAsked(s, Committed(s, rebind)) && Asks(Committed(s, rebind), s.gadget + ["UDC"], ContentMatch(s.udc))
    ensures forall item :: item in s.items ==> ItemAsked(s, item, Committed(s, rebind))
  {
    var committed := Draft(Committed(s, rebind), [], [], []);
    ItemsAreAsked(s, s.items);
    assert Keeps(Drafted(s), committed);
    forall item | item in s.items
      ensures ItemAsked(s, item, Committed(s, rebind))
    {
      ItemStaysAsked(s, Drafted(s), committed, item);
    }
    assert UdcChange(s) in Closing(s, rebind);
    AskedBy(Committed(s, rebind), UdcChange(s));
  }

  lemma RootsAreThere(s: Setup, rebind: bool, t: Tree, m: Maps, plan: seq<Change>)
    requires Underway(s, rebind, t, m, plan)
    ensures var t' := ApplyPlan(t, plan).0;
            && s.configFS in t'.mounted && IsDir(t', s.gadget) && IsDir(t', s.config)
            && Matching(t', s.gadget + ["UDC"], s.udc)
  {
    CommittedAsks(s, rebind);
    AskedIsSettled(s, rebind, t, m, plan, s.configFS, MountedConfigFS);
    AskedIsSettled(s, rebind, t, m, plan, s.gadget, IsDirectory);
    AskedIsSettled(s, rebind, t, m, plan, s.config, IsDirectory);
    AskedIsSettled(s, rebind, t, m, plan, s.gadget + ["UDC"], ContentMatch(s.udc));
  }

  lemma ItemsAreThere(s: Setup, rebind: bool, t: Tree, m: Maps, plan: seq<Change>)
    requires Underway(s, rebind, t, m, plan)
    ensures var t' := ApplyPlan(t, plan).0;
            forall item :: item in s.items ==>
              if item.key in s.enabled then EnabledThere(s, item, t') else DisabledThere(s, item, t')
  {
    CommittedAsks(s, rebind);
    forall item | item in s.items
      ensures var t' := ApplyPlan(t, plan).0;
              if item.key in s.enabled then EnabledThere(s, item, t') else DisabledThere(s, item, t')
    {
      ItemIsThere(s, rebind, t, m, plan, item);
    }
  }

  lemma LinkedIfFunction(s: Setup)
    ensures Drafted(s).links != [] <==> HasFunction(s)
  {
    LinkedIff(s);
    if f :| f in s.items && IsFunction(s, f) {
      var i :| 0 <= i < |s.items| && s.items[i] == f;
    }
    if i :| 0 <= i < |s.items| && IsFunction(s, s.items[i]) {
      assert s.items[i] in s.items;
    }
  }

  /** What a transaction is for: an ordinary gadget's transaction, whichever functions are enabled, whatever plan is made
      of it, and on every file tree with room for it, leaves the gadget in the tree as its items describe it. */
  lemma TransactionConfigures(s: Setup, rebind: bool, t: Tree, m: Maps, plan: seq<Change>)
    requires Tidy(s) && Planned(s, rebind, t, m, plan) && HasRoom(s, rebind, t)
    requires HasFunction(s)
    ensures ApplyPlan(t, plan).1 && Configured(s, rebind, ApplyPlan(t, plan).0)
  {
    LinkedIfFunction(s);
    TidyTransaction(s, rebind, t, m, plan);
    LinksAreThere(s, rebind, ApplyPlan(t, plan).0);
    RootsAreThere(s, rebind, t, m, plan);
    ItemsAreThere(s, rebind, t, m, plan);
    if rebind {
      DriverWrites(s, rebind, t, m, plan);
    }
  }

  /** What a configured gadget has of one enabled function. */
  lemma FunctionOf(s: Setup, rebind: bool, t: Tree, f: Item, name: string)
    requires Configured(s, rebind, t) && f in s.items && IsFunction(s, f) && f.configPath == Some([name])
    ensures var link, dir := s.config + [name], s.gadget + f.path;
            && link in t.nodes && t.nodes[link] == Link(dir) && AttrsThere(t, dir, f.attrs)
            && (f.reportDesc.Some? ==> Matching(t, dir + ["report_desc"], f.reportDesc.value))
  {
    assert LinksTo(s, f, s.config + [name], s.gadget + f.path);
    assert LinksSome(s, s.config + [name], s.gadget + f.path);
    assert EnabledThere(s, f, t);
  }

  // ---------- whose errors count ----------

  /** An attribute that the kernel may not have. */
  predicate Optional(c: Change) {
    c.goal.ContentMatch? && c.path != [] && c.path[|c.path| - 1] == "wakeup_on_write"
  }

  predicate CountsUnlessOptional(changes: seq<Change>) {
    forall c :: c in changes ==> (c.ignoreErrors <==> Optional(c))
  }

  lemma {:induction false} AttrsCount(d: Draft, base: Path, attrs: Attrs, before: seq<Key>)
    requires CountsUnlessOptional(d.changes)
    ensures CountsUnlessOptional(AddAttrs(d, base, attrs, before).changes)
    decreases |attrs|
  {
    if attrs != [] {
      AttrsCount(d, base, attrs[..|attrs| - 1], before);
    }
  }

  lemma ItemCounts(s: Setup, d: Draft, item: Item)
    requires CountsUnlessOptional(d.changes)
    ensures CountsUnlessOptional(AddItem(s, d, item).changes)
  {
    if IsEnabled(s, item) {
      var dir, cdir := s.gadget + item.path, s.config + ConfigPath(item);
      AttrsCount(if dir != s.gadget then AddDir(d, dir) else d, dir, item.attrs, BeforeOf(s, item));
      assert "report_desc"[0] != "wakeup_on_write"[0];
      var d1 := AddFunction(s, d, item);
      if HasConfigAttrs(item) {
        AttrsCount(if cdir != s.config then AddDir(d1, cdir) else d1, cdir, item.configAttrs.value, BeforeOf(s, item));
      }
    }
  }

  lemma {:induction false} DraftCounts(s: Setup, items: seq<Item>)
    ensures CountsUnlessOptional(AddItems(s, Opening(s), items).changes)
    decreases |items|
  {
    if items != [] {
      DraftCounts(s, items[..|items| - 1]);
      ItemCounts(s, AddItems(s, Opening(s), items[..|items| - 1]), items[|items| - 1]);
    }
  }

  /** The only changes of a transaction that may fail are writing "wakeup_on_write" and unbinding the driver. */
  lemma ErrorsCount(s: Setup, rebind: bool, c: Change)
    requires c in Committed(s, rebind)
    ensures c.ignoreErrors <==> Optional(c) || (c.goal.FileWrite? && c.path == s.dwc3 + ["unbind"])
  {
    DraftCounts(s, s.items);
    assert "UDC"[0] != "wakeup_on_write"[0] && "bind"[0] != "unbind"[0];
    if c in Drafted(s).changes {
      AddItemsNoWrites(s, c);
    } else {
      assert c in Closing(s, rebind);
      if c == BindChange(s) {
        assert c.path[|s.dwc3|] == "bind" && (s.dwc3 + ["unbind"])[|s.dwc3|] == "unbind";
      }
    }
  }

  lemma AddItemsNoWrites(s: Setup, c: Change)
    requires c in Drafted(s).changes
    ensures !c.goal.FileWrite?
  {
    DraftSourced(s, |s.items|);
    assert s.items[..|s.items|] == s.items;
  }
}
