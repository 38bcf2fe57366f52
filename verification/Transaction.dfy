/** The gadget transaction object, and the configuration of the gadget from start to commit. */
module Transaction {
  import opened Common
  import opened Files
  import opened ChangeSet
  import opened GadgetTx
  import opened GadgetOrder
  import opened GadgetPlan
  import opened Layout
  import opened TidyKeys
  import opened TransactionSuccess
  import opened ConfiguredGadget

  /** How a commit ends: with a nil dereference when no function was linked, with a resolver failure, or with
      the plan applied, completely or up to its first error. */
  datatype Outcome = NilReorder | Unresolved(failure: Failure) | Applied(tree: Tree, ok: bool)

  class UsbGadgetTransaction {
    const setup: Setup
    var changes: seq<Change>
    var reorderSymlinkChanges: Option<Change>

    constructor (setup: Setup)
      ensures this.setup == setup && changes == [] && reorderSymlinkChanges == None
    {
      this.setup := setup;
      changes, reorderSymlinkChanges := [], None;
    }

    /** The object is the draft: its changes, and its links and their dependencies in the reorder change. */
    ghost predicate Holds(d: Draft)
      reads this
    {
      && changes == d.changes
      && reorderSymlinkChanges == (if d.links == [] then None else Some(ReorderChange(setup, d)))
      && (d.links == [] ==> d.linkDeps == [])
    }

    method AddFileChange(change: Change)
      modifies this`changes
      ensures changes == old(changes) + [change]
    {
      changes := changes + [change];
    }

    method MountAndCreateConfigPath()
      requires changes == [] && reorderSymlinkChanges == None
      modifies this`changes
      ensures changes + [MakeDir(setup.gadget, [PathKey(setup.config)])] == Opening(setup).changes
    {
      AddFileChange(Change(PathKey(setup.configFS), setup.configFS, MountedConfigFS, [], None, false, false));
      AddFileChange(MakeDir(setup.config, [PathKey(setup.configFS)]));
    }

    method WriteGadgetAttrs(base: Path, attrs: Attrs, before: seq<Key>, ghost d: Draft) returns (files: seq<Key>)
      requires Holds(d)
      modifies this`changes
      ensures Holds(AddAttrs(d, base, attrs, before)) && AddAttrs(d, base, attrs, before).deps == d.deps + files
    {
      files := [];
      var i := 0;
      assert attrs[..0] == [];
      while i < |attrs|
        invariant 0 <= i <= |attrs|
        invariant Holds(AddAttrs(d, base, attrs[..i], before))
        invariant AddAttrs(d, base, attrs[..i], before).deps == d.deps + files
      {
        assert attrs[..i + 1][..i] == attrs[..i];
        var (name, value) := attrs[i];
        AddFileChange(AttrChange(base, name, value, before));
        files := files + [PathKey(base + [name])];
        i := i + 1;
      }
      assert attrs[..i] == attrs;
    }

    method GetDisableKeys() returns (keys: seq<Key>)
      ensures keys == DisableKeys(setup, setup.items)
    {
      keys := [];
      var i := 0;
      while i < |setup.items|
        invariant 0 <= i <= |setup.items| && keys == DisableKeys(setup, setup.items[..i])
      {
        assert setup.items[..i + 1][..i] == setup.items[..i];
        var item := setup.items[i];
        i := i + 1;
        if item.key !in setup.enabled {
          continue;
        }
        if item.configPath.None? || item.configAttrs.Some? {
          continue;
        }
        keys := keys + [Disable(item.device)];
      }
      assert setup.items[..i] == setup.items;
    }

    method DisableGadgetItemConfig(item: Item, ghost d: Draft)
      requires Holds(d) && item.key !in setup.enabled
      modifies this`changes
      ensures Holds(AddItem(setup, d, item)) && AddItem(setup, d, item).deps == d.deps
    {
      if item.configPath.None? {
        return;
      }
      var path := setup.config + item.configPath.value;
      AddFileChange(Change(PathKey(path), path, Absent, [], None, false, false));
    }

    method WriteFunction(item: Item, deps: seq<Key>, before: seq<Key>, ghost d: Draft) returns (files: seq<Key>)
      requires Holds(d) && d.deps == deps && before == BeforeOf(setup, item)
      modifies this`changes
      ensures Holds(AddFunction(setup, d, item)) && AddFunction(setup, d, item).deps == files
    {
      files := deps;
      var dir := setup.gadget + item.path;
      ghost var d1 := d;
      if dir != setup.gadget {
        AddFileChange(MakeDir(dir, files));
        files := files + [PathKey(dir)];
        d1 := AddDir(d, dir);
      }
      var written := WriteGadgetAttrs(dir, item.attrs, before, d1);
      files := files + written;
      AddFileChange(ReportDescChange(dir, item, files, before));
      files := files + [PathKey(dir + ["report_desc"])];
    }

    method WriteConfigAttrs(item: Item, deps: seq<Key>, before: seq<Key>, ghost d: Draft) returns (files: seq<Key>)
      requires Holds(d) && d.deps == deps && before == BeforeOf(setup, item)
      modifies this`changes
      ensures Holds(AddConfig(setup, d, item)) && AddConfig(setup, d, item).deps == files
    {
      files := deps;
      if item.configAttrs.None? || |item.configAttrs.value| == 0 {
        return;
      }
      var dir := setup.config + item.configPath.GetOr([]);
      ghost var d1 := d;
      if dir != setup.config {
        AddFileChange(MakeDir(dir, files));
        files := files + [PathKey(dir)];
        d1 := AddDir(d, dir);
      }
      var written := WriteGadgetAttrs(dir, item.configAttrs.value, before, d1);
      files := files + written;
    }

    method AddReorderSymlinkChange(path: Path, target: Path, deps: seq<Key>, ghost d: Draft)
      requires Holds(d)
      modifies this`reorderSymlinkChanges
      ensures Holds(d.(links := d.links + [Symlink(path, target)], linkDeps := d.linkDeps + deps))
    {
      var change := if reorderSymlinkChanges.Some? then reorderSymlinkChanges.value
                    else Change(REORDER, setup.config, LinksInOrder([]), [], None, false, false);
      var links := if change.goal.LinksInOrder? then change.goal.links else [];
      reorderSymlinkChanges := Some(change.(
        dependsOn := change.dependsOn + deps,
        goal := LinksInOrder(links + [Symlink(path, target)])));
    }

    method WriteGadgetItemConfig(item: Item, deps: seq<Key>, ghost d: Draft) returns (files: seq<Key>)
      requires Holds(d) && d.deps == deps && item.key in setup.enabled
      modifies this
      ensures Holds(AddItem(setup, d, item)) && AddItem(setup, d, item).deps == files
    {
      var before := [];
      if item.configPath.Some? && item.configAttrs.None? {
        before := GetDisableKeys();
      }
      files := WriteFunction(item, deps, before, d);
      ghost var d1 := AddFunction(setup, d, item);
      files := WriteConfigAttrs(item, files, before, d1);
      if item.configPath.Some? && item.configAttrs.None? {
        ghost var d2 := AddConfig(setup, d1, item);
        AddFileChange(UnlinkChange(setup, item));
        AddReorderSymlinkChange(setup.config + item.configPath.value, setup.gadget + item.path, files,
                                Add(d2, UnlinkChange(setup, item)));
      }
    }

    method WriteGadgetConfig()
      requires changes + [MakeDir(setup.gadget, [PathKey(setup.config)])] == Opening(setup).changes
      requires reorderSymlinkChanges == None
      modifies this
      ensures changes == Drafted(setup).changes + [UdcChange(setup)]
      ensures reorderSymlinkChanges ==
              if Drafted(setup).links == [] then None else Some(ReorderChange(setup, Drafted(setup)))
    {
      AddFileChange(MakeDir(setup.gadget, [PathKey(setup.config)]));
      var deps := [PathKey(setup.gadget)];
      var i := 0;
      assert setup.items[..0] == [];
      while i < |setup.items|
        invariant 0 <= i <= |setup.items|
        invariant Holds(AddItems(setup, Opening(setup), setup.items[..i]))
        invariant AddItems(setup, Opening(setup), setup.items[..i]).deps == deps
      {
        assert setup.items[..i + 1][..i] == setup.items[..i];
        ghost var d := AddItems(setup, Opening(setup), setup.items[..i]);
        var item := setup.items[i];
        if item.key !in setup.enabled {
          DisableGadgetItemConfig(item, d);
        } else {
          deps := WriteGadgetItemConfig(item, deps, d);
        }
        i := i + 1;
      }
      assert setup.items[..i] == setup.items;
      AddFileChange(UdcChange(setup));
    }

    method RebindUsb(ignoreUnbindError: bool)
      modifies this`changes
      ensures changes == old(changes) + [UnbindChange(setup, ignoreUnbindError), BindChange(setup)]
    {
      AddFileChange(UnbindChange(setup, ignoreUnbindError));
      AddFileChange(BindChange(setup));
    }

    /** Adds the reorder change, resolves the change set against the tree and applies the plan. */
    method Commit(tree: Tree, rebind: bool) returns (r: Outcome)
      requires reorderSymlinkChanges ==
               if Drafted(setup).links == [] then None else Some(ReorderChange(setup, Drafted(setup)))
      requires changes + [ReorderChange(setup, Drafted(setup))] == Committed(setup, rebind)
      modifies this
      ensures Ends(setup, rebind, tree, r)
    {
      if reorderSymlinkChanges.None? {
        return NilReorder;
      }
      AddFileChange(reorderSymlinkChanges.value);
      var resolver := new ChangeSetResolver(tree);
      var plan := resolver.GetChanges(changes);
      OutcomeOf(setup, rebind, tree, plan);
      if plan.Err? {
        return Unresolved(plan.error);
      }
      var applied, ok := ApplyChanges(tree, plan.value);
      return Applied(applied, ok);
    }
  }

  /** The outcome is that of applying a plan, completely or up to its first error. */
  ghost predicate FromPlan(s: Setup, rebind: bool, t: Tree, m: Maps, plan: seq<Change>, r: Outcome) {
    Planned(s, rebind, t, m, plan) && r == Applied(ApplyPlan(t, plan).0, ApplyPlan(t, plan).1)
  }

  /** What a transaction promises. Without any linked function the commit dereferences nil; otherwise the only thing
      that can keep a plan from being made is two different changes with one key; and what is left is what applying a
      plan leaves, with exactly the enabled functions' links in the configuration directory if it met no error. */
  ghost predicate Ends(s: Setup, rebind: bool, t: Tree, r: Outcome) {
    if Drafted(s).links == [] then r == NilReorder
    else
      match Collect(Maps(map[], map[]), Committed(s, rebind))
      case Err(k) => r == Unresolved(DuplicateChange(k))
      case Ok(m) =>
        && (exists plan :: FromPlan(s, rebind, t, m, plan, r))
        && (r.ok && LinksApart(s, rebind) ==> LinksIn(r.tree, s.config) == LinkMap(Drafted(s).links))
  }

  /** The resolver's answer to a transaction's change set, and what applying it does. */
  lemma OutcomeOf(s: Setup, rebind: bool, t: Tree, plan: Result<seq<Change>, Failure>)
    requires Drafted(s).links != []
    requires Answers(t, Collect(Maps(map[], map[]), Committed(s, rebind)), plan)
    ensures plan.Err? ==> Ends(s, rebind, t, Unresolved(plan.error))
    ensures plan.Ok? ==> Ends(s, rebind, t, Applied(ApplyPlan(t, plan.value).0, ApplyPlan(t, plan.value).1))
  {
    var collected := Collect(Maps(map[], map[]), Committed(s, rebind));
    if collected.Ok? {
      var m := collected.value;
      CollectMaps(Maps(map[], map[]), [], Committed(s, rebind));
      assert [] + Committed(s, rebind) == Committed(s, rebind);
      NothingMissing(s, rebind, t, m);
      TransactionIsAcyclic(s, rebind, t, m);
      if plan.Ok? {
        var r := Applied(ApplyPlan(t, plan.value).0, ApplyPlan(t, plan.value).1);
        assert FromPlan(s, rebind, t, m, plan.value, r);
        if LinksApart(s, rebind) && r.ok {
          LinksAreExact(s, rebind, t, m, plan.value);
        }
      }
    }
  }

  /** Every transaction whose change set is accepted has a plan, whatever the file tree. */
  method PlanTransaction(s: Setup, rebind: bool, tree: Tree) returns (m: Maps, plan: seq<Change>)
    requires Collect(Maps(map[], map[]), Committed(s, rebind)).Ok?
    ensures Planned(s, rebind, tree, m, plan)
  {
    assert [] + Committed(s, rebind) == Committed(s, rebind);
    m := Collect(Maps(map[], map[]), Committed(s, rebind)).value;
    CollectMaps(Maps(map[], map[]), [], Committed(s, rebind));
    NothingMissing(s, rebind, tree, m);
    TransactionIsAcyclic(s, rebind, tree, m);
    var resolver := new ChangeSetResolver(tree);
    var answer := resolver.GetChanges(Committed(s, rebind));
    plan := answer.value;
  }

  lemma UniqueIsAccepted(s: Setup, rebind: bool)
    requires UniqueKeys(Committed(s, rebind))
    ensures Collect(Maps(map[], map[]), Committed(s, rebind)).Ok?
  {
    assert [] + Committed(s, rebind) == Committed(s, rebind);
    UniqueKeysCollect(Maps(map[], map[]), [], Committed(s, rebind));
  }

  /** For an ordinary gadget on a tree with room the outcome is success, the gadget is in the tree as its items describe
      it, and there is room to configure it again. */
  lemma TidyOutcome(s: Setup, rebind: bool, t: Tree, r: Outcome)
    requires Tidy(s) && HasFunction(s) && HasRoom(s, rebind, t) && Ends(s, rebind, t, r)
    ensures r.Applied? && r.ok && HasRoom(s, rebind, r.tree) && Configured(s, rebind, r.tree)
  {
    LinkedIfFunction(s);
    TidyIsUnique(s, rebind);
    UniqueIsAccepted(s, rebind);
    var m := Collect(Maps(map[], map[]), Committed(s, rebind)).value;
    var plan :| FromPlan(s, rebind, t, m, plan, r);
    TidyTransaction(s, rebind, t, m, plan);
    TransactionConfigures(s, rebind, t, m, plan);
  }

  /** The gadget's configuration, from an empty transaction to its commit. */
  method ConfigureUsbGadget(s: Setup, rebind: bool, tree: Tree) returns (r: Outcome)
    ensures Ends(s, rebind, tree, r)
    ensures r == NilReorder <==> !HasFunction(s)
    ensures HasFunction(s) && UniqueKeys(Committed(s, rebind)) ==> r.Applied?
    ensures Tidy(s) && HasFunction(s) && HasRoom(s, rebind, tree) ==>
      r.Applied? && r.ok && HasRoom(s, rebind, r.tree) && Configured(s, rebind, r.tree)
  {
    var tx := new UsbGadgetTransaction(s);
    tx.MountAndCreateConfigPath();
    tx.WriteGadgetConfig();
    if rebind {
      tx.RebindUsb(true);
    }
    assert tx.changes + [ReorderChange(s, Drafted(s))] == Committed(s, rebind);
    r := tx.Commit(tree, rebind);
    LinkedIfFunction(s);
    if UniqueKeys(Committed(s, rebind)) {
      UniqueIsAccepted(s, rebind);
    }
    if Tidy(s) && HasFunction(s) && HasRoom(s, rebind, tree) {
      TidyOutcome(s, rebind, tree, r);
    }
  }
}
