/** An ordinary gadget's transaction does not undo itself: where each of its changes lies, and which others that leaves
    alone. */
module TidyChanges {
  import opened Common
  import opened Files
  import opened ChangeSet
  import opened Convergence
  import opened GadgetTx
  import opened GadgetOrder
  import opened GadgetPlan
  import opened TransactionConvergence
  import opened Layout
  import opened TidyKeys

  predicate DirPlace(s: Setup, item: Item, p: Path) {
    FunctionDir(s, item, p) || ConfigItemDir(s, item, p)
  }

  predicate FilePlace(s: Setup, item: Item, p: Path) {
    FunctionFile(s, item, p) || ConfigFile(s, item, p)
  }

  /** A removal of the item's report descriptor or of what a disabled item had in the configuration. */
  predicate GonePlace(s: Setup, item: Item, p: Path) {
    (FunctionFile(s, item, p) && Base(p) == "report_desc") || RemovedPlace(s, item, p)
  }

  /** What one item contributes, and where. */
  predicate FromItem(s: Setup, item: Item, c: Change) {
    if c.conditional then c.goal.Absent? && LinkPlace(s, item, c.path) && c.key == Disable(item.device)
    else
      c.key == PathKey(c.path) &&
      match c.goal
      case IsDirectory => DirPlace(s, item, c.path)
      case ContentMatch(_) => FilePlace(s, item, c.path)
      case Absent => GonePlace(s, item, c.path)
      case _ => false
  }

  predicate FromOpening(s: Setup, c: Change) {
    && !c.conditional && c.key == PathKey(c.path)
    && ((c.goal.MountedConfigFS? && c.path == s.configFS)
        || (c.goal.IsDirectory? && (c.path == s.gadget || c.path == s.config)))
  }

  /** All the changes of a draft come from the opening or an item. */
  ghost predicate Sourced(s: Setup, c: Change) {
    FromOpening(s, c) || exists item :: item in s.items && FromItem(s, item, c)
  }

  /** New changes of the draft come from the item. */
  ghost predicate Adds(s: Setup, item: Item, d: Draft, d': Draft) {
    forall c :: c in d'.changes ==> c in d.changes || FromItem(s, item, c)
  }

  lemma AddAdds(s: Setup, item: Item, d0: Draft, d: Draft, c: Change)
    requires Adds(s, item, d0, d) && FromItem(s, item, c)
    ensures Adds(s, item, d0, Add(d, c))
  {
  }

  lemma AttrFromItem(s: Setup, item: Item, d0: Draft, d: Draft, base: Path, name: string, value: Content, before: seq<Key>)
    requires Adds(s, item, d0, d) && FilePlace(s, item, base + [name])
    ensures Adds(s, item, d0, Add(d, AttrChange(base, name, value, before)))
  {
  }

  lemma {:induction false} AttrsFromItem(s: Setup, item: Item, d0: Draft, d: Draft, base: Path, attrs: Attrs, before: seq<Key>)
    requires Adds(s, item, d0, d)
    requires forall name :: name in NamesOf(attrs) ==> FilePlace(s, item, base + [name])
    ensures Adds(s, item, d0, AddAttrs(d, base, attrs, before))
    decreases |attrs|
  {
    if attrs != [] {
      var n := |attrs| - 1;
      var d1 := AddAttrs(d, base, attrs[..n], before);
      LastName(attrs);
      AttrsFromItem(s, item, d0, d, base, attrs[..n], before);
      AttrFromItem(s, item, d0, d1, base, attrs[n].0, attrs[n].1, before);
      assert AddAttrs(d, base, attrs, before).changes == Add(d1, AttrChange(base, attrs[n].0, attrs[n].1, before)).changes;
    }
  }

  lemma LastName(attrs: Attrs)
    requires attrs != []
    ensures attrs[|attrs| - 1].0 in NamesOf(attrs)
    ensures forall name :: name in NamesOf(attrs[..|attrs| - 1]) ==> name in NamesOf(attrs)
  {
    assert attrs[|attrs| - 1] in attrs && forall a :: a in attrs[..|attrs| - 1] ==> a in attrs;
  }

  lemma DescriptorFromItem(s: Setup, item: Item, d0: Draft, d: Draft)
    requires IsEnabled(s, item) && Adds(s, item, d0, d)
    ensures var c := ReportDescChange(s.gadget + item.path, item, d.deps, BeforeOf(s, item));
            Adds(s, item, d0, Add(d, c))
  {
    var c := ReportDescChange(s.gadget + item.path, item, d.deps, BeforeOf(s, item));
    FileOf(s, item, "report_desc");
    AddAdds(s, item, d0, d, c);
  }

  lemma FunctionFromItem(s: Setup, item: Item, d: Draft)
    requires IsEnabled(s, item)
    ensures Adds(s, item, d, AddFunction(s, d, item))
  {
    var dir := s.gadget + item.path;
    var d1 := if dir != s.gadget then AddDir(d, dir) else d;
    forall name | HasFile(item, name)
      ensures FunctionFile(s, item, dir + [name])
    {
      FileOf(s, item, name);
    }
    AttrsFromItem(s, item, d, d1, dir, item.attrs, BeforeOf(s, item));
    DescriptorFromItem(s, item, d, AddAttrs(d1, dir, item.attrs, BeforeOf(s, item)));
  }

  lemma ConfigFromItem(s: Setup, item: Item, d: Draft)
    requires IsEnabled(s, item)
    ensures Adds(s, item, d, AddConfig(s, d, item))
  {
    if HasConfigAttrs(item) {
      var dir := s.config + ConfigPath(item);
      var d1 := if dir != s.config then AddDir(d, dir) else d;
      forall name | HasConfigFile(item, name)
        ensures ConfigFile(s, item, dir + [name])
      {
        ConfigFileOf(s, item, name);
      }
      AttrsFromItem(s, item, d, d1, dir, item.configAttrs.value, BeforeOf(s, item));
    }
  }

  lemma AddItemAdds(s: Setup, item: Item, d: Draft)
    ensures Adds(s, item, d, AddItem(s, d, item))
  {
    if IsEnabled(s, item) {
      FunctionFromItem(s, item, d);
      ConfigFromItem(s, item, AddFunction(s, d, item));
    }
  }

  lemma {:induction false} DraftSourced(s: Setup, n: nat)
    requires n <= |s.items|
    ensures forall c :: c in AddItems(s, Opening(s), s.items[..n]).changes ==> Sourced(s, c)
  {
    if n > 0 {
      var d := AddItems(s, Opening(s), s.items[..n - 1]);
      assert s.items[..n][..n - 1] == s.items[..n - 1] && s.items[n - 1] in s.items;
      DraftSourced(s, n - 1);
      AddItemAdds(s, s.items[n - 1], d);
    }
  }

  /** All the links of a draft are those of enabled functions. */
  lemma {:induction false} LinksSourced(s: Setup, n: nat)
    requires n <= |s.items|
    ensures forall l :: l in AddItems(s, Opening(s), s.items[..n]).links ==>
      exists item :: item in s.items && LinkPlace(s, item, l.path)
  {
    if n > 0 {
      var item := s.items[n - 1];
      var d := AddItems(s, Opening(s), s.items[..n - 1]);
      assert s.items[..n][..n - 1] == s.items[..n - 1] && item in s.items;
      LinksSourced(s, n - 1);
      if IsEnabled(s, item) {
        AddFunctionKeepsCoreLinks(s, d, item);
      }
    }
  }

  lemma {:induction false} AttrsKeepLinks(d: Draft, base: Path, attrs: Attrs, before: seq<Key>)
    ensures AddAttrs(d, base, attrs, before).links == d.links
    decreases |attrs|
  {
    if attrs != [] {
      AttrsKeepLinks(d, base, attrs[..|attrs| - 1], before);
    }
  }

  lemma AddFunctionKeepsCoreLinks(s: Setup, d: Draft, item: Item)
    ensures AddConfig(s, AddFunction(s, d, item), item).links == d.links
  {
    var dir := s.gadget + item.path;
    AttrsKeepLinks(if dir != s.gadget then AddDir(d, dir) else d, dir, item.attrs, BeforeOf(s, item));
    if HasConfigAttrs(item) {
      var d1, cdir := AddFunction(s, d, item), s.config + ConfigPath(item);
      AttrsKeepLinks(if cdir != s.config then AddDir(d1, cdir) else d1, cdir, item.configAttrs.value, BeforeOf(s, item));
    }
  }

  // ---------- which changes leave which alone ----------

  lemma SameItem(s: Setup, a: Item, b: Item) returns (i: nat, j: nat)
    requires a in s.items && b in s.items
    ensures i < |s.items| && j < |s.items| && s.items[i] == a && s.items[j] == b && (a == b || i != j)
  {
    i :| i < |s.items| && s.items[i] == a;
    j :| j < |s.items| && s.items[j] == b;
  }

  /** No directory is made at or below a place where something is removed. */
  lemma NothingMadeBelowGone(s: Setup, a: Item, p: Path, d: Change)
    requires Tidy(s) && a in s.items && GonePlace(s, a, p) && Sourced(s, d) && d.goal.IsDirectory?
    ensures !(p <= d.path)
  {
    if FromOpening(s, d) {
      GoneNotAboveRoots(s, a, p);
    } else {
      var b :| b in s.items && FromItem(s, b, d);
      GoneNotAboveDir(s, a, b, p, d.path);
    }
  }

  lemma GoneNotAboveRoots(s: Setup, a: Item, p: Path)
    requires Tidy(s) && a in s.items && GonePlace(s, a, p)
    ensures !(p <= s.gadget) && !(p <= s.config)
  {
    if FunctionFile(s, a, p) {
      FunctionsInGadget(s, a, p);
      NotAbove(s, p, s.config);
    } else {
      ConfigsInConfig(s, a, p);
    }
  }

  /** What starts like the configuration is neither above nor below an item's place in the gadget. */
  lemma NotAbove(s: Setup, p: Path, q: Path)
    requires TidyPaths(s) && ((InGadget(s, p) && s.config <= q) || (s.config <= p && InGadget(s, q)))
    ensures !(p <= q)
  {
    assert s.config <= q ==> q[|s.gadget|] == "configs";
    assert s.config <= p ==> p[|s.gadget|] == "configs";
  }

  lemma GoneNotAboveDir(s: Setup, a: Item, b: Item, p: Path, q: Path)
    requires Tidy(s) && a in s.items && b in s.items && GonePlace(s, a, p) && DirPlace(s, b, q)
    ensures !(p <= q)
  {
    if FunctionFile(s, a, p) {
      FunctionsInGadget(s, a, p);
      if FunctionDir(s, b, q) {
        FileNotAboveDir(s, a, b, p);
      } else {
        ConfigsInConfig(s, b, q);
        NotAbove(s, p, q);
      }
    } else {
      ConfigsInConfig(s, a, p);
      if FunctionDir(s, b, q) {
        FunctionsInGadget(s, b, q);
        NotAbove(s, p, q);
      } else if b.configPath.Some? {
        var i, j := SameItem(s, a, b);
        ConfigPathsApart(s, i, j);
      }
    }
  }

  /** No unconditional change has the path of a link. */
  lemma LinkPathIsFree(s: Setup, a: Item, p: Path, c: Change)
    requires Tidy(s) && a in s.items && LinkPlace(s, a, p) && Sourced(s, c) && !c.conditional
    ensures c.path != p
  {
    ConfigsInConfig(s, a, p);
    ConfigIsNotGadget(s, p);
    if FromOpening(s, c) {
      assert |p| > |s.config|;
    } else {
      var b :| b in s.items && FromItem(s, b, c);
      if FunctionDir(s, b, c.path) || FunctionFile(s, b, c.path) {
        FunctionsInGadget(s, b, c.path);
      } else {
        LinkPathNotItems(s, a, b, p);
      }
    }
  }

  lemma LinkPathNotItems(s: Setup, a: Item, b: Item, p: Path)
    requires Tidy(s) && a in s.items && b in s.items && LinkPlace(s, a, p)
    ensures !ConfigItemDir(s, b, p) && !ConfigFile(s, b, p) && !RemovedPlace(s, b, p)
  {
    var i, j := SameItem(s, a, b);
    if i != j {
      ConfigPlacesApart(s, i, j, p);
    }
  }

  /** The controller's file and the configuration directory are no places of items. */
  lemma ClosingPathsFree(s: Setup, c: Change)
    requires Tidy(s) && Sourced(s, c) && !FromOpening(s, c)
    ensures c.path != s.gadget + ["UDC"] && c.path != s.config
  {
    var b :| b in s.items && FromItem(s, b, c);
    var p := c.path;
    if FunctionDir(s, b, p) || FunctionFile(s, b, p) {
      FunctionsInGadget(s, b, p);
      if p == s.config {
        ConfigIsNotGadget(s, p);
      }
    } else {
      ConfigsInConfig(s, b, p);
      ConfigIsNotGadget(s, p);
      assert (s.gadget + ["UDC"])[|s.gadget|] == "UDC";
    }
  }

  /** Changes with the same path are the same, but for the directory whose links are reordered. */
  lemma SamePathSameChange(s: Setup, rebind: bool, c: Change, d: Change)
    requires Tidy(s) && c in Committed(s, rebind) && d in Committed(s, rebind) && !c.conditional && !d.conditional
    requires c.path == d.path
    ensures c == d || (c.key == REORDER && d.goal.IsDirectory?) || (d.key == REORDER && c.goal.IsDirectory?)
  {
    TidyIsUnique(s, rebind);
    ChangeKinds(s, rebind, c);
    ChangeKinds(s, rebind, d);
    if c.key.PathKey? && d.key.PathKey? {
      assert c.key == d.key;
    } else if c.key.PathKey? {
      NamedPathsFree(s, c, d);
    } else if d.key.PathKey? {
      NamedPathsFree(s, d, c);
    } else {
      assert |(s.gadget + ["UDC"])| == |s.gadget| + 1;
      assert s.config[|s.gadget|] != (s.gadget + ["UDC"])[|s.gadget|];
    }
  }

  predicate IsRebind(s: Setup, c: Change) {
    c == UnbindChange(s, true) || c == BindChange(s)
  }

  /** A committed change comes from the opening or an item, or is one of the last. */
  lemma ChangeKinds(s: Setup, rebind: bool, c: Change)
    requires c in Committed(s, rebind)
    ensures Sourced(s, c) || c == UdcChange(s) || c == ReorderChange(s, Drafted(s)) || IsRebind(s, c)
    ensures Sourced(s, c) && !c.conditional ==> c.key == PathKey(c.path)
  {
    DraftSourced(s, |s.items|);
    assert s.items[..|s.items|] == s.items;
    if c !in Drafted(s).changes {
      assert c in Closing(s, rebind);
    }
  }

  lemma NamedPathsFree(s: Setup, c: Change, named: Change)
    requires Tidy(s) && (Sourced(s, c) || IsRebind(s, c))
    requires named == UdcChange(s) || named == ReorderChange(s, Drafted(s))
    requires c.path == named.path
    ensures c.goal.IsDirectory? && named.key == REORDER
  {
    assert s.configFS <= s.gadget + ["UDC"] && s.configFS <= s.config;
    if IsRebind(s, c) {
      DriverIsElsewhere(s, "unbind");
      DriverIsElsewhere(s, "bind");
    } else if FromOpening(s, c) {
      assert s.config[|s.gadget|] == "configs" && (s.gadget + ["UDC"])[|s.gadget|] == "UDC";
      assert |s.gadget + ["UDC"]| == |s.gadget| + 1;
    } else {
      ClosingPathsFree(s, c);
    }
  }

  lemma LinksHaveItems(s: Setup, p: Path) returns (item: Item)
    requires exists l :: l in Drafted(s).links && l.path == p
    ensures item in s.items && LinkPlace(s, item, p)
  {
    LinksSourced(s, |s.items|);
    assert s.items[..|s.items|] == s.items;
    var l :| l in Drafted(s).links && l.path == p;
    item :| item in s.items && LinkPlace(s, item, l.path);
  }

  /** Nothing unconditional is at the path of a link. */
  lemma NothingAtLinks(s: Setup, rebind: bool, p: Path, c: Change)
    requires Tidy(s) && c in Committed(s, rebind) && !c.conditional
    requires exists item :: item in s.items && LinkPlace(s, item, p)
    ensures c.path != p
  {
    var item :| item in s.items && LinkPlace(s, item, p);
    ChangeKinds(s, rebind, c);
    ConfigsInConfig(s, item, p);
    ConfigIsNotGadget(s, p);
    if Sourced(s, c) {
      LinkPathIsFree(s, item, p, c);
    } else if IsRebind(s, c) {
      DriverIsElsewhere(s, "unbind");
      DriverIsElsewhere(s, "bind");
      assert s.configFS <= p;
    } else {
      assert (s.gadget + ["UDC"])[|s.gadget|] == "UDC";
    }
  }

  lemma LinksInConfig(s: Setup, l: Symlink)
    requires Tidy(s) && l in Drafted(s).links
    ensures ChildOf(l.path, s.config)
  {
    var item := LinksHaveItems(s, l.path);
    var i, j := SameItem(s, item, item);
    assert l.path == s.config + [item.configPath.value[0]];
  }

  lemma NotALink(s: Setup, rebind: bool, c: Change)
    requires Tidy(s) && c in Committed(s, rebind) && !c.conditional
    ensures c.path !in LinkMap(Drafted(s).links)
  {
    var links := Drafted(s).links;
    LinkMapKeys(links);
    if c.path in LinkMap(links) {
      var i :| 0 <= i < |links| && links[i].path == c.path;
      assert links[i] in links;
      var item := LinksHaveItems(s, c.path);
      NothingAtLinks(s, rebind, c.path, c);
    }
  }

  /** The links of an ordinary gadget are in reach of no removal. */
  lemma TidyLinksApart(s: Setup, rebind: bool)
    requires Tidy(s)
    ensures LinksApart(s, rebind)
  {
    forall l | l in Drafted(s).links
      ensures ChildOf(l.path, s.config)
    {
      LinksInConfig(s, l);
    }
    forall c | c in Committed(s, rebind) && !c.conditional
      ensures c.path !in LinkMap(Drafted(s).links)
    {
      NotALink(s, rebind, c);
    }
  }

  /** A removal leaves alone every other unconditional change ... */
  lemma RemovalIsPeaceful(s: Setup, rebind: bool, c: Change, d: Change)
    requires Tidy(s) && c in Committed(s, rebind) && d in Committed(s, rebind) && c != d && !c.conditional && d.goal.Absent?
    ensures !Disturbs(d, c) || (d.conditional && c.key == REORDER)
  {
    ChangeKinds(s, rebind, c);
    ChangeKinds(s, rebind, d);
    if d.conditional {
      var item :| item in s.items && FromItem(s, item, d);
      NothingAtLinks(s, rebind, d.path, c);
    } else {
      if c.path == d.path {
        SamePathSameChange(s, rebind, c, d);
      }
      if c.goal.LinksInOrder? && exists l :: l in c.goal.links && l.path == d.path {
        var item := LinksHaveItems(s, d.path);
        NothingAtLinks(s, rebind, d.path, d);
      }
    }
  }

  /** ... and so does making a directory. */
  lemma DirectoryIsPeaceful(s: Setup, rebind: bool, c: Change, d: Change)
    requires Tidy(s) && c in Committed(s, rebind) && d in Committed(s, rebind) && !c.conditional && d.goal.IsDirectory?
    ensures !Disturbs(d, c)
  {
    ChangeKinds(s, rebind, c);
    ChangeKinds(s, rebind, d);
    if c.goal.Absent? {
      var a :| a in s.items && FromItem(s, a, c);
      NothingMadeBelowGone(s, a, c.path, d);
    }
  }

  lemma ReorderIsPeaceful(s: Setup, rebind: bool, c: Change, d: Change)
    requires Tidy(s) && c in Committed(s, rebind) && d in Committed(s, rebind) && c != d && !c.conditional
    requires d.goal.LinksInOrder?
    ensures !Disturbs(d, c)
  {
    ChangeKinds(s, rebind, c);
    ChangeKinds(s, rebind, d);
    if exists l :: l in d.goal.links && l.path == c.path {
      var item := LinksHaveItems(s, c.path);
      NothingAtLinks(s, rebind, c.path, c);
    }
  }

  /** The changes of an ordinary gadget's transaction do not undo each other, whichever items are enabled. */
  lemma TidyIsPeaceful(s: Setup, rebind: bool)
    requires Tidy(s)
    ensures Peaceful(s, rebind)
  {
    forall c, d | c in Committed(s, rebind) && d in Committed(s, rebind) && c != d && !c.conditional
      ensures !Disturbs(d, c) || (d.conditional && c.key == REORDER)
    {
      ChangeKinds(s, rebind, d);
      match d.goal {
        case IsDirectory => DirectoryIsPeaceful(s, rebind, c, d);
        case Absent => RemovalIsPeaceful(s, rebind, c, d);
        case LinksInOrder(_) => ReorderIsPeaceful(s, rebind, c, d);
        case _ =>
          if c.path == d.path {
            SamePathSameChange(s, rebind, c, d);
          }
      }
    }
  }
}
