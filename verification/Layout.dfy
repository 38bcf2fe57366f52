/** The layout of an ordinary gadget: where its items' directories, files and links lie, and that they do not meet. */
module Layout {
  import opened Common
  import opened Files
  import opened ChangeSet
  import opened GadgetTx
  import opened GadgetOrder
  import opened GadgetPlan

  function NamesOf(attrs: Attrs): set<string> {
    set a | a in attrs :: a.0
  }

  predicate DistinctNames(attrs: Attrs) {
    forall i, j :: 0 <= i < j < |attrs| ==> attrs[i].0 != attrs[j].0
  }

  /** A file the item has in its directory. */
  predicate HasFile(item: Item, name: string) {
    name == "report_desc" || name in NamesOf(item.attrs)
  }

  predicate HasConfigAttrs(item: Item) {
    item.configAttrs.Some? && item.configAttrs.value != []
  }

  predicate HasConfigFile(item: Item, name: string) {
    HasConfigAttrs(item) && name in NamesOf(item.configAttrs.value)
  }

  function ConfigPath(item: Item): Path {
    item.configPath.GetOr([])
  }

  /** Names the gadget has for itself. */
  predicate Reserved(name: string) {
    name == "configs" || name == "UDC"
  }

  /** An item by itself: its attributes have distinct names, none of them "report_desc"; neither its directory nor, if
      that is the gadget's, a file of it has a reserved name; a link lies directly in the configuration's directory. */
  predicate TidyItem(item: Item) {
    && DistinctNames(item.attrs) && "report_desc" !in NamesOf(item.attrs)
    && (item.configAttrs.Some? ==> DistinctNames(item.configAttrs.value))
    && (if item.path == [] then !HasFile(item, "configs") && !HasFile(item, "UDC") else !Reserved(item.path[0]))
    && (item.configPath.Some? ==> item.configPath.value != [])
    && (Linkable(item) ==> |item.configPath.value| == 1)
  }

  /** Two items: their directories differ, none lies at or below a file of the other, and the same holds of what they
      have in the configuration; there no directory, link or removed path of one is at or below that of the other. */
  predicate Separate(a: Item, b: Item) {
    && a.path != b.path
    && !(|a.path| < |b.path| && a.path <= b.path && HasFile(a, b.path[|a.path|]))
    && (HasConfigAttrs(a) && HasConfigAttrs(b) ==> ConfigPath(a) != ConfigPath(b))
    && (b.configPath.Some? ==>
          && !(a.configPath.Some? && a.configPath.value <= b.configPath.value)
          && !(|ConfigPath(a)| < |b.configPath.value| && ConfigPath(a) <= b.configPath.value
               && HasConfigFile(a, b.configPath.value[|ConfigPath(a)|])))
  }

  /** The gadget lies in configfs, its configuration in its directory "configs", and the controller's driver elsewhere. */
  predicate TidyPaths(s: Setup) {
    && s.configFS < s.gadget && s.gadget < s.config && s.config[|s.gadget|] == "configs"
    && |s.configFS| <= |s.dwc3| && !(s.configFS <= s.dwc3)
  }

  predicate Tidy(s: Setup) {
    && TidyPaths(s)
    && (forall i :: 0 <= i < |s.items| ==> TidyItem(s.items[i]))
    && (forall i, j :: 0 <= i < |s.items| && 0 <= j < |s.items| && i != j ==> Separate(s.items[i], s.items[j]))
  }

  // ---------- places ----------

  predicate IsEnabled(s: Setup, item: Item) {
    item.key in s.enabled
  }

  predicate FunctionDir(s: Setup, item: Item, p: Path) {
    IsEnabled(s, item) && item.path != [] && p == s.gadget + item.path
  }

  predicate FunctionFile(s: Setup, item: Item, p: Path) {
    IsEnabled(s, item) && |p| > |s.gadget| && Parent(p) == s.gadget + item.path && HasFile(item, Base(p))
  }

  predicate ConfigItemDir(s: Setup, item: Item, p: Path) {
    IsEnabled(s, item) && HasConfigAttrs(item) && ConfigPath(item) != [] && p == s.config + ConfigPath(item)
  }

  predicate ConfigFile(s: Setup, item: Item, p: Path) {
    IsEnabled(s, item) && |p| > |s.config| && Parent(p) == s.config + ConfigPath(item) && HasConfigFile(item, Base(p))
  }

  predicate LinkPlace(s: Setup, item: Item, p: Path) {
    IsFunction(s, item) && p == s.config + item.configPath.value
  }

  predicate RemovedPlace(s: Setup, item: Item, p: Path) {
    !IsEnabled(s, item) && item.configPath.Some? && p == s.config + item.configPath.value
  }

  /** The paths of an item's unconditional changes. */
  predicate PlaceOf(s: Setup, item: Item, p: Path) {
    || FunctionDir(s, item, p) || FunctionFile(s, item, p)
    || ConfigItemDir(s, item, p) || ConfigFile(s, item, p) || RemovedPlace(s, item, p)
  }

  /** Below the gadget's directory, but not at a name it has for itself. */
  predicate InGadget(s: Setup, p: Path) {
    |p| > |s.gadget| && s.gadget <= p && !Reserved(p[|s.gadget|])
  }

  predicate InConfig(s: Setup, p: Path) {
    |p| > |s.config| && s.config <= p
  }

  lemma FunctionsInGadget(s: Setup, item: Item, p: Path)
    requires TidyPaths(s) && TidyItem(item) && (FunctionDir(s, item, p) || FunctionFile(s, item, p))
    ensures InGadget(s, p)
  {
    if FunctionFile(s, item, p) {
      assert p == Parent(p) + [Base(p)];
      assert item.path == [] ==> Parent(p) == s.gadget && p[|s.gadget|] == Base(p);
    }
  }

  lemma ConfigsInConfig(s: Setup, item: Item, p: Path)
    requires TidyPaths(s) && TidyItem(item)
    requires ConfigItemDir(s, item, p) || ConfigFile(s, item, p) || RemovedPlace(s, item, p) || LinkPlace(s, item, p)
    ensures InConfig(s, p)
  {
    if ConfigFile(s, item, p) {
      assert p == Parent(p) + [Base(p)];
    }
  }

  lemma ConfigIsNotGadget(s: Setup, p: Path)
    requires TidyPaths(s) && s.config <= p
    ensures |p| > |s.gadget| && p[|s.gadget|] == "configs" && !InGadget(s, p)
  {
    assert p[|s.gadget|] == s.config[|s.gadget|];
  }

  lemma Cancel(a: Path, x: Path, y: Path)
    requires a + x <= a + y
    ensures x <= y
  {
    assert (a + y)[..|a + x|] == a + x;
    assert x == (a + x)[|a|..] && y == (a + y)[|a|..];
    forall i | 0 <= i < |x|
      ensures x[i] == y[i]
    {
      assert x[i] == (a + x)[|a| + i] == (a + y)[|a| + i] == y[i];
    }
  }

  lemma FileBlocks(a: Path, x: Path, p: Path, y: Path)
    requires p != [] && Parent(p) == a + x && p <= a + y
    ensures |x| < |y| && x <= y && y[|x|] == Base(p)
  {
    assert p == a + (x + [Base(p)]);
    Cancel(a, x + [Base(p)], y);
    assert (x + [Base(p)])[|x|] == Base(p);
  }

  /** No directory of an item lies at or below a file of one. */
  lemma FileNotAboveDir(s: Setup, a: Item, b: Item, p: Path)
    requires Tidy(s) && a in s.items && b in s.items && FunctionFile(s, a, p)
    ensures !(p <= s.gadget + b.path)
  {
    var i :| 0 <= i < |s.items| && s.items[i] == a;
    var j :| 0 <= j < |s.items| && s.items[j] == b;
    if p <= s.gadget + b.path {
      FileBlocks(s.gadget, a.path, p, b.path);
    }
  }

  lemma ConfigFileNotAbove(s: Setup, a: Item, b: Item, p: Path)
    requires Tidy(s) && a in s.items && b in s.items && ConfigFile(s, a, p) && b.configPath.Some?
    ensures !(p <= s.config + b.configPath.value)
  {
    var i :| 0 <= i < |s.items| && s.items[i] == a;
    var j :| 0 <= j < |s.items| && s.items[j] == b;
    if p <= s.config + b.configPath.value {
      FileBlocks(s.config, ConfigPath(a), p, b.configPath.value);
    }
  }

  lemma ConfigPathsApart(s: Setup, i: nat, j: nat)
    requires Tidy(s) && i < |s.items| && j < |s.items| && i != j
    requires s.items[i].configPath.Some? && s.items[j].configPath.Some?
    ensures !(s.config + s.items[i].configPath.value <= s.config + s.items[j].configPath.value)
  {
    if s.config + s.items[i].configPath.value <= s.config + s.items[j].configPath.value {
      Cancel(s.config, s.items[i].configPath.value, s.items[j].configPath.value);
    }
  }

  /** Different items have different places in the gadget ... */
  lemma FunctionPlacesApart(s: Setup, i: nat, j: nat, p: Path)
    requires Tidy(s) && i < |s.items| && j < |s.items| && i != j
    requires FunctionDir(s, s.items[i], p) || FunctionFile(s, s.items[i], p)
    ensures !FunctionDir(s, s.items[j], p) && !FunctionFile(s, s.items[j], p)
  {
    var a, b := s.items[i], s.items[j];
    assert Separate(a, b) && Separate(b, a);
    if FunctionFile(s, a, p) {
      FileNotAboveDir(s, a, b, p);
    }
    if FunctionFile(s, b, p) {
      FileNotAboveDir(s, b, a, p);
    }
    if s.gadget + a.path == s.gadget + b.path {
      Cancel(s.gadget, a.path, b.path);
      Cancel(s.gadget, b.path, a.path);
    }
  }

  /** ... and in its configuration. */
  lemma ConfigPlacesApart(s: Setup, i: nat, j: nat, p: Path)
    requires Tidy(s) && i < |s.items| && j < |s.items| && i != j
    requires var a := s.items[i];
             ConfigItemDir(s, a, p) || ConfigFile(s, a, p) || RemovedPlace(s, a, p) || LinkPlace(s, a, p)
    ensures var b := s.items[j];
            !ConfigItemDir(s, b, p) && !ConfigFile(s, b, p) && !RemovedPlace(s, b, p) && !LinkPlace(s, b, p)
  {
    var a, b := s.items[i], s.items[j];
    assert Separate(a, b) && Separate(b, a);
    if a.configPath.Some? && b.configPath.Some? {
      ConfigPathsApart(s, i, j);
    }
    if ConfigFile(s, a, p) && b.configPath.Some? {
      ConfigFileNotAbove(s, a, b, p);
    }
    if ConfigFile(s, b, p) && a.configPath.Some? {
      ConfigFileNotAbove(s, b, a, p);
    }
    if s.config + ConfigPath(a) == s.config + ConfigPath(b) {
      Cancel(s.config, ConfigPath(a), ConfigPath(b));
      Cancel(s.config, ConfigPath(b), ConfigPath(a));
    }
  }

  lemma PlacesApart(s: Setup, i: nat, j: nat, p: Path)
    requires Tidy(s) && i < |s.items| && j < |s.items| && i != j && PlaceOf(s, s.items[i], p)
    ensures !PlaceOf(s, s.items[j], p)
  {
    var a, b := s.items[i], s.items[j];
    if FunctionDir(s, a, p) || FunctionFile(s, a, p) {
      FunctionPlacesApart(s, i, j, p);
      FunctionsInGadget(s, a, p);
      if PlaceOf(s, b, p) {
        ConfigsInConfig(s, b, p);
        ConfigIsNotGadget(s, p);
      }
    } else {
      ConfigPlacesApart(s, i, j, p);
      ConfigsInConfig(s, a, p);
      ConfigIsNotGadget(s, p);
      if FunctionDir(s, b, p) || FunctionFile(s, b, p) {
        FunctionsInGadget(s, b, p);
      }
    }
  }
}
