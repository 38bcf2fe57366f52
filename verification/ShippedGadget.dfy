/** The gadget the program ships, with any of its functions enabled, is ordinary. */
module ShippedGadget {
  import opened Common
  import opened Files
  import opened ChangeSet
  import opened GadgetTx
  import opened GadgetOrder
  import opened GadgetPlan
  import opened Convergence
  import opened TransactionConvergence
  import opened Layout
  import opened TidyChanges
  import opened TransactionSuccess
  import opened GadgetLinks
  import opened UnlinkedWrites
  import opened FileContents
  import opened ConfiguredGadget
  import Symlinks

  /** The attributes of the items as listed by a transaction, in any order, and the report descriptors. Their contents may
      be configured and do not matter here. */
  datatype Values = Values(attrs: string -> Attrs, configAttrs: string -> Attrs, desc: string -> Content)

  const HID_NAMES: set<string> := {"protocol", "subclass", "report_length", "no_out_endpoint", "wakeup_on_write"}
  const BASE_NAMES: set<string> := {"bcdUSB", "idVendor", "idProduct", "bcdDevice"}
  const BASE_CONFIG_NAMES: set<string> := {"MaxPower", "bmAttributes"}
  const INFO_NAMES: set<string> := {"serialnumber", "manufacturer", "product"}
  const INFO_CONFIG_NAMES: set<string> := {"configuration"}
  const LUN_NAMES: set<string> := {"cdrom", "ro", "removable", "file", "inquiry_string"}
  const AUDIO_NAMES: set<string> :=
    {"p_chmask", "p_srate", "p_ssize", "p_volume_present", "c_chmask", "c_srate", "c_ssize", "c_volume_present"}

  function BaseItem(v: Values): Item {
    Item("base", "", [], None, v.attrs("base"), Some(v.configAttrs("base")), None)
  }

  function InfoItem(v: Values): Item {
    Item("base_info", "", ["strings", "0x409"], Some(["strings", "0x409"]), v.attrs("base_info"),
      Some(v.configAttrs("base_info")), None)
  }

  function LunItem(v: Values): Item {
    Item("mass_storage_lun0", "", ["functions", "mass_storage.usb0", "lun.0"], None, v.attrs("mass_storage_lun0"),
      None, None)
  }

  /** The functions in front of the disk's unit, and their keys. */
  const EARLY: seq<(string, string)> :=
    [("keyboard", "hid.usb0"), ("absolute_mouse", "hid.usb1"), ("relative_mouse", "hid.usb2"), ("gamepad0", "hid.usb3"),
     ("gamepad1", "hid.usb4"), ("gamepad2", "hid.usb5"), ("gamepad3", "hid.usb6"), ("mass_storage_base", "mass_storage.usb0")]

  const CONSOLE: (string, string) := ("serial_console", "acm.usb0")
  const AUDIO: (string, string) := ("audio", "uac1.usb0")

  /** All functions; the last two have the same rank, so either may come first. */
  function Functions(consoleFirst: bool): (r: seq<(string, string)>)
    ensures |r| == 10
  {
    EARLY + if consoleFirst then [CONSOLE, AUDIO] else [AUDIO, CONSOLE]
  }

  function NamesFor(name: string): set<string> {
    if name == "mass_storage.usb0" then {"stall"}
    else if name == "acm.usb0" then {}
    else if name == "uac1.usb0" then AUDIO_NAMES
    else HID_NAMES
  }

  function FunctionItem(v: Values, f: (string, string)): Item {
    Item(f.0, f.1, ["functions", f.1], Some([f.1]), v.attrs(f.0), None, if "hid." <= f.1 then Some(v.desc(f.0)) else None)
  }

  /** A listing of a table of attributes: each of its names once, in whatever order. */
  predicate Lists(attrs: Attrs, names: set<string>) {
    DistinctNames(attrs) && NamesOf(attrs) == names
  }

  predicate Listed(v: Values) {
    && Lists(v.attrs("base"), BASE_NAMES) && Lists(v.configAttrs("base"), BASE_CONFIG_NAMES)
    && Lists(v.attrs("base_info"), INFO_NAMES) && Lists(v.configAttrs("base_info"), INFO_CONFIG_NAMES)
    && Lists(v.attrs("mass_storage_lun0"), LUN_NAMES)
    && forall f :: f in Functions(true) ==> Lists(v.attrs(f.0), NamesFor(f.1))
  }

  /** The items in their order: two for the gadget itself, eight functions, the disk's unit, two functions. */
  function ItemAt(v: Values, consoleFirst: bool, i: nat): Item
    requires i < 13
  {
    if i == 0 then BaseItem(v)
    else if i == 1 then InfoItem(v)
    else if i == 10 then LunItem(v)
    else FunctionItem(v, Functions(consoleFirst)[if i < 10 then i - 2 else i - 3])
  }

  function Shipped(name: string, v: Values, consoleFirst: bool, enabled: set<string>, udc: Content): Setup {
    var gadget := ["sys", "kernel", "config", "usb_gadget", name];
    Setup(["sys", "kernel", "config"], gadget, gadget + ["configs", "c.1"],
      ["sys", "bus", "platform", "drivers", "dwc3"], udc,
      seq(13, i requires 0 <= i < 13 => ItemAt(v, consoleFirst, i)), enabled)
  }

  // ---------- the items are tidy ----------

  /** No attribute name is as long as "report_desc". */
  lemma NoneLikeReportDesc(name: string)
    ensures forall n :: n in NamesFor(name) ==> |n| != 11
    ensures forall n :: n in INFO_NAMES || n in LUN_NAMES ==> |n| != 11
  {
  }

  lemma FunctionIsTidy(v: Values, consoleFirst: bool, i: nat)
    requires Listed(v) && i < 10
    ensures TidyItem(FunctionItem(v, Functions(consoleFirst)[i]))
  {
    var f := Functions(consoleFirst)[i];
    assert f in Functions(true);
    NoneLikeReportDesc(f.1);
    assert |"report_desc"| == 11 && |"functions"| == 9 && |"configs"| == 7 && |"UDC"| == 3;
  }

  lemma StallIsNoUnit()
    ensures "lun.0" != "stall" && "lun.0" != "report_desc"
  {
    assert |"lun.0"| == 5 && |"report_desc"| == 11 && "stall"[0] != "lun.0"[0];
  }

  /** The disk's unit has its directory in that of the disk. */
  lemma NoFileForUnit(v: Values, consoleFirst: bool, i: nat)
    requires Listed(v) && i < 10 && Functions(consoleFirst)[i].1 == "mass_storage.usb0"
    ensures !HasFile(FunctionItem(v, Functions(consoleFirst)[i]), "lun.0")
  {
    var f := Functions(consoleFirst)[i];
    assert f in Functions(true) && NamesFor(f.1) == {"stall"};
    StallIsNoUnit();
  }

  /** None of the gadget's own attributes has the name of something else in its directory. */
  lemma BaseNamesFree()
    ensures "report_desc" !in BASE_NAMES && "configs" !in BASE_NAMES && "UDC" !in BASE_NAMES
    ensures "strings" !in BASE_NAMES && "functions" !in BASE_NAMES
  {
    assert forall n :: n in BASE_NAMES ==> |n| != 11 && |n| != 7 && |n| != 3 && n[0] != 'f';
    assert |"report_desc"| == 11 && |"configs"| == 7 && |"UDC"| == 3 && |"strings"| == 7 && "functions"[0] == 'f';
  }

  lemma OtherFilesOfBase(v: Values)
    requires Listed(v)
    ensures !HasFile(BaseItem(v), "configs") && !HasFile(BaseItem(v), "UDC")
    ensures !HasFile(BaseItem(v), "strings") && !HasFile(BaseItem(v), "functions")
  {
    BaseNamesFree();
    assert |"report_desc"| == 11 && |"configs"| == 7 && |"UDC"| == 3 && |"strings"| == 7 && |"functions"| == 9;
  }

  lemma BaseIsTidy(v: Values)
    requires Listed(v)
    ensures TidyItem(BaseItem(v))
  {
    BaseNamesFree();
    OtherFilesOfBase(v);
  }

  lemma InfoAndUnitAreTidy(v: Values)
    requires Listed(v)
    ensures TidyItem(InfoItem(v)) && TidyItem(LunItem(v))
  {
    NoneLikeReportDesc("");
    assert |"report_desc"| == 11 && |"configs"| == 7 && |"UDC"| == 3 && |"functions"| == 9 && "strings"[0] == 's';
  }

  // ---------- and apart ----------

  lemma FunctionsApart(v: Values, f: (string, string), g: (string, string))
    requires f.1 != g.1
    ensures Separate(FunctionItem(v, f), FunctionItem(v, g))
  {
    assert FunctionItem(v, f).path[1] != FunctionItem(v, g).path[1];
    assert [f.1][0] != [g.1][0];
  }

  lemma InfoAndFunction(v: Values, f: (string, string))
    requires f.1 != "strings"
    ensures Separate(InfoItem(v), FunctionItem(v, f)) && Separate(FunctionItem(v, f), InfoItem(v))
  {
    assert InfoItem(v).path[0] == "strings" && FunctionItem(v, f).path[0] == "functions";
    assert "strings"[0] != "functions"[0] && [f.1][0] != ["strings", "0x409"][0];
  }

  lemma InfoAndUnit(v: Values)
    ensures Separate(InfoItem(v), LunItem(v)) && Separate(LunItem(v), InfoItem(v))
  {
    assert InfoItem(v).path[0] == "strings" && LunItem(v).path[0] == "functions";
    assert "strings"[0] != "functions"[0];
  }

  /** The functions' names begin with letters of their own, which tells them from what else is in the configuration. */
  lemma FirstLetter(consoleFirst: bool, i: nat)
    requires i < 10
    ensures var name := Functions(consoleFirst)[i].1;
            name != "" && (name[0] == 'h' || name[0] == 'm' || name[0] == 'a' || name[0] == 'u')
    ensures Functions(consoleFirst)[i] == CONSOLE ==> Functions(consoleFirst)[i].1[0] == 'a'
    ensures Functions(consoleFirst)[i] == AUDIO ==> Functions(consoleFirst)[i].1[0] == 'u'
    ensures i < 8 ==> Functions(consoleFirst)[i].1[0] == 'h' || Functions(consoleFirst)[i].1[0] == 'm'
  {
  }

  lemma FunctionNamesApart(consoleFirst: bool, i: nat, j: nat)
    requires i < 10 && j < 10 && i != j
    ensures Functions(consoleFirst)[i].1 != Functions(consoleFirst)[j].1
    decreases if i < j then 0 else 1
  {
    if j < i {
      FunctionNamesApart(consoleFirst, j, i);
    } else if j < 8 {
      EarlyNamesRise(i, j);
      Symlinks.LessAsymmetric(EARLY[i].1, EARLY[j].1);
    } else {
      FirstLetter(consoleFirst, i);
      FirstLetter(consoleFirst, j);
    }
  }

  lemma FunctionNamesOwn(consoleFirst: bool, i: nat)
    requires i < 10
    ensures var name := Functions(consoleFirst)[i].1; name != "strings" && name != "MaxPower" && name != "bmAttributes"
  {
    FirstLetter(consoleFirst, i);
    assert "strings"[0] == 's' && "MaxPower"[0] == 'M' && "bmAttributes"[0] == 'b';
  }

  lemma ItemIsTidy(v: Values, consoleFirst: bool, i: nat)
    requires Listed(v) && i < 13
    ensures TidyItem(ItemAt(v, consoleFirst, i))
  {
    if i == 0 {
      BaseIsTidy(v);
    } else if i == 1 || i == 10 {
      InfoAndUnitAreTidy(v);
    } else {
      FunctionIsTidy(v, consoleFirst, FunctionIndex(i));
    }
  }

  function FunctionIndex(i: nat): nat
    requires 2 <= i < 13 && i != 10
    ensures FunctionIndex(i) < 10
  {
    if i < 10 then i - 2 else i - 3
  }

  lemma BaseAndFunction(v: Values, f: (string, string))
    requires Listed(v) && f.1 != "MaxPower" && f.1 != "bmAttributes"
    ensures Separate(BaseItem(v), FunctionItem(v, f)) && Separate(FunctionItem(v, f), BaseItem(v))
  {
    OtherFilesOfBase(v);
  }

  lemma BaseAndOthers(v: Values)
    requires Listed(v)
    ensures Separate(BaseItem(v), InfoItem(v)) && Separate(InfoItem(v), BaseItem(v))
    ensures Separate(BaseItem(v), LunItem(v)) && Separate(LunItem(v), BaseItem(v))
  {
    OtherFilesOfBase(v);
    assert "strings"[0] == 's' && "MaxPower"[0] == 'M' && "bmAttributes"[0] == 'b';
  }

  lemma FunctionAndUnit(v: Values, consoleFirst: bool, i: nat)
    requires Listed(v) && i < 10
    ensures var f := FunctionItem(v, Functions(consoleFirst)[i]); Separate(f, LunItem(v)) && Separate(LunItem(v), f)
  {
    var f := Functions(consoleFirst)[i];
    if f.1 == "mass_storage.usb0" {
      NoFileForUnit(v, consoleFirst, i);
    }
    assert FunctionItem(v, f).path[1] == f.1 && LunItem(v).path[1] == "mass_storage.usb0";
  }

  lemma FunctionApartFromAll(v: Values, consoleFirst: bool, i: nat, j: nat)
    requires Listed(v) && 2 <= i < 13 && i != 10 && j < 13 && i != j
    ensures var a, b := ItemAt(v, consoleFirst, i), ItemAt(v, consoleFirst, j); Separate(a, b) && Separate(b, a)
  {
    var k := FunctionIndex(i);
    var f := Functions(consoleFirst)[k];
    FunctionNamesOwn(consoleFirst, k);
    if j == 0 {
      BaseAndFunction(v, f);
    } else if j == 1 {
      InfoAndFunction(v, f);
    } else if j == 10 {
      FunctionAndUnit(v, consoleFirst, k);
    } else {
      var g := Functions(consoleFirst)[FunctionIndex(j)];
      FunctionNamesApart(consoleFirst, k, FunctionIndex(j));
      FunctionsApart(v, f, g);
      FunctionsApart(v, g, f);
    }
  }

  /** The gadget's own items and the disk's unit. */
  lemma OwnItemsAreSeparate(v: Values, consoleFirst: bool, i: nat, j: nat)
    requires Listed(v) && (i == 0 || i == 1 || i == 10) && (j == 0 || j == 1 || j == 10) && i != j
    ensures Separate(ItemAt(v, consoleFirst, i), ItemAt(v, consoleFirst, j))
  {
    InfoAndUnit(v);
    BaseAndOthers(v);
  }

  lemma ItemsAreSeparate(v: Values, consoleFirst: bool, i: nat, j: nat)
    requires Listed(v) && i < 13 && j < 13 && i != j
    ensures Separate(ItemAt(v, consoleFirst, i), ItemAt(v, consoleFirst, j))
  {
    if 2 <= i && i != 10 {
      FunctionApartFromAll(v, consoleFirst, i, j);
    } else if 2 <= j && j != 10 {
      FunctionApartFromAll(v, consoleFirst, j, i);
    } else {
      OwnItemsAreSeparate(v, consoleFirst, i, j);
    }
  }

  /** The shipped gadget is ordinary: under any name, with any attribute values listed in any order, with any of its
      functions enabled and for any controller. */
  lemma ShippedIsTidy(name: string, v: Values, consoleFirst: bool, enabled: set<string>, udc: Content)
    requires Listed(v)
    ensures Tidy(Shipped(name, v, consoleFirst, enabled, udc))
  {
    var s := Shipped(name, v, consoleFirst, enabled, udc);
    forall i | 0 <= i < |s.items|
      ensures TidyItem(s.items[i])
    {
      ItemIsTidy(v, consoleFirst, i);
    }
    forall i, j | 0 <= i < |s.items| && 0 <= j < |s.items| && i != j
      ensures Separate(s.items[i], s.items[j])
    {
      ItemsAreSeparate(v, consoleFirst, i, j);
    }
    ShippedPaths(name, v, consoleFirst, enabled, udc);
  }

  lemma ShippedPaths(name: string, v: Values, consoleFirst: bool, enabled: set<string>, udc: Content)
    ensures TidyPaths(Shipped(name, v, consoleFirst, enabled, udc))
  {
    var s := Shipped(name, v, consoleFirst, enabled, udc);
    assert s.configFS[1] == "kernel" && s.dwc3[1] == "bus" && |"kernel"| != |"bus"|;
  }

  lemma FunctionPosition(name: string, v: Values, consoleFirst: bool, enabled: set<string>, udc: Content, i: nat)
    requires i < 13
    ensures var s := Shipped(name, v, consoleFirst, enabled, udc);
            IsFunction(s, s.items[i]) ==>
              2 <= i && i != 10 && s.items[i].device == Functions(consoleFirst)[FunctionIndex(i)].1
  {
  }

  /** So its writes meet no links. */
  lemma ShippedOwnsDevices(name: string, v: Values, consoleFirst: bool, enabled: set<string>, udc: Content)
    ensures OwnDevices(Shipped(name, v, consoleFirst, enabled, udc))
  {
    var s := Shipped(name, v, consoleFirst, enabled, udc);
    forall f, g | f in s.items && g in s.items && IsFunction(s, f) && IsFunction(s, g) && f.device == g.device
      ensures f == g
    {
      var i :| 0 <= i < 13 && s.items[i] == f;
      var j :| 0 <= j < 13 && s.items[j] == g;
      FunctionPosition(name, v, consoleFirst, enabled, udc, i);
      FunctionPosition(name, v, consoleFirst, enabled, udc, j);
      if i != j {
        FunctionNamesApart(consoleFirst, FunctionIndex(i), FunctionIndex(j));
      }
    }
  }

  // ---------- its transactions ----------

  /** Whatever functions are enabled, as long as one is: on a fresh system every plan of the shipped gadget is carried
      out without error, leaves the gadget in the tree as its items describe it, and can be carried out again. */
  lemma ShippedOnFreshSystem(name: string, v: Values, consoleFirst: bool, enabled: set<string>, udc: Content,
                             rebind: bool, m: Maps, plan: seq<Change>)
    requires Listed(v)
    requires var s := Shipped(name, v, consoleFirst, enabled, udc);
             Planned(s, rebind, FreshTree(s), m, plan) && exists i :: 0 <= i < 13 && IsFunction(s, s.items[i])
    ensures var s := Shipped(name, v, consoleFirst, enabled, udc);
            var (t, ok) := ApplyPlan(FreshTree(s), plan);
            ok && LinksIn(t, s.config) == LinkMap(Drafted(s).links) && HasRoom(s, rebind, t) && Configured(s, rebind, t)
  {
    var s := Shipped(name, v, consoleFirst, enabled, udc);
    ShippedIsTidy(name, v, consoleFirst, enabled, udc);
    LinkedIff(s);
    FreshHasRoom(s, rebind);
    TidyTransaction(s, rebind, FreshTree(s), m, plan);
    LinkedIfFunction(s);
    TransactionConfigures(s, rebind, FreshTree(s), m, plan);
  }

  /** With the keyboard enabled: its link, its attributes and its report descriptor are where they belong, and the gadget
      is bound to the controller. */
  lemma ShippedKeyboard(name: string, v: Values, consoleFirst: bool, enabled: set<string>, udc: Content,
                        rebind: bool, m: Maps, plan: seq<Change>)
    requires Listed(v) && "keyboard" in enabled
    requires var s := Shipped(name, v, consoleFirst, enabled, udc); Planned(s, rebind, FreshTree(s), m, plan)
    ensures var (t, ok) := ApplyPlan(FreshTree(Shipped(name, v, consoleFirst, enabled, udc)), plan);
            var gadget := ["sys", "kernel", "config", "usb_gadget", name];
            var link, dir := gadget + ["configs", "c.1"] + ["hid.usb0"], gadget + ["functions", "hid.usb0"];
            && ok && ["sys", "kernel", "config"] in t.mounted && Matching(t, gadget + ["UDC"], udc)
            && link in t.nodes && t.nodes[link] == Link(dir)
            && Matching(t, dir + ["report_desc"], v.desc("keyboard")) && AttrsThere(t, dir, v.attrs("keyboard"))
            && (rebind ==> Holds(t, ["sys", "bus", "platform", "drivers", "dwc3"] + ["bind"], udc))
  {
    var s := Shipped(name, v, consoleFirst, enabled, udc);
    var f := KeyboardItem(name, v, consoleFirst, enabled, udc);
    ShippedOnFreshSystem(name, v, consoleFirst, enabled, udc, rebind, m, plan);
    FunctionOf(s, rebind, ApplyPlan(FreshTree(s), plan).0, f, "hid.usb0");
  }

  lemma KeyboardItem(name: string, v: Values, consoleFirst: bool, enabled: set<string>, udc: Content) returns (f: Item)
    requires "keyboard" in enabled
    ensures var s := Shipped(name, v, consoleFirst, enabled, udc);
            && f == s.items[2] && f in s.items && IsFunction(s, f)
            && f.path == ["functions", "hid.usb0"] && f.configPath == Some(["hid.usb0"])
            && f.attrs == v.attrs("keyboard") && f.reportDesc == Some(v.desc("keyboard"))
  {
    f := FunctionItem(v, EARLY[0]);
    assert "hid." <= "hid.usb0";
  }

  lemma {:induction false} LessBehind(p: string, a: string, b: string)
    ensures Less(p + a, p + b) <==> Less(a, b)
    decreases |p|
  {
    if p == "" {
      assert p + a == a && p + b == b;
    } else {
      assert (p + a)[1..] == p[1..] + a && (p + b)[1..] == p[1..] + b;
      LessBehind(p[1..], a, b);
    }
  }

  /** Name order against list order: all but the console are listed by name. */
  lemma EarlyNamesRise(i: nat, j: nat)
    requires i < j < 8
    ensures Less(EARLY[i].1, EARLY[j].1)
  {
    if j < 7 {
      var digits := ["0", "1", "2", "3", "4", "5", "6"];
      assert "hid.usb" + "0" == "hid.usb0" && "hid.usb" + "1" == "hid.usb1" && "hid.usb" + "2" == "hid.usb2";
      assert "hid.usb" + "3" == "hid.usb3" && "hid.usb" + "4" == "hid.usb4" && "hid.usb" + "5" == "hid.usb5";
      assert "hid.usb" + "6" == "hid.usb6";
      assert EARLY[i].1 == "hid.usb" + digits[i] && EARLY[j].1 == "hid.usb" + digits[j];
      assert digits[i][0] < digits[j][0];
      LessBehind("hid.usb", digits[i], digits[j]);
    } else {
      assert EARLY[i].1[0] == 'h' && EARLY[j].1[0] == 'm';
    }
  }

  lemma FunctionNamesRiseIff(consoleFirst: bool, i: nat, j: nat)
    requires i < j < 10
    ensures Less(Functions(consoleFirst)[i].1, Functions(consoleFirst)[j].1) <==> Functions(consoleFirst)[j] != CONSOLE
  {
    if j < 8 {
      EarlyNamesRise(i, j);
      assert EARLY[j].1[0] != CONSOLE.1[0];
    } else {
      var a, b := Functions(consoleFirst)[i].1, Functions(consoleFirst)[j].1;
      assert i < 8 ==> a == EARLY[i].1 && (a[0] == 'h' || a[0] == 'm');
      assert CONSOLE.1[0] == 'a' && AUDIO.1[0] == 'u';
    }
  }

  /** The serial console is enabled along with a function in front of it. */
  ghost predicate ConsoleBehindAnother(s: Setup)
    requires |s.items| == 13
  {
    exists i, j :: 0 <= i < j < 13 && IsFunction(s, s.items[i]) && IsFunction(s, s.items[j]) && s.items[j].key == CONSOLE.0
  }

  lemma ShippedFunction(name: string, v: Values, consoleFirst: bool, enabled: set<string>, udc: Content, i: nat)
    requires i < 13
    ensures var s := Shipped(name, v, consoleFirst, enabled, udc);
            IsFunction(s, s.items[i]) ==>
              && 2 <= i && i != 10
              && Base(s.items[i].configPath.value) == Functions(consoleFirst)[FunctionIndex(i)].1
              && s.items[i].key == Functions(consoleFirst)[FunctionIndex(i)].0
  {
  }

  lemma OnlyConsoleHasItsKey(consoleFirst: bool, i: nat)
    requires i < 10
    ensures Functions(consoleFirst)[i].0 == CONSOLE.0 <==> Functions(consoleFirst)[i] == CONSOLE
  {
    assert |CONSOLE.0| == 14 && |AUDIO.0| == 5;
    assert i < 8 ==> |EARLY[i].0| != 14 || EARLY[i].0[0] != CONSOLE.0[0];
  }

  /** The shipped gadget's links are in name order exactly if the serial console is not enabled along with a function
      in front of it. */
  lemma ShippedLinksSortedIff(name: string, v: Values, consoleFirst: bool, enabled: set<string>, udc: Content)
    requires Listed(v)
    ensures var s := Shipped(name, v, consoleFirst, enabled, udc);
            SortedByName(Drafted(s).links) <==> !ConsoleBehindAnother(s)
  {
    var s := Shipped(name, v, consoleFirst, enabled, udc);
    ShippedIsTidy(name, v, consoleFirst, enabled, udc);
    LinksSortedIff(s);
    forall i, j | 0 <= i < j < 13 && IsFunction(s, s.items[i]) && IsFunction(s, s.items[j])
      ensures Less(Base(s.items[i].configPath.value), Base(s.items[j].configPath.value)) <==> s.items[j].key != CONSOLE.0
    {
      ShippedFunction(name, v, consoleFirst, enabled, udc, i);
      ShippedFunction(name, v, consoleFirst, enabled, udc, j);
      FunctionNamesRiseIff(consoleFirst, FunctionIndex(i), FunctionIndex(j));
      OnlyConsoleHasItsKey(consoleFirst, FunctionIndex(j));
    }
  }

  /** Once configured, on whatever tree with room, the shipped gadget's links are removed and made anew by the next
      transaction exactly if the serial console is enabled along with a function in front of it. */
  lemma ShippedRelinksIff(name: string, v: Values, consoleFirst: bool, enabled: set<string>, udc: Content,
                          rebind: bool, t: Tree, m: Maps, plan: seq<Change>)
    requires Listed(v)
    requires var s := Shipped(name, v, consoleFirst, enabled, udc);
             && Planned(s, rebind, t, m, plan) && HasRoom(s, rebind, t)
             && exists i :: 0 <= i < 13 && IsFunction(s, s.items[i])
    ensures var s := Shipped(name, v, consoleFirst, enabled, udc);
            Acts(ApplyPlan(t, plan).0, ReorderChange(s, Drafted(s))) <==> ConsoleBehindAnother(s)
  {
    var s := Shipped(name, v, consoleFirst, enabled, udc);
    ShippedIsTidy(name, v, consoleFirst, enabled, udc);
    LinkedIff(s);
    TidyTransaction(s, rebind, t, m, plan);
    RoomHasNoLinks(s, rebind, t, m, plan, t);
    TidyLinksApart(s, rebind);
    TidyIsPeaceful(s, rebind);
    LinksSettleIffSorted(s, rebind, t, m, plan);
    ShippedLinksSortedIff(name, v, consoleFirst, enabled, udc);
  }
}
