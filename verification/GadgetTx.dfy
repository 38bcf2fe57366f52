/** The USB gadget transaction: the change set it builds for configfs from the configuration items. */
module GadgetTx {
  import opened Common
  import opened Files
  import opened ChangeSet
  import Graph

  type Attrs = seq<(string, Content)>

  datatype Item = Item(
    key: string,
    device: string,
    path: Path,
    configPath: Option<Path>,
    attrs: Attrs,
    configAttrs: Option<Attrs>,
    reportDesc: Option<Content>)

  /** What a transaction is built from: the paths, the controller's name, the items in their order, and the
      keys of the enabled ones. Attributes are written in the order given, which may be any. */
  datatype Setup = Setup(
    configFS: Path, gadget: Path, config: Path, dwc3: Path, udc: Content, items: seq<Item>, enabled: set<string>)

  /** The item is a function that is linked into the configuration. */
  predicate Linkable(item: Item) {
    item.configPath.Some? && item.configAttrs.None?
  }

  function DisableKeys(s: Setup, items: seq<Item>): seq<Key> {
    if items == [] then []
    else
      var rest := DisableKeys(s, items[..|items| - 1]);
      var item := items[|items| - 1];
      if item.key in s.enabled && Linkable(item) then rest + [Disable(item.device)] else rest
  }

  const REORDER: Key := Named("reorder-symlinks")
  const UDC: Key := Named("udc")

  /** The transaction under construction: its changes, the keys later items wait for, the symlinks of the
      configuration and the keys these wait for. */
  datatype Draft = Draft(changes: seq<Change>, deps: seq<Key>, links: seq<Symlink>, linkDeps: seq<Key>)

  function Add(d: Draft, c: Change): Draft {
    d.(changes := d.changes + [c])
  }

  function MakeDir(path: Path, deps: seq<Key>): Change {
    Change(PathKey(path), path, IsDirectory, deps, None, false, false)
  }

  function AttrChange(base: Path, name: string, value: Content, before: seq<Key>): Change {
    Change(PathKey(base + [name]), base + [name], ContentMatch(value), [PathKey(base)], Some(before), false,
      name == "wakeup_on_write")
  }

  /** Adds one change per attribute, and their keys to what later changes wait for. */
  function AddAttrs(d: Draft, base: Path, attrs: Attrs, before: seq<Key>): Draft
    decreases |attrs|
  {
    if attrs == [] then d
    else
      var n := |attrs| - 1;
      var d' := AddAttrs(d, base, attrs[..n], before);
      Add(d', AttrChange(base, attrs[n].0, attrs[n].1, before)).(deps := d'.deps + [PathKey(base + [attrs[n].0])])
  }

  function AddDir(d: Draft, path: Path): Draft {
    Add(d, MakeDir(path, d.deps)).(deps := d.deps + [PathKey(path)])
  }

  function ReportDescChange(dir: Path, item: Item, deps: seq<Key>, before: seq<Key>): Change {
    var path := dir + ["report_desc"];
    Change(PathKey(path), path,
      if item.reportDesc.Some? then ContentMatch(item.reportDesc.value) else Absent,
      deps, Some(before), false, false)
  }

  function UnlinkChange(s: Setup, item: Item): Change
    requires Linkable(item)
  {
    Change(Disable(item.device), s.config + item.configPath.value, Absent, [], None, true, false)
  }

  function BeforeOf(s: Setup, item: Item): seq<Key> {
    if Linkable(item) then DisableKeys(s, s.items) else []
  }

  /** The item's directory, attributes and report descriptor. */
  function AddFunction(s: Setup, d: Draft, item: Item): Draft {
    var dir := s.gadget + item.path;
    var d1 := if dir != s.gadget then AddDir(d, dir) else d;
    var d2 := AddAttrs(d1, dir, item.attrs, BeforeOf(s, item));
    Add(d2, ReportDescChange(dir, item, d2.deps, BeforeOf(s, item))).(deps := d2.deps + [PathKey(dir + ["report_desc"])])
  }

  /** The item's configuration attributes, if it has any. */
  function AddConfig(s: Setup, d: Draft, item: Item): Draft {
    if item.configAttrs.None? || item.configAttrs.value == [] then d
    else
      var dir := s.config + item.configPath.GetOr([]);
      var d1 := if dir != s.config then AddDir(d, dir) else d;
      AddAttrs(d1, dir, item.configAttrs.value, BeforeOf(s, item))
  }

  /** The item's symlink: its conditional removal, and its place among the ordered symlinks. */
  function AddLink(s: Setup, d: Draft, item: Item): Draft {
    if !Linkable(item) then d
    else
      Add(d, UnlinkChange(s, item)).(
        links := d.links + [Symlink(s.config + item.configPath.value, s.gadget + item.path)],
        linkDeps := d.linkDeps + d.deps)
  }

  function AddItem(s: Setup, d: Draft, item: Item): Draft {
    if item.key in s.enabled then AddLink(s, AddConfig(s, AddFunction(s, d, item), item), item)
    else if item.configPath.Some? then
      var path := s.config + item.configPath.value;
      Add(d, Change(PathKey(path), path, Absent, [], None, false, false))
    else d
  }

  function AddItems(s: Setup, d: Draft, items: seq<Item>): Draft
    decreases |items|
  {
    if items == [] then d else AddItem(s, AddItems(s, d, items[..|items| - 1]), items[|items| - 1])
  }

  /** Mounting configfs and the two directories everything is built in. */
  function Opening(s: Setup): Draft {
    Draft([Change(PathKey(s.configFS), s.configFS, MountedConfigFS, [], None, false, false),
           MakeDir(s.config, [PathKey(s.configFS)]),
           MakeDir(s.gadget, [PathKey(s.config)])],
      [PathKey(s.gadget)], [], [])
  }

  function Drafted(s: Setup): Draft {
    AddItems(s, Opening(s), s.items)
  }

  function ReorderChange(s: Setup, d: Draft): Change {
    Change(REORDER, s.config, LinksInOrder(d.links), d.linkDeps, None, false, false)
  }

  function UdcChange(s: Setup): Change {
    Change(UDC, s.gadget + ["UDC"], ContentMatch(s.udc), [REORDER], None, false, false)
  }

  function UnbindChange(s: Setup, ignore: bool): Change {
    Change(PathKey(s.dwc3 + ["unbind"]), s.dwc3 + ["unbind"], FileWrite(s.udc), [UDC], None, false, ignore)
  }

  function BindChange(s: Setup): Change {
    Change(PathKey(s.dwc3 + ["bind"]), s.dwc3 + ["bind"], FileWrite(s.udc), [PathKey(s.dwc3 + ["unbind"])], None, false, false)
  }

  /** What follows the items' changes; the reorder change is added last of all, on commit. */
  function Closing(s: Setup, rebind: bool): seq<Change> {
    [UdcChange(s)] + (if rebind then [UnbindChange(s, true), BindChange(s)] else []) + [ReorderChange(s, Drafted(s))]
  }

  /** The change set a committed transaction hands to the resolver. */
  function Committed(s: Setup, rebind: bool): seq<Change> {
    Drafted(s).changes + Closing(s, rebind)
  }

  /** The maps of the transaction's change set, which a proof meets only where it asks for MapsOf of it. */
  ghost predicate Filed(s: Setup, rebind: bool, m: Maps) {
    forall changes {:trigger MapsOf(m, changes)} :: changes == Committed(s, rebind) ==> MapsOf(m, changes)
  }
}
