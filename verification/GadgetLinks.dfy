/** The links of a transaction: one for each enabled function, in item order; and the trees on which there is room. */
module GadgetLinks {
  import opened Common
  import opened Files
  import opened ChangeSet
  import opened Convergence
  import opened GadgetTx
  import opened GadgetOrder
  import opened GadgetPlan
  import opened Layout
  import opened TidyKeys
  import opened TidyChanges
  import opened TidyApply
  import opened TransactionSuccess

  function LinksOf(s: Setup, items: seq<Item>): seq<Symlink> {
    if items == [] then []
    else
      var item := items[|items| - 1];
      LinksOf(s, items[..|items| - 1]) +
      if IsFunction(s, item) then [Symlink(s.config + item.configPath.value, s.gadget + item.path)] else []
  }

  lemma {:induction false} DraftedLinksAre(s: Setup, items: seq<Item>)
    ensures AddItems(s, Opening(s), items).links == LinksOf(s, items)
    decreases |items|
  {
    if items != [] {
      var item, d := items[|items| - 1], AddItems(s, Opening(s), items[..|items| - 1]);
      DraftedLinksAre(s, items[..|items| - 1]);
      if IsEnabled(s, item) {
        AddFunctionKeepsCoreLinks(s, d, item);
      }
    }
  }

  lemma {:induction false} LinksOfFunctions(s: Setup, items: seq<Item>)
    ensures LinksOf(s, items) != [] <==> exists i :: 0 <= i < |items| && IsFunction(s, items[i])
    ensures forall l :: l in LinksOf(s, items) ==>
      exists i :: 0 <= i < |items| && IsFunction(s, items[i]) &&
        l == Symlink(s.config + items[i].configPath.value, s.gadget + items[i].path)
    decreases |items|
  {
    if items != [] {
      var n := |items| - 1;
      LinksOfFunctions(s, items[..n]);
      assert forall i :: 0 <= i < n ==> items[..n][i] == items[i];
    }
  }

  lemma {:induction false} LinkOf(s: Setup, items: seq<Item>, f: Item)
    requires f in items && IsFunction(s, f)
    ensures Symlink(s.config + f.configPath.value, s.gadget + f.path) in LinksOf(s, items)
    decreases |items|
  {
    if f in items[..|items| - 1] {
      LinkOf(s, items[..|items| - 1], f);
    }
  }

  lemma FunctionIsLinked(s: Setup, f: Item)
    requires f in s.items && IsFunction(s, f)
    ensures exists l :: l in Drafted(s).links && l.path == s.config + f.configPath.value
  {
    DraftedLinksAre(s, s.items);
    LinkOf(s, s.items, f);
  }

  /** A transaction has links exactly if some function is enabled. */
  lemma LinkedIff(s: Setup)
    ensures Drafted(s).links != [] <==> exists i :: 0 <= i < |s.items| && IsFunction(s, s.items[i])
  {
    DraftedLinksAre(s, s.items);
    LinksOfFunctions(s, s.items);
  }

  /** The enabled functions' names rise with their position. */
  predicate NamesRise(s: Setup, items: seq<Item>) {
    forall i, j :: 0 <= i < j < |items| && IsFunction(s, items[i]) && IsFunction(s, items[j]) ==>
      Less(Base(items[i].configPath.value), Base(items[j].configPath.value))
  }

  lemma SortedMore(links: seq<Symlink>, l: Symlink)
    ensures SortedByName(links + [l]) <==> SortedByName(links) && forall x :: x in links ==> Less(Base(x.path), Base(l.path))
  {
    var more := links + [l];
    if SortedByName(more) {
      assert forall i :: 0 <= i < |links| ==> more[i] == links[i] && Less(Base(more[i].path), Base(more[|links|].path));
    }
  }

  lemma {:induction false} LinkOfEach(s: Setup, items: seq<Item>, i: nat)
    requires i < |items| && IsFunction(s, items[i])
    ensures Symlink(s.config + items[i].configPath.value, s.gadget + items[i].path) in LinksOf(s, items)
    decreases |items|
  {
    var n := |items| - 1;
    if i < n {
      assert items[..n][i] == items[i];
      LinkOfEach(s, items[..n], i);
    }
  }

  lemma BaseOfLink(s: Setup, item: Item)
    requires Linkable(item) && item.configPath.value != []
    ensures Base(s.config + item.configPath.value) == Base(item.configPath.value)
  {
  }

  /** The last function's name rises above the others exactly if its link's does. */
  lemma LastRises(s: Setup, items: seq<Item>, last: Item)
    requires forall i :: 0 <= i < |items| && Linkable(items[i]) ==> items[i].configPath.value != []
    requires IsFunction(s, last) && last.configPath.value != []
    ensures (forall x :: x in LinksOf(s, items) ==> Less(Base(x.path), Base(s.config + last.configPath.value))) <==>
            forall i :: 0 <= i < |items| && IsFunction(s, items[i]) ==>
              Less(Base(items[i].configPath.value), Base(last.configPath.value))
  {
    LinksOfFunctions(s, items);
    BaseOfLink(s, last);
    forall i | 0 <= i < |items| && IsFunction(s, items[i])
      ensures Base(s.config + items[i].configPath.value) == Base(items[i].configPath.value)
      ensures Symlink(s.config + items[i].configPath.value, s.gadget + items[i].path) in LinksOf(s, items)
    {
      BaseOfLink(s, items[i]);
      LinkOfEach(s, items, i);
    }
  }

  lemma NamesRiseMore(s: Setup, rest: seq<Item>, last: Item)
    ensures NamesRise(s, rest + [last]) <==> NamesRise(s, rest) && (IsFunction(s, last) ==>
      forall i :: 0 <= i < |rest| && IsFunction(s, rest[i]) ==> Less(Base(rest[i].configPath.value), Base(last.configPath.value)))
  {
    var items := rest + [last];
    assert forall i :: 0 <= i < |rest| ==> items[i] == rest[i];
    assert items[|rest|] == last;
    if NamesRise(s, items) && IsFunction(s, last) {
      forall i | 0 <= i < |rest| && IsFunction(s, rest[i])
        ensures Less(Base(rest[i].configPath.value), Base(last.configPath.value))
      {
        assert IsFunction(s, items[i]) && IsFunction(s, items[|rest|]);
      }
    }
  }

  lemma LinksOfMore(s: Setup, rest: seq<Item>, last: Item)
    ensures LinksOf(s, rest + [last]) == if IsFunction(s, last)
      then LinksOf(s, rest) + [Symlink(s.config + last.configPath.value, s.gadget + last.path)] else LinksOf(s, rest)
  {
    assert (rest + [last])[..|rest|] == rest;
  }

  lemma {:induction false} SortedIffNamesRise(s: Setup, items: seq<Item>)
    requires forall i :: 0 <= i < |items| && Linkable(items[i]) ==> items[i].configPath.value != []
    ensures SortedByName(LinksOf(s, items)) <==> NamesRise(s, items)
    decreases |items|
  {
    if items != [] {
      var rest, last := items[..|items| - 1], items[|items| - 1];
      assert items == rest + [last];
      SortedIffNamesRise(s, rest);
      NamesRiseMore(s, rest, last);
      LinksOfMore(s, rest, last);
      if IsFunction(s, last) {
        SortedMore(LinksOf(s, rest), Symlink(s.config + last.configPath.value, s.gadget + last.path));
        LastRises(s, rest, last);
      }
    }
  }

  /** A transaction's links are in name order exactly if its functions' names are. */
  lemma LinksSortedIff(s: Setup)
    requires Tidy(s)
    ensures SortedByName(Drafted(s).links) <==> NamesRise(s, s.items)
  {
    DraftedLinksAre(s, s.items);
    SortedIffNamesRise(s, s.items);
  }

  // ---------- a fresh system ----------

  function Prefixes(p: Path): set<Path> {
    set i | 0 <= i <= |p| :: p[..i]
  }

  /** Configfs' mount point and the driver's directory, and nothing else. */
  function FreshTree(s: Setup): Tree {
    Tree(map p | p in Prefixes(s.configFS) + Prefixes(s.dwc3) :: Directory, {})
  }

  lemma PrefixesAre(p: Path, q: Path)
    ensures q in Prefixes(p) <==> q <= p
  {
    if q <= p {
      assert p[..|q|] == q;
    }
  }

  /** What lies in configfs, below its mount point, is not there yet. */
  lemma FreshInConfigFS(s: Setup, p: Path)
    requires TidyPaths(s) && s.configFS < p
    ensures NodeAt(FreshTree(s), p).None?
  {
    PrefixesAre(s.configFS, p);
    PrefixesAre(s.dwc3, p);
  }

  lemma PlacesInConfigFS(s: Setup, item: Item, p: Path)
    requires Tidy(s) && item in s.items && (PlaceOf(s, item, p) || LinkPlace(s, item, p))
    ensures s.configFS < p
  {
    if FunctionDir(s, item, p) || FunctionFile(s, item, p) {
      FunctionsInGadget(s, item, p);
    } else {
      ConfigsInConfig(s, item, p);
    }
  }

  lemma FreshFits(s: Setup, rebind: bool, c: Change)
    requires Tidy(s) && c in Committed(s, rebind)
    ensures KindFits(FreshTree(s), c)
  {
    var t := FreshTree(s);
    ChangeKinds(s, rebind, c);
    FreshInConfigFS(s, s.gadget + ["UDC"]);
    PrefixesAre(s.configFS, s.configFS);
    if c == ReorderChange(s, Drafted(s)) {
      forall l | l in Drafted(s).links
        ensures LinkOrNone(t, l.path)
      {
        var item := LinksHaveItems(s, l.path);
        PlacesInConfigFS(s, item, l.path);
        FreshInConfigFS(s, l.path);
      }
    } else if Sourced(s, c) && !FromOpening(s, c) && !c.goal.IsDirectory? {
      var item :| item in s.items && FromItem(s, item, c);
      PlacesInConfigFS(s, item, c.path);
      FreshInConfigFS(s, c.path);
    }
  }

  /** On a fresh system there is room for every ordinary gadget. */
  lemma FreshHasRoom(s: Setup, rebind: bool)
    requires Tidy(s)
    ensures HasRoom(s, rebind, FreshTree(s))
  {
    PrefixesAre(s.configFS, s.configFS);
    PrefixesAre(s.dwc3, s.dwc3);
    forall c | c in Committed(s, rebind)
      ensures KindFits(FreshTree(s), c)
    {
      FreshFits(s, rebind, c);
    }
  }
}
