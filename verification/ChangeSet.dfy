/** Change sets: requested changes by key, the conditional ones among them, and the plan they add up to. */
module ChangeSet {
  import opened Common
  import opened Files
  import Graph

  /** A change is known by its path unless it is given a name of its own. */
  datatype Key = PathKey(path: Path) | Named(name: string) | Disable(device: string)

  datatype Change = Change(
    key: Key,
    path: Path,
    goal: Goal,
    dependsOn: seq<Key>,
    beforeChange: Option<seq<Key>>,
    conditional: bool,
    ignoreErrors: bool)

  /** Requested state and content; the list of ordered symlinks is not content. */
  predicate SameGoal(a: Goal, b: Goal) {
    a == b || (a.LinksInOrder? && b.LinksInOrder?)
  }

  predicate IsSame(a: Change, b: Change) {
    a.path == b.path && SameGoal(a.goal, b.goal) && a.dependsOn == b.dependsOn && a.ignoreErrors == b.ignoreErrors
  }

  /** The unconditional and the conditional changes. */
  datatype Maps = Maps(base: map<Key, Change>, cond: map<Key, Change>)

  function AddChange(m: Maps, c: Change): Result<Maps, Key> {
    if c.conditional then Ok(m.(cond := m.cond[c.key := c]))
    else if c.key !in m.base then Ok(m.(base := m.base[c.key := c]))
    else if IsSame(m.base[c.key], c) then Ok(m)
    else Err(c.key)
  }

  function Collect(m: Maps, changes: seq<Change>): Result<Maps, Key>
    decreases |changes|
  {
    if changes == [] then Ok(m)
    else
      match AddChange(m, changes[0])
      case Err(k) => Err(k)
      case Ok(m') => Collect(m', changes[1..])
  }

  predicate MapsOf(m: Maps, changes: seq<Change>) {
    && (forall k :: k in m.base ==> m.base[k] in changes && m.base[k].key == k && !m.base[k].conditional)
    && (forall k :: k in m.cond ==> m.cond[k] in changes && m.cond[k].key == k && m.cond[k].conditional)
    && (forall c :: c in changes && !c.conditional ==> c.key in m.base && IsSame(m.base[c.key], c))
    && (forall c :: c in changes && c.conditional ==> c.key in m.cond)
  }

  lemma AddMaps(m: Maps, done: seq<Change>, c: Change)
    requires MapsOf(m, done) && AddChange(m, c).Ok?
    ensures MapsOf(AddChange(m, c).value, done + [c])
  {
    var more := done + [c];
    assert forall x :: x in more <==> x in done || x == c;
  }

  /** Collecting succeeds only when changes with the same key agree, and keeps every key. */
  lemma {:induction false} CollectMaps(m: Maps, done: seq<Change>, changes: seq<Change>)
    requires MapsOf(m, done) && Collect(m, changes).Ok?
    ensures MapsOf(Collect(m, changes).value, done + changes)
    decreases |changes|
  {
    if changes == [] {
      assert done + changes == done;
    } else {
      AddMaps(m, done, changes[0]);
      CollectMaps(AddChange(m, changes[0]).value, done + [changes[0]], changes[1..]);
    }
  }

  /** The same request: path, requested state, content, dependencies and whether errors are ignored. The changes to be
      made first, and the list of ordered links, are not compared. */
  predicate Agree(a: Change, b: Change) {
    && a.path == b.path && a.dependsOn == b.dependsOn && a.ignoreErrors == b.ignoreErrors
    && match a.goal
       case LinksInOrder(_) => b.goal.LinksInOrder?
       case g => b.goal == g
  }

  predicate Unclashing(changes: seq<Change>) {
    forall a, b :: a in changes && b in changes && !a.conditional && !b.conditional && a.key == b.key ==> Agree(a, b)
  }

  lemma AgreeIsSame(a: Change, b: Change)
    ensures IsSame(a, b) <==> Agree(a, b)
  {
  }

  lemma AgreeThrough(a: Change, b: Change, c: Change)
    requires Agree(a, b) && Agree(a, c)
    ensures Agree(b, c) && Agree(c, b)
  {
  }

  /** A change that is accepted agrees with all those before it. */
  lemma AcceptedAgrees(m: Maps, done: seq<Change>, c: Change)
    requires MapsOf(m, done) && Unclashing(done) && AddChange(m, c).Ok?
    ensures Unclashing(done + [c])
  {
    forall x | x in done && !x.conditional && !c.conditional && x.key == c.key
      ensures Agree(x, c) && Agree(c, x)
    {
      AgreeIsSame(m.base[c.key], x);
      AgreeIsSame(m.base[c.key], c);
      AgreeThrough(m.base[c.key], x, c);
    }
  }

  lemma RefusedClashes(m: Maps, done: seq<Change>, c: Change)
    requires MapsOf(m, done) && AddChange(m, c).Err?
    ensures !Unclashing(done + [c])
  {
    var x := m.base[c.key];
    AgreeIsSame(x, c);
    assert x in done + [c] && c in done + [c];
  }

  lemma {:induction false} CollectIf(m: Maps, done: seq<Change>, changes: seq<Change>)
    requires MapsOf(m, done) && Unclashing(done)
    ensures Collect(m, changes).Ok? <==> Unclashing(done + changes)
    decreases |changes|
  {
    if changes == [] {
      assert done + changes == done;
    } else {
      var c := changes[0];
      assert (done + [c]) + changes[1..] == done + changes;
      if AddChange(m, c).Ok? {
        AddMaps(m, done, c);
        AcceptedAgrees(m, done, c);
        CollectIf(AddChange(m, c).value, done + [c], changes[1..]);
      } else {
        RefusedClashes(m, done, c);
        ClashStays(done + [c], changes[1..]);
      }
    }
  }

  lemma ClashStays(a: seq<Change>, b: seq<Change>)
    requires !Unclashing(a)
    ensures !Unclashing(a + b)
  {
    assert forall x :: x in a ==> x in a + b;
  }

  /** A change set is accepted exactly if its unconditional changes with the same key ask for the same. */
  lemma AcceptedIff(changes: seq<Change>)
    ensures Collect(Maps(map[], map[]), changes).Ok? <==> Unclashing(changes)
  {
    CollectIf(Maps(map[], map[]), [], changes);
    assert [] + changes == changes;
  }

  /** The first unconditional change with the key. */
  ghost predicate FirstOf(changes: seq<Change>, k: Key, c: Change) {
    exists i :: 0 <= i < |changes| && changes[i] == c && !c.conditional && c.key == k &&
      forall j :: 0 <= j < i && !changes[j].conditional ==> changes[j].key != k
  }

  /** The last conditional change with the key. */
  ghost predicate LastOf(changes: seq<Change>, k: Key, c: Change) {
    exists i :: 0 <= i < |changes| && changes[i] == c && c.conditional && c.key == k &&
      forall j :: i < j < |changes| && changes[j].conditional ==> changes[j].key != k
  }

  ghost predicate FirstAndLast(m: Maps, changes: seq<Change>) {
    && (forall k :: k in m.base ==> FirstOf(changes, k, m.base[k]))
    && (forall k :: k in m.cond ==> LastOf(changes, k, m.cond[k]))
  }

  lemma FirstStays(changes: seq<Change>, c: Change, k: Key, first: Change)
    requires FirstOf(changes, k, first)
    ensures FirstOf(changes + [c], k, first)
  {
    var i :| 0 <= i < |changes| && changes[i] == first && !first.conditional && first.key == k &&
             forall j :: 0 <= j < i && !changes[j].conditional ==> changes[j].key != k;
    assert (changes + [c])[i] == first;
  }

  lemma LastStays(changes: seq<Change>, c: Change, k: Key, last: Change)
    requires LastOf(changes, k, last) && !(c.conditional && c.key == k)
    ensures LastOf(changes + [c], k, last)
  {
    var i :| 0 <= i < |changes| && changes[i] == last && last.conditional && last.key == k &&
             forall j :: i < j < |changes| && changes[j].conditional ==> changes[j].key != k;
    assert (changes + [c])[i] == last;
  }

  lemma AddIsFirstOrLast(m: Maps, done: seq<Change>, c: Change)
    requires MapsOf(m, done) && FirstAndLast(m, done) && AddChange(m, c).Ok?
    ensures FirstAndLast(AddChange(m, c).value, done + [c])
  {
    var m', more := AddChange(m, c).value, done + [c];
    assert more[|done|] == c;
    forall k | k in m'.base
      ensures FirstOf(more, k, m'.base[k])
    {
      if k in m.base {
        FirstStays(done, c, k, m.base[k]);
      } else {
        assert forall j :: 0 <= j < |done| ==> done[j] in done;
      }
    }
    forall k | k in m'.cond
      ensures LastOf(more, k, m'.cond[k])
    {
      if !(c.conditional && c.key == k) {
        LastStays(done, c, k, m.cond[k]);
      }
    }
  }

  lemma {:induction false} CollectIsFirstOrLast(m: Maps, done: seq<Change>, changes: seq<Change>)
    requires MapsOf(m, done) && FirstAndLast(m, done) && Collect(m, changes).Ok?
    ensures FirstAndLast(Collect(m, changes).value, done + changes)
    decreases |changes|
  {
    if changes == [] {
      assert done + changes == done;
    } else {
      var c := changes[0];
      assert (done + [c]) + changes[1..] == done + changes;
      AddMaps(m, done, c);
      AddIsFirstOrLast(m, done, c);
      CollectIsFirstOrLast(AddChange(m, c).value, done + [c], changes[1..]);
    }
  }

  /** Of unconditional changes with one key the first is kept, of conditional ones the last. */
  lemma CollectedAre(changes: seq<Change>)
    requires Collect(Maps(map[], map[]), changes).Ok?
    ensures FirstAndLast(Collect(Maps(map[], map[]), changes).value, changes)
  {
    CollectIsFirstOrLast(Maps(map[], map[]), [], changes);
    assert [] + changes == changes;
  }

  // ---------- the plan ----------

  predicate Acts(t: Tree, c: Change) {
    ActionFor(t, c.path, c.goal) != DoNothing
  }

  /** The change needs action now and names changes to be made first. */
  predicate Triggers(t: Tree, c: Change) {
    Acts(t, c) && c.beforeChange.Some?
  }

  function ToSet<T(==)>(s: seq<T>): set<T> {
    set x | x in s
  }

  function Wanted(t: Tree, c: Change): set<Key> {
    if Triggers(t, c) then ToSet(c.beforeChange.value) else {}
  }

  function Triggered(t: Tree, base: map<Key, Change>): set<Key> {
    set k, d | k in base && d in Wanted(t, base[k]) :: d
  }

  /** The unconditional changes and those conditional ones that a change needing action names. */
  function PlanMap(t: Tree, m: Maps): map<Key, Change>
    requires Triggered(t, m.base) <= m.cond.Keys
  {
    m.base + map d | d in Triggered(t, m.base) :: m.cond[d]
  }

  function PlanDeps(t: Tree, base: map<Key, Change>): map<Key, set<Key>> {
    map k | k in base :: Wanted(t, base[k])
  }

  /** Everything that has to come before the change with key k. */
  function Before(m: map<Key, Change>, deps: map<Key, set<Key>>, k: Key): set<Key>
    requires k in m
  {
    ToSet(m[k].dependsOn) + if k in deps then deps[k] else {}
  }

  function EdgesOf(m: map<Key, Change>, deps: map<Key, set<Key>>, keys: set<Key>): set<(Key, Key)>
    requires keys <= m.Keys
  {
    set k, d | k in keys && d in Before(m, deps, k) :: (d, k)
  }

  function PlanGraph(t: Tree, m: Maps): Graph.Graph<Key>
    requires Triggered(t, m.base) <= m.cond.Keys
  {
    var all := PlanMap(t, m);
    Graph.Graph(all.Keys, EdgesOf(all, PlanDeps(t, m.base), all.Keys))
  }

  /** b depends on a, or b needs action and names a to be made first. */
  predicate MustPrecede(t: Tree, m: Maps, a: Change, b: Change) {
    a.key != b.key && (a.key in b.dependsOn || (b.key in m.base && a.key in Wanted(t, m.base[b.key])))
  }

  /** A plan: each change once, after every present change it depends on and after every change it triggers. */
  ghost predicate IsPlan(t: Tree, m: Maps, plan: seq<Change>)
    requires Triggered(t, m.base) <= m.cond.Keys
  {
    && (forall c :: c in plan <==> c.key in PlanMap(t, m) && PlanMap(t, m)[c.key] == c)
    && (forall i, j :: 0 <= i < j < |plan| ==> plan[i].key != plan[j].key)
    && (forall i, j :: 0 <= i < |plan| && 0 <= j < |plan| && MustPrecede(t, m, plan[i], plan[j]) ==> i < j)
  }

  /** A graph with these vertices and the edges into them added. */
  function GraphWith(g: Graph.Graph<Key>, m: map<Key, Change>, deps: map<Key, set<Key>>, keys: set<Key>): Graph.Graph<Key>
    requires keys <= m.Keys
  {
    Graph.Graph(g.vertices + keys, g.edges + EdgesOf(m, deps, keys))
  }

  lemma OneMoreVertex(g: Graph.Graph<Key>, m: map<Key, Change>, deps: map<Key, set<Key>>, keys: set<Key>, key: Key)
    requires keys <= m.Keys && key in m
    ensures var g' := GraphWith(g, m, deps, keys);
            GraphWith(g, m, deps, keys + {key}) == Graph.Graph(g'.vertices + {key}, g'.edges + EdgesInto(m, deps, key))
  {
    EdgesOfOneMore(m, deps, keys, key);
    UnionAssoc(g.vertices, keys, {key});
    UnionAssoc(g.edges, EdgesOf(m, deps, keys), EdgesInto(m, deps, key));
  }

  // ---------- the resolver ----------

  datatype Failure = DuplicateChange(key: Key) | CyclesDetected | DependencyNotFound(key: Key)

  class ChangeSetResolver {
    /** The file tree, which planning only reads. */
    const tree: Tree
    var changesMap: map<Key, Change>
    var conditionalChangesMap: map<Key, Change>
    var resolvedDeps: map<Key, set<Key>>
    var g: Graph.Graph<Key>
    var orderedChanges: seq<Key>
    var resolvedChanges: seq<Change>
    var additionalResolveRequired: bool
    ghost var passes: nat

    constructor (tree: Tree)
      ensures this.tree == tree && g == Graph.Graph({}, {}) && resolvedDeps == map[] && passes == 0
      ensures !additionalResolveRequired
    {
      this.tree := tree;
      changesMap, conditionalChangesMap, resolvedDeps := map[], map[], map[];
      g := Graph.Graph({}, {});
      orderedChanges, resolvedChanges := [], [];
      additionalResolveRequired, passes := false, 0;
    }

    /** Adds the current changes and their dependencies to the graph. */
    method AddToGraph()
      modifies this`g
      ensures g == Graph.Graph(old(g).vertices + changesMap.Keys,
                               old(g).edges + EdgesOf(changesMap, resolvedDeps, changesMap.Keys))
    {
      var todo := changesMap.Keys;
      ghost var done: set<Key> := {};
      while todo != {}
        invariant todo <= changesMap.Keys && done == changesMap.Keys - todo
        invariant g == GraphWith(old(g), changesMap, resolvedDeps, done)
        decreases |todo|
      {
        var key :| key in todo;
        OneMoreVertex(old(g), changesMap, resolvedDeps, done, key);
        g := Graph.Graph(g.vertices + {key}, g.edges + EdgesInto(changesMap, resolvedDeps, key));
        todo := todo - {key};
        done := done + {key};
      }
      assert done == changesMap.Keys;
    }

    method ToOrderedChanges() returns (ok: bool)
      modifies this`g, this`orderedChanges
      ensures g == Graph.Graph(old(g).vertices + changesMap.Keys,
                               old(g).edges + EdgesOf(changesMap, resolvedDeps, changesMap.Keys))
      ensures ok <==> !Graph.HasCycle(g)
      ensures ok ==> Graph.IsOrder(g, orderedChanges)
    {
      AddToGraph();
      var order := Graph.TopologicalOrder(g);
      ok := order.Some?;
      if ok {
        orderedChanges := order.value;
      }
    }

    /** A change that needs action pulls in the conditional changes it names and is to wait for them. */
    method AddTriggered(key: Key, deps: seq<Key>) returns (missing: Option<Key>)
      modifies this`changesMap, this`resolvedDeps, this`additionalResolveRequired
      ensures additionalResolveRequired
      ensures resolvedDeps == old(resolvedDeps)[key := DepsAt(old(resolvedDeps), key) + ToSet(deps)]
      ensures missing.None? ==> ToSet(deps) <= conditionalChangesMap.Keys &&
                                changesMap == old(changesMap) + Chosen(conditionalChangesMap, ToSet(deps))
      ensures missing.Some? ==> missing.value in deps && missing.value !in conditionalChangesMap
    {
      resolvedDeps := resolvedDeps[key := (if key in resolvedDeps then resolvedDeps[key] else {}) + ToSet(deps)];
      additionalResolveRequired := true;
      var i := 0;
      while i < |deps|
        invariant additionalResolveRequired
        invariant resolvedDeps == old(resolvedDeps)[key := DepsAt(old(resolvedDeps), key) + ToSet(deps)]
        invariant 0 <= i <= |deps| && ToSet(deps[..i]) <= conditionalChangesMap.Keys
        invariant changesMap == old(changesMap) + Chosen(conditionalChangesMap, ToSet(deps[..i]))
      {
        if deps[i] !in conditionalChangesMap {
          return Some(deps[i]);
        }
        ChosenOneMore(old(changesMap), conditionalChangesMap, deps, i);
        changesMap := changesMap[deps[i] := conditionalChangesMap[deps[i]]];
        i := i + 1;
      }
      assert deps[..i] == deps;
      return None;
    }

    /** Resolves one change: it joins the plan, and in the first pass may pull in others. */
    method ResolveChange(initial: bool, key: Key) returns (missing: Option<Key>)
      modifies this`changesMap, this`resolvedDeps, this`additionalResolveRequired, this`resolvedChanges
      ensures resolvedChanges == old(resolvedChanges) + if key in old(changesMap) then [old(changesMap)[key]] else []
      ensures var acts := initial && key in old(changesMap) && Triggers(tree, old(changesMap)[key]);
              if !acts then
                missing.None? && changesMap == old(changesMap) && resolvedDeps == old(resolvedDeps)
                && additionalResolveRequired == old(additionalResolveRequired)
              else
                var deps := old(changesMap)[key].beforeChange.value;
                && additionalResolveRequired
                && resolvedDeps == old(resolvedDeps)[key := DepsAt(old(resolvedDeps), key) + ToSet(deps)]
                && (missing.None? ==> ToSet(deps) <= conditionalChangesMap.Keys &&
                                      changesMap == old(changesMap) + Chosen(conditionalChangesMap, ToSet(deps)))
                && (missing.Some? ==> missing.value in deps && missing.value !in conditionalChangesMap)
    {
      if key !in changesMap {
        return None;
      }
      var change := changesMap[key];
      var resolvedAction := ActionFor(tree, change.path, change.goal);
      resolvedChanges := resolvedChanges + [change];
      if resolvedAction == DoNothing || !initial || change.beforeChange.None? {
        return None;
      }
      missing := AddTriggered(key, change.beforeChange.value);
    }

    /** One pass over the ordered changes, the second kind: nothing is triggered. */
    method DoResolveAgain()
      modifies this`changesMap, this`resolvedDeps, this`additionalResolveRequired, this`resolvedChanges, this`passes
      ensures passes == old(passes) + 1 && changesMap == old(changesMap)
      ensures resolvedChanges == Picks(changesMap, orderedChanges)
    {
      passes := passes + 1;
      resolvedChanges := [];
      var i := 0;
      while i < |orderedChanges|
        invariant 0 <= i <= |orderedChanges| && passes == old(passes) + 1
        invariant changesMap == old(changesMap) && resolvedChanges == Picks(changesMap, orderedChanges[..i])
      {
        assert orderedChanges[..i + 1][..i] == orderedChanges[..i];
        var _ := ResolveChange(false, orderedChanges[i]);
        i := i + 1;
      }
      assert orderedChanges[..i] == orderedChanges;
    }

    /** The state of the first pass after some of the ordered keys, as long as no key is both conditional
        and unconditional. */
    ghost predicate FirstPass(base: map<Key, Change>, done: seq<Key>)
      reads this
    {
      && TriggeredBy(tree, base, done) <= conditionalChangesMap.Keys
      && changesMap == base + Chosen(conditionalChangesMap, TriggeredBy(tree, base, done))
      && resolvedDeps == DepsBy(tree, base, done)
      && resolvedChanges == Picks(base, done)
      && (additionalResolveRequired <==> resolvedDeps != map[])
    }

    method FirstPassStep(ghost base: map<Key, Change>, ghost done: seq<Key>, key: Key) returns (missing: Option<Key>)
      requires base.Keys !! conditionalChangesMap.Keys ==> FirstPass(base, done)
      modifies this`changesMap, this`resolvedDeps, this`additionalResolveRequired, this`resolvedChanges
      ensures base.Keys !! conditionalChangesMap.Keys && key in base ==>
        (if missing.None? then FirstPass(base, done + [key])
         else missing.value in Wanted(tree, base[key]) && missing.value !in conditionalChangesMap)
    {
      ghost var before, triggered := changesMap, TriggeredBy(tree, base, done);
      assert (done + [key])[..|done|] == done;
      missing := ResolveChange(true, key);
      if base.Keys !! conditionalChangesMap.Keys && key in base && missing.None? && Triggers(tree, base[key]) {
        ChosenUnion(base, conditionalChangesMap, triggered, Wanted(tree, base[key]));
      }
    }

    /** The first pass over the ordered changes. */
    method DoResolveFirst() returns (missing: Option<Key>)
      requires resolvedDeps == map[] && !additionalResolveRequired
      requires forall k :: k in orderedChanges ==> k in changesMap
      modifies this`changesMap, this`resolvedDeps, this`additionalResolveRequired, this`resolvedChanges, this`passes
      ensures passes == old(passes) + 1
      ensures old(changesMap).Keys !! conditionalChangesMap.Keys ==>
        var base := old(changesMap);
        if missing.None? then FirstPass(base, orderedChanges)
        else missing.value in TriggeredBy(tree, base, orderedChanges) && missing.value !in conditionalChangesMap
    {
      passes := passes + 1;
      resolvedChanges := [];
      ghost var base := changesMap;
      assert base + Chosen(conditionalChangesMap, {}) == base;
      var i := 0;
      while i < |orderedChanges|
        invariant 0 <= i <= |orderedChanges| && passes == old(passes) + 1
        invariant base.Keys !! conditionalChangesMap.Keys ==> FirstPass(base, orderedChanges[..i])
      {
        missing := FirstPassStep(base, orderedChanges[..i], orderedChanges[i]);
        assert orderedChanges[..i] + [orderedChanges[i]] == orderedChanges[..i + 1];
        if missing.Some? {
          TriggeredIn(tree, base, orderedChanges, i);
          return;
        }
        i := i + 1;
      }
      assert orderedChanges[..i] == orderedChanges;
      return None;
    }

    /** Sorts the requested changes into unconditional and conditional ones. */
    method BuildMaps(changes: seq<Change>) returns (r: Result<Maps, Key>)
      ensures r == Collect(Maps(map[], map[]), changes)
    {
      var maps := Maps(map[], map[]);
      var i := 0;
      while i < |changes|
        invariant 0 <= i <= |changes| && Collect(Maps(map[], map[]), changes) == Collect(maps, changes[i..])
      {
        var added := AddChange(maps, changes[i]);
        if added.Err? {
          return added;
        }
        maps := added.value;
        i := i + 1;
      }
      return Ok(maps);
    }

    /** The first round: order the unconditional changes and see what they trigger. */
    method FirstRound(ghost m: Maps) returns (r: Option<Failure>)
      requires g == Graph.Graph({}, {}) && resolvedDeps == map[] && passes == 0 && !additionalResolveRequired
      requires changesMap == m.base && conditionalChangesMap == m.cond
      modifies this
      ensures passes <= 1 && conditionalChangesMap == m.cond
      ensures r.Some? && m.base.Keys !! m.cond.Keys ==> Explains(tree, m, r.value)
      ensures r.Some? ==> !r.value.DuplicateChange?
      ensures r.None? && m.base.Keys !! m.cond.Keys ==> AfterFirstRound(m)
    {
      var ok := ToOrderedChanges();
      assert g == Graph.Graph(m.base.Keys, EdgesOf(m.base, map[], m.base.Keys));
      if !ok {
        FirstCycleIsPlanCycle(tree, m, g);
        return Some(CyclesDetected);
      }
      r := ResolveOrdered(m);
    }

    method ResolveOrdered(ghost m: Maps) returns (r: Option<Failure>)
      requires g == Graph.Graph(m.base.Keys, EdgesOf(m.base, map[], m.base.Keys)) && Graph.IsOrder(g, orderedChanges)
      requires resolvedDeps == map[] && passes == 0 && !additionalResolveRequired
      requires changesMap == m.base && conditionalChangesMap == m.cond
      modifies this`changesMap, this`resolvedDeps, this`additionalResolveRequired, this`resolvedChanges, this`passes
      ensures passes <= 1
      ensures r.Some? && m.base.Keys !! m.cond.Keys ==> Explains(tree, m, r.value)
      ensures r.Some? ==> !r.value.DuplicateChange?
      ensures r.None? && m.base.Keys !! m.cond.Keys ==> AfterFirstRound(m)
    {
      TriggeredByAll(tree, m.base, orderedChanges);
      DepsByEach(tree, m.base, orderedChanges);
      assert ToSet(orderedChanges) == m.base.Keys;
      var missing := DoResolveFirst();
      if missing.Some? {
        return Some(DependencyNotFound(missing.value));
      }
      return None;
    }

    ghost predicate AfterFirstRound(m: Maps)
      reads this
    {
      && Triggered(tree, m.base) <= m.cond.Keys && changesMap == PlanMap(tree, m)
      && g == Graph.Graph(m.base.Keys, EdgesOf(m.base, map[], m.base.Keys)) && Graph.IsOrder(g, orderedChanges)
      && resolvedChanges == Picks(m.base, orderedChanges)
      && resolvedDeps.Keys <= m.base.Keys
      && (forall k :: k in m.base ==> DepsAt(resolvedDeps, k) == Wanted(tree, m.base[k]))
      && (!additionalResolveRequired ==> forall k :: k in m.base ==> !Triggers(tree, m.base[k]))
    }

    /** Orders and resolves the changes, a second and last time if something was triggered. */
    method ResolveChanges(ghost m: Maps) returns (r: Option<Failure>)
      requires g == Graph.Graph({}, {}) && resolvedDeps == map[] && passes == 0 && !additionalResolveRequired
      requires changesMap == m.base && conditionalChangesMap == m.cond && KeysAgree(m)
      modifies this
      ensures passes <= 2
      ensures r.Some? ==> !r.value.DuplicateChange?
      ensures m.base.Keys !! m.cond.Keys ==>
        if r.Some? then Explains(tree, m, r.value)
        else Triggered(tree, m.base) <= m.cond.Keys && IsPlan(tree, m, resolvedChanges)
    {
      r := FirstRound(m);
      if r.Some? {
        return;
      }
      ghost var apart := m.base.Keys !! m.cond.Keys;
      if !additionalResolveRequired {
        if apart {
          UntriggeredPlan(tree, m);
          OrderGivesPlan(tree, m, orderedChanges);
        }
        return;
      }
      if apart {
        SecondGraphIsPlan(tree, m, resolvedDeps);
      }
      var ok := ToOrderedChanges();
      if !ok {
        return Some(CyclesDetected);
      }
      DoResolveAgain();
      if apart {
        OrderGivesPlan(tree, m, orderedChanges);
      }
    }

    /** The plan for a list of requested changes, or what is wrong with the list. */
    method GetChanges(changes: seq<Change>) returns (r: Result<seq<Change>, Failure>)
      requires g == Graph.Graph({}, {}) && resolvedDeps == map[] && passes == 0 && !additionalResolveRequired
      modifies this
      ensures passes <= 2
      ensures Answers(tree, Collect(Maps(map[], map[]), changes), r)
    {
      var maps := BuildMaps(changes);
      if maps.Err? {
        return Err(DuplicateChange(maps.error));
      }
      CollectMaps(Maps(map[], map[]), [], changes);
      changesMap := maps.value.base;
      conditionalChangesMap := maps.value.cond;
      var failure := ResolveChanges(maps.value);
      if failure.Some? {
        return Err(failure.value);
      }
      return Ok(resolvedChanges);
    }
  }

  /** A failure is what it says: a cycle of the plan's graph, or a triggered change that was not requested. */
  ghost predicate Explains(t: Tree, m: Maps, f: Failure) {
    match f
    case DuplicateChange(_) => false
    case CyclesDetected => Triggered(t, m.base) <= m.cond.Keys ==> Graph.HasCycle(PlanGraph(t, m))
    case DependencyNotFound(k) => k in Triggered(t, m.base) && k !in m.cond
  }

  /** The resolver's answer to a collected change set: two different changes with one key are refused; otherwise,
      when no key is both conditional and unconditional, the answer is a plan or the reason why there is none. */
  ghost predicate Answers(t: Tree, collected: Result<Maps, Key>, r: Result<seq<Change>, Failure>) {
    match collected
    case Err(k) => r == Err(DuplicateChange(k))
    case Ok(m) =>
      && (r.Err? ==> !r.error.DuplicateChange?)
      && (m.base.Keys !! m.cond.Keys ==>
            if r.Err? then Explains(t, m, r.error)
            else Triggered(t, m.base) <= m.cond.Keys && IsPlan(t, m, r.value))
  }

  lemma FirstCycleIsPlanCycle(t: Tree, m: Maps, g: Graph.Graph<Key>)
    requires g == Graph.Graph(m.base.Keys, EdgesOf(m.base, map[], m.base.Keys)) && Graph.HasCycle(g)
    ensures m.base.Keys !! m.cond.Keys ==> Explains(t, m, CyclesDetected)
  {
    if m.base.Keys !! m.cond.Keys && Triggered(t, m.base) <= m.cond.Keys {
      CyclesGrow(g, PlanGraph(t, m));
    }
  }

  /** A plan can only be made when nothing requested is missing and the plan's graph has no cycle. */
  lemma PlanExcludesFailure(t: Tree, m: Maps, plan: seq<Change>)
    requires Triggered(t, m.base) <= m.cond.Keys && IsPlan(t, m, plan) && KeysAgree(m)
    ensures !Graph.HasCycle(PlanGraph(t, m))
  {
    var graph, keys := PlanGraph(t, m), Keys(plan);
    KeysOfPlan(t, m, plan);
    forall i, j | 0 <= i < |keys| && 0 <= j < |keys| && graph.Edge(keys[i], keys[j])
      ensures i < j
    {
      EdgeInPlan(t, m, plan, i, j);
    }
    Graph.OrderedIsAcyclic(graph, keys);
  }

  lemma KeysOfPlan(t: Tree, m: Maps, plan: seq<Change>)
    requires Triggered(t, m.base) <= m.cond.Keys && IsPlan(t, m, plan) && KeysAgree(m)
    ensures forall k :: k in Keys(plan) <==> k in PlanMap(t, m)
  {
    var keys, all := Keys(plan), PlanMap(t, m);
    forall k
      ensures k in keys <==> k in all
    {
      if k in keys {
        var i :| 0 <= i < |keys| && keys[i] == k;
        assert plan[i] in plan;
      }
      if k in all {
        PlanKeysAgree(t, m);
        var i :| 0 <= i < |plan| && plan[i] == all[k];
        assert keys[i] == k;
      }
    }
  }

  /** An edge of the plan's graph is an order the plan keeps. */
  lemma EdgeInPlan(t: Tree, m: Maps, plan: seq<Change>, i: nat, j: nat)
    requires Triggered(t, m.base) <= m.cond.Keys && IsPlan(t, m, plan)
    requires i < |plan| && j < |plan| && PlanGraph(t, m).Edge(plan[i].key, plan[j].key)
    ensures i < j
  {
    assert plan[i] in plan && plan[j] in plan;
    assert MustPrecede(t, m, plan[i], plan[j]);
  }

  function Keys(plan: seq<Change>): (r: seq<Key>)
    ensures |r| == |plan| && forall i :: 0 <= i < |plan| ==> r[i] == plan[i].key
  {
    seq(|plan|, i requires 0 <= i < |plan| => plan[i].key)
  }

  /** Both maps file every change under its own key. */
  predicate KeysAgree(m: Maps) {
    (forall k :: k in m.base ==> m.base[k].key == k) && (forall k :: k in m.cond ==> m.cond[k].key == k)
  }

  // ---------- from the passes to the plan ----------

  lemma {:induction false} TriggeredByAll(t: Tree, base: map<Key, Change>, keys: seq<Key>)
    requires forall k :: k in keys ==> k in base
    ensures TriggeredBy(t, base, keys) == set k, d | k in ToSet(keys) && d in Wanted(t, base[k]) :: d
    decreases |keys|
  {
    if keys != [] {
      var n := |keys| - 1;
      assert forall k :: k in keys <==> k in keys[..n] || k == keys[n];
      TriggeredByAll(t, base, keys[..n]);
    }
  }

  lemma {:induction false} DepsByEach(t: Tree, base: map<Key, Change>, keys: seq<Key>)
    requires forall k :: k in keys ==> k in base
    requires forall i, j :: 0 <= i < j < |keys| ==> keys[i] != keys[j]
    ensures forall k :: k in DepsBy(t, base, keys) <==> k in keys && Triggers(t, base[k])
    ensures forall k :: k in keys ==> DepsAt(DepsBy(t, base, keys), k) == Wanted(t, base[k])
    decreases |keys|
  {
    if keys != [] {
      var n := |keys| - 1;
      var rest := keys[..n];
      assert forall k :: k in keys <==> k in rest || k == keys[n];
      assert keys[n] !in rest;
      DepsByEach(t, base, rest);
    }
  }

  lemma {:induction false} PicksAll(m: map<Key, Change>, keys: seq<Key>)
    requires forall k :: k in keys ==> k in m
    ensures |Picks(m, keys)| == |keys| && forall i :: 0 <= i < |keys| ==> Picks(m, keys)[i] == m[keys[i]]
    decreases |keys|
  {
    if keys != [] {
      var n := |keys| - 1;
      assert forall k :: k in keys[..n] ==> k in keys;
      PicksAll(m, keys[..n]);
    }
  }

  /** More edges and vertices keep every cycle. */
  lemma CyclesGrow(a: Graph.Graph<Key>, b: Graph.Graph<Key>)
    requires a.vertices <= b.vertices && a.edges <= b.edges && Graph.HasCycle(a)
    ensures Graph.HasCycle(b)
  {
    var p :| Graph.IsCycle(a, p);
    forall i | 0 <= i < |p| - 1
      ensures b.Edge(p[i], p[i + 1])
    {
      assert a.Edge(p[i], p[i + 1]);
    }
    assert Graph.IsCycle(b, p);
  }

  /** What the second pass's graph holds is the plan's graph. */
  lemma SecondGraphIsPlan(t: Tree, m: Maps, deps: map<Key, set<Key>>)
    requires m.base.Keys !! m.cond.Keys && Triggered(t, m.base) <= m.cond.Keys
    requires deps.Keys <= m.base.Keys && forall k :: k in m.base ==> DepsAt(deps, k) == Wanted(t, m.base[k])
    ensures var all := PlanMap(t, m);
            && m.base.Keys + all.Keys == all.Keys
            && EdgesOf(m.base, map[], m.base.Keys) + EdgesOf(all, deps, all.Keys) == PlanGraph(t, m).edges
  {
    var all := PlanMap(t, m);
    forall k | k in all
      ensures Before(all, deps, k) == Before(all, PlanDeps(t, m.base), k)
    {
    }
    assert EdgesOf(all, deps, all.Keys) == PlanGraph(t, m).edges;
  }

  /** With nothing triggered the first pass's graph already is the plan's. */
  lemma UntriggeredPlan(t: Tree, m: Maps)
    requires forall k :: k in m.base ==> !Triggers(t, m.base[k])
    ensures Triggered(t, m.base) == {} && PlanMap(t, m) == m.base
    ensures EdgesOf(m.base, map[], m.base.Keys) == PlanGraph(t, m).edges
  {
    assert Triggered(t, m.base) == {};
    assert PlanMap(t, m) == m.base;
    forall k | k in m.base
      ensures Before(m.base, map[], k) == Before(m.base, PlanDeps(t, m.base), k)
    {
    }
  }

  lemma PickedIff(all: map<Key, Change>, order: seq<Key>, plan: seq<Change>, c: Change)
    requires forall k :: k in order <==> k in all
    requires forall k :: k in all ==> all[k].key == k
    requires |plan| == |order| && forall i :: 0 <= i < |plan| ==> order[i] in all && plan[i] == all[order[i]]
    ensures c in plan <==> c.key in all && all[c.key] == c
  {
    if c in plan {
      var i :| 0 <= i < |plan| && plan[i] == c;
      assert order[i] in order;
    }
    if c.key in all && all[c.key] == c {
      var i :| 0 <= i < |order| && order[i] == c.key;
      assert plan[i] == c;
    }
  }

  lemma OrderContents(all: map<Key, Change>, order: seq<Key>)
    requires forall k :: k in order <==> k in all
    requires forall i, j :: 0 <= i < j < |order| ==> order[i] != order[j]
    requires forall k :: k in all ==> all[k].key == k
    ensures var plan := Picks(all, order);
            && |plan| == |order| && (forall i :: 0 <= i < |plan| ==> plan[i] == all[order[i]] && plan[i].key == order[i])
            && (forall c :: c in plan <==> c.key in all && all[c.key] == c)
  {
    var plan := Picks(all, order);
    PicksAll(all, order);
    forall c
      ensures c in plan <==> c.key in all && all[c.key] == c
    {
      PickedIff(all, order, plan, c);
    }
  }

  lemma OrderedBefore(t: Tree, m: Maps, order: seq<Key>, i: nat, j: nat)
    requires Triggered(t, m.base) <= m.cond.Keys && Graph.IsOrder(PlanGraph(t, m), order) && KeysAgree(m)
    requires i < |order| && j < |order| && order[i] in PlanMap(t, m) && order[j] in PlanMap(t, m)
    requires MustPrecede(t, m, PlanMap(t, m)[order[i]], PlanMap(t, m)[order[j]])
    ensures i < j
  {
    assert order[i] in Before(PlanMap(t, m), PlanDeps(t, m.base), order[j]);
    assert (order[i], order[j]) in PlanGraph(t, m).edges;
    Graph.OrderRespects(PlanGraph(t, m), order, i, j);
  }

  lemma PickedInOrder(t: Tree, m: Maps, order: seq<Key>, plan: seq<Change>)
    requires Triggered(t, m.base) <= m.cond.Keys && Graph.IsOrder(PlanGraph(t, m), order) && KeysAgree(m)
    requires |plan| == |order|
    requires forall i :: 0 <= i < |plan| ==> order[i] in PlanMap(t, m) && plan[i] == PlanMap(t, m)[order[i]]
    ensures forall i, j :: 0 <= i < |plan| && 0 <= j < |plan| && MustPrecede(t, m, plan[i], plan[j]) ==> i < j
  {
    forall i, j | 0 <= i < |plan| && 0 <= j < |plan| && MustPrecede(t, m, plan[i], plan[j])
      ensures i < j
    {
      OrderedBefore(t, m, order, i, j);
    }
  }

  lemma PlanKeysAgree(t: Tree, m: Maps)
    requires Triggered(t, m.base) <= m.cond.Keys && KeysAgree(m)
    ensures forall k :: k in PlanMap(t, m) ==> PlanMap(t, m)[k].key == k
  {
  }

  lemma OrderIsPlan(t: Tree, m: Maps, order: seq<Key>, plan: seq<Change>)
    requires Triggered(t, m.base) <= m.cond.Keys && Graph.IsOrder(PlanGraph(t, m), order) && KeysAgree(m)
    requires |plan| == |order| && forall c :: c in plan <==> c.key in PlanMap(t, m) && PlanMap(t, m)[c.key] == c
    requires forall i :: 0 <= i < |plan| ==>
      order[i] in PlanMap(t, m) && plan[i] == PlanMap(t, m)[order[i]] && plan[i].key == order[i]
    ensures IsPlan(t, m, plan)
  {
    PickedInOrder(t, m, order, plan);
  }

  /** Picking the changes along an order of the plan's graph gives a plan. */
  lemma OrderGivesPlan(t: Tree, m: Maps, order: seq<Key>)
    requires Triggered(t, m.base) <= m.cond.Keys && Graph.IsOrder(PlanGraph(t, m), order) && KeysAgree(m)
    ensures IsPlan(t, m, Picks(PlanMap(t, m), order))
  {
    PlanKeysAgree(t, m);
    OrderContents(PlanMap(t, m), order);
    OrderIsPlan(t, m, order, Picks(PlanMap(t, m), order));
  }

  lemma ChosenUnion(base: map<Key, Change>, cond: map<Key, Change>, a: set<Key>, b: set<Key>)
    requires a <= cond.Keys && b <= cond.Keys
    ensures (base + Chosen(cond, a)) + Chosen(cond, b) == base + Chosen(cond, a + b)
  {
  }

  lemma {:induction false} TriggeredIn(t: Tree, base: map<Key, Change>, keys: seq<Key>, i: nat)
    requires i < |keys| && keys[i] in base
    ensures Wanted(t, base[keys[i]]) <= TriggeredBy(t, base, keys)
    decreases |keys|
  {
    var n := |keys| - 1;
    if i < n {
      assert keys[..n][i] == keys[i];
      TriggeredIn(t, base, keys[..n], i);
    }
  }

  function DepsAt(deps: map<Key, set<Key>>, key: Key): set<Key> {
    if key in deps then deps[key] else {}
  }

  function Chosen(cond: map<Key, Change>, keys: set<Key>): map<Key, Change>
    requires keys <= cond.Keys
  {
    map d | d in keys :: cond[d]
  }

  lemma ChosenOneMore(m: map<Key, Change>, cond: map<Key, Change>, deps: seq<Key>, i: nat)
    requires i < |deps| && ToSet(deps[..i]) <= cond.Keys && deps[i] in cond
    ensures ToSet(deps[..i + 1]) == ToSet(deps[..i]) + {deps[i]}
    ensures m + Chosen(cond, ToSet(deps[..i + 1])) == (m + Chosen(cond, ToSet(deps[..i])))[deps[i] := cond[deps[i]]]
  {
    assert deps[..i + 1] == deps[..i] + [deps[i]];
  }

  /** What the changes with these keys trigger. */
  function TriggeredBy(t: Tree, base: map<Key, Change>, keys: seq<Key>): set<Key> {
    if keys == [] then {}
    else
      var n := |keys| - 1;
      TriggeredBy(t, base, keys[..n]) + if keys[n] in base then Wanted(t, base[keys[n]]) else {}
  }

  function DepsBy(t: Tree, base: map<Key, Change>, keys: seq<Key>): map<Key, set<Key>> {
    if keys == [] then map[]
    else
      var n := |keys| - 1;
      var before := DepsBy(t, base, keys[..n]);
      if keys[n] in base && Triggers(t, base[keys[n]])
      then before[keys[n] := DepsAt(before, keys[n]) + ToSet(base[keys[n]].beforeChange.value)]
      else before
  }

  function Picks(m: map<Key, Change>, keys: seq<Key>): seq<Change> {
    if keys == [] then []
    else
      var n := |keys| - 1;
      Picks(m, keys[..n]) + if keys[n] in m then [m[keys[n]]] else []
  }

  lemma UnionAssoc<T>(a: set<T>, b: set<T>, c: set<T>)
    ensures (a + b) + c == a + (b + c)
  {
  }

  function EdgesInto(m: map<Key, Change>, deps: map<Key, set<Key>>, key: Key): set<(Key, Key)>
    requires key in m
  {
    set d | d in Before(m, deps, key) :: (d, key)
  }

  lemma EdgesOfOneMore(m: map<Key, Change>, deps: map<Key, set<Key>>, keys: set<Key>, key: Key)
    requires keys <= m.Keys && key in m
    ensures EdgesOf(m, deps, keys + {key}) == EdgesOf(m, deps, keys) + EdgesInto(m, deps, key)
  {
  }

  /** A conditional change is in the plan exactly when a change that needs action names it. */
  lemma ConditionalIffNamed(t: Tree, m: Maps, plan: seq<Change>, d: Key)
    requires Triggered(t, m.base) <= m.cond.Keys && IsPlan(t, m, plan) && KeysAgree(m)
    requires d in m.cond && d !in m.base
    ensures m.cond[d] in plan <==>
            exists k :: k in m.base && Acts(t, m.base[k]) && m.base[k].beforeChange.Some? && d in m.base[k].beforeChange.value
  {
    if m.cond[d] in plan {
      assert d in Triggered(t, m.base);
      var k :| k in m.base && d in Wanted(t, m.base[k]);
    }
    if k :| k in m.base && Acts(t, m.base[k]) && m.base[k].beforeChange.Some? && d in m.base[k].beforeChange.value {
      assert d in Wanted(t, m.base[k]);
      assert d in Triggered(t, m.base);
    }
  }

  // ---------- applying a plan ----------

  /** Each change in turn; a failure ends the run unless the change ignores errors. */
  function ApplyPlan(t: Tree, plan: seq<Change>): (Tree, bool)
    decreases |plan|
  {
    if plan == [] then (t, true)
    else
      var (t', ok) := Apply(t, plan[0].path, plan[0].goal);
      if ok || plan[0].ignoreErrors then ApplyPlan(t', plan[1..]) else (t', false)
  }

  method ApplyChanges(t: Tree, plan: seq<Change>) returns (tree: Tree, ok: bool)
    ensures (tree, ok) == ApplyPlan(t, plan)
  {
    tree, ok := t, true;
    var i := 0;
    while i < |plan|
      invariant 0 <= i <= |plan| && ok && ApplyPlan(t, plan) == ApplyPlan(tree, plan[i..])
    {
      assert plan[i..][0] == plan[i] && plan[i..][1..] == plan[i + 1..];
      var action := ActionFor(tree, plan[i].path, plan[i].goal);
      var (next, done) := Perform(tree, plan[i].path, plan[i].goal, action);
      tree := next;
      if !done && !plan[i].ignoreErrors {
        return tree, false;
      }
      i := i + 1;
    }
  }

  lemma {:induction false} ApplyPlanSplit(t: Tree, a: seq<Change>, b: seq<Change>)
    requires ApplyPlan(t, a + b).1
    ensures ApplyPlan(t, a).1 && ApplyPlan(t, a + b) == ApplyPlan(ApplyPlan(t, a).0, b)
    decreases |a|
  {
    if a == [] {
      assert a + b == b;
    } else {
      assert (a + b)[1..] == a[1..] + b;
      ApplyPlanSplit(Apply(t, a[0].path, a[0].goal).0, a[1..], b);
    }
  }
}
