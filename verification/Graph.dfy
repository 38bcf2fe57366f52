/** The directed graph behind a change set: cycle detection and a topological order in which
    sources come before targets. Edges from a vertex to itself carry no order. */
module Graph {
  import opened Common

  datatype Graph<!K> = Graph(vertices: set<K>, edges: set<(K, K)>) {
    predicate Edge(a: K, b: K) {
      a != b && a in vertices && b in vertices && (a, b) in edges
    }
  }

  ghost predicate IsPath<K>(g: Graph<K>, p: seq<K>) {
    p != [] && forall i :: 0 <= i < |p| - 1 ==> g.Edge(p[i], p[i + 1])
  }

  ghost predicate IsCycle<K>(g: Graph<K>, p: seq<K>) {
    |p| >= 2 && IsPath(g, p) && p[0] == p[|p| - 1]
  }

  ghost predicate HasCycle<K(!new)>(g: Graph<K>) {
    exists p :: IsCycle(g, p)
  }

  /** Each vertex once, every edge forward. */
  ghost predicate IsOrder<K(!new)>(g: Graph<K>, order: seq<K>) {
    && (forall k :: k in order <==> k in g.vertices)
    && (forall i, j :: 0 <= i < j < |order| ==> order[i] != order[j])
    && (forall i, j :: 0 <= i < |order| && 0 <= j < |order| && g.Edge(order[i], order[j]) ==> i < j)
  }

  /** Sources before targets, for vertices named by their position in the order. */
  lemma OrderRespects<K(!new)>(g: Graph<K>, order: seq<K>, i: nat, j: nat)
    requires IsOrder(g, order) && i < |order| && j < |order| && g.Edge(order[i], order[j])
    ensures i < j
  {
  }

  lemma {:induction false} PathRises<K(!new)>(g: Graph<K>, p: seq<K>, rank: K -> int)
    requires IsPath(g, p) && forall a, b :: g.Edge(a, b) ==> rank(a) < rank(b)
    ensures |p| >= 2 ==> rank(p[0]) < rank(p[|p| - 1])
    decreases |p|
  {
    if |p| >= 2 {
      assert g.Edge(p[0], p[0 + 1]);
      var q := p[1..];
      forall i | 0 <= i < |q| - 1
        ensures g.Edge(q[i], q[i + 1])
      {
        assert g.Edge(p[i + 1], p[i + 1 + 1]);
      }
      PathRises(g, q, rank);
    }
  }

  /** A rank that rises along every edge excludes cycles. */
  lemma RankedIsAcyclic<K(!new)>(g: Graph<K>, rank: K -> int)
    requires forall a, b :: g.Edge(a, b) ==> rank(a) < rank(b)
    ensures !HasCycle(g)
  {
    forall p | IsCycle(g, p)
      ensures false
    {
      PathRises(g, p, rank);
    }
  }

  function IndexOf<K(==)>(order: seq<K>, k: K): int {
    if order == [] then -1 else if order[0] == k then 0
    else var i := IndexOf(order[1..], k); if i < 0 then -1 else i + 1
  }

  lemma {:induction false} IndexOfAt<K>(order: seq<K>, i: nat)
    requires i < |order| && forall a, b :: 0 <= a < b < |order| ==> order[a] != order[b]
    ensures IndexOf(order, order[i]) == i
    decreases i
  {
    if i > 0 {
      IndexOfAt(order[1..], i - 1);
    }
  }

  lemma OrderedIsAcyclic<K(!new)>(g: Graph<K>, order: seq<K>)
    requires IsOrder(g, order)
    ensures !HasCycle(g)
  {
    var rank := (k: K) => IndexOf(order, k);
    forall a, b | g.Edge(a, b)
      ensures rank(a) < rank(b)
    {
      var i :| 0 <= i < |order| && order[i] == a;
      var j :| 0 <= j < |order| && order[j] == b;
      IndexOfAt(order, i);
      IndexOfAt(order, j);
    }
    RankedIsAcyclic(g, rank);
  }

  // ---------- a set in which everything has a predecessor holds a cycle ----------

  /** A vertex of `rest` that no other vertex of `rest` points to. */
  predicate IsRoot<K(==)>(g: Graph<K>, rest: set<K>, v: K) {
    v in rest && forall a :: a in rest ==> !g.Edge(a, v)
  }

  ghost predicate Rootless<K(!new)>(g: Graph<K>, rest: set<K>) {
    forall b {:trigger IsRoot(g, rest, b)} :: !IsRoot(g, rest, b)
  }

  lemma SourceOf<K(!new)>(g: Graph<K>, rest: set<K>, b: K) returns (a: K)
    requires Rootless(g, rest) && b in rest
    ensures a in rest && g.Edge(a, b)
  {
    assert !IsRoot(g, rest, b);
    a :| a in rest && g.Edge(a, b);
  }

  lemma LongerPath<K(!new)>(g: Graph<K>, p: seq<K>, end: K)
    requires IsPath(g, p) && g.Edge(p[|p| - 1], end)
    ensures IsPath(g, p + [end])
  {
    var q := p + [end];
    forall i | 0 <= i < |q| - 1
      ensures g.Edge(q[i], q[i + 1])
    {
      if i < |p| - 1 {
        assert g.Edge(p[i], p[i + 1]);
      }
    }
  }

  lemma {:induction false} LongPath<K(!new)>(g: Graph<K>, rest: set<K>, end: K, n: nat) returns (p: seq<K>)
    requires Rootless(g, rest) && end in rest
    ensures |p| == n + 1 && IsPath(g, p) && p[n] == end && forall k :: k in p ==> k in rest
    decreases n
  {
    if n == 0 {
      p := [end];
    } else {
      var a := SourceOf(g, rest, end);
      var q := LongPath(g, rest, a, n - 1);
      LongerPath(g, q, end);
      p := q + [end];
    }
  }

  lemma SubPath<K(!new)>(g: Graph<K>, p: seq<K>, i: nat, j: nat)
    requires IsPath(g, p) && i < j < |p|
    ensures IsPath(g, p[i..j + 1])
  {
    var c := p[i..j + 1];
    forall k | 0 <= k < |c| - 1
      ensures g.Edge(c[k], c[k + 1])
    {
      assert g.Edge(p[i + k], p[i + k + 1]);
    }
  }

  lemma {:induction false} SomeRepeat<K(!new)>(p: seq<K>, rest: set<K>) returns (i: nat, j: nat)
    requires |p| > |rest| && forall k :: k in p ==> k in rest
    ensures i < j < |p| && p[i] == p[j]
    decreases |p|
  {
    var last := |p| - 1;
    if j' :| 0 <= j' < last && p[j'] == p[last] {
      i, j := j', last;
    } else {
      var q := p[..last];
      forall k | k in q
        ensures k in rest - {p[last]}
      {
        assert k in p;
        var m :| 0 <= m < |q| && q[m] == k;
        assert p[m] == k;
      }
      assert p[last] in p;
      assert |rest - {p[last]}| == |rest| - 1;
      i, j := SomeRepeat(q, rest - {p[last]});
    }
  }

  lemma RootlessHasCycle<K(!new)>(g: Graph<K>, rest: set<K>)
    requires Rootless(g, rest) && rest != {}
    ensures HasCycle(g)
  {
    var end :| end in rest;
    var p := LongPath(g, rest, end, |rest|);
    var i, j := SomeRepeat(p, rest);
    SubPath(g, p, i, j);
    assert IsCycle(g, p[i..j + 1]);
  }

  /** Orders the vertices, or reports that the graph has a cycle: exactly when it has one. */
  method TopologicalOrder<K(==, !new)>(g: Graph<K>) returns (order: Option<seq<K>>)
    ensures order.None? <==> HasCycle(g)
    ensures order.Some? ==> IsOrder(g, order.value)
  {
    var done, rest := [], g.vertices;
    while rest != {}
      invariant rest <= g.vertices
      invariant forall k :: k in done <==> k in g.vertices - rest
      invariant forall i, j :: 0 <= i < j < |done| ==> done[i] != done[j]
      invariant forall i, j :: 0 <= i < |done| && 0 <= j < |done| && g.Edge(done[i], done[j]) ==> i < j
      invariant forall i, b :: 0 <= i < |done| && b in rest ==> !g.Edge(b, done[i])
      decreases |rest|
    {
      if v :| v in rest && IsRoot(g, rest, v) {
        assert v !in done;
        ghost var before := done;
        done := done + [v];
        rest := rest - {v};
        assert forall k :: k in done <==> k in before || k == v;
      } else {
        RootlessHasCycle(g, rest);
        return None;
      }
    }
    OrderedIsAcyclic(g, done);
    return Some(done);
  }
}
