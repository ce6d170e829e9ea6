/** Directed graphs, cycles and topological orders.
    This is the reference the cycle check, the two sorts and the inliner are measured against. */
module Graphs {
  datatype Edge<V> = Edge(source: V, target: V)

  /** Nodes in declaration order; parallel edges and self-loops are allowed. */
  datatype Graph<V> = Graph(nodes: seq<V>, edges: seq<Edge<V>>)

  ghost predicate Distinct<T(!new)>(s: seq<T>) {
    forall i, j :: 0 <= i < j < |s| ==> s[i] != s[j]
  }

  ghost predicate WellFormed<V(!new)>(g: Graph<V>) {
    && Distinct(g.nodes)
    && forall e :: e in g.edges ==> e.source in g.nodes && e.target in g.nodes
  }

  ghost predicate HasEdge<V(!new)>(g: Graph<V>, u: V, v: V) {
    Edge(u, v) in g.edges
  }

  /** Consecutive members of p are joined by edges. */
  ghost predicate IsWalk<V(!new)>(g: Graph<V>, p: seq<V>) {
    forall i :: 0 <= i < |p| - 1 ==> HasEdge(g, p[i], p[i + 1])
  }

  /** No closed walk: the graph has no cycle, self-loops included. */
  ghost predicate Acyclic<V(!new)>(g: Graph<V>) {
    forall p: seq<V> :: IsWalk(g, p) && |p| >= 2 ==> p[0] != p[|p| - 1]
  }

  ghost predicate Permutation<V(!new)>(s: seq<V>, t: seq<V>) {
    && Distinct(s) && |s| == |t|
    && forall v :: v in s <==> v in t
  }

  /** Every node once, every edge pointing forward. */
  ghost predicate TopologicalOrder<V(!new)>(g: Graph<V>, order: seq<V>) {
    && Permutation(order, g.nodes)
    && forall i, j :: 0 <= i < |order| && 0 <= j < |order| && HasEdge(g, order[i], order[j]) ==> i < j
  }

  ghost function Elements<V>(s: seq<V>): (r: set<V>) {
    set v | v in s
  }

  lemma {:induction false} DistinctSize<V(!new)>(s: seq<V>)
    requires Distinct(s)
    ensures |Elements(s)| == |s|
  {
    if s == [] {
    } else {
      var n := |s| - 1;
      DistinctSize(s[..n]);
      assert Elements(s) == Elements(s[..n]) + {s[n]};
      assert s[n] !in s[..n];
    }
  }

  /** A duplicate-free selection of as many nodes as there are is all of them. */
  lemma FullSelection<V(!new)>(s: seq<V>, t: seq<V>)
    requires Distinct(s) && Distinct(t)
    requires forall v :: v in s ==> v in t
    ensures |s| <= |t|
    ensures |s| == |t| <==> forall v :: v in t ==> v in s
  {
    DistinctSize(s);
    DistinctSize(t);
    assert Elements(s) <= Elements(t);
    SubsetSize(Elements(s), Elements(t));
    if |s| == |t| {
      forall v | v in t ensures v in s { assert v in Elements(t) && v in Elements(s); }
    } else if forall v :: v in t ==> v in s {
      assert Elements(t) <= Elements(s);
      SubsetSize(Elements(t), Elements(s));
    }
  }

  lemma SubsetSize<V(!new)>(a: set<V>, b: set<V>)
    requires a <= b
    ensures |a| <= |b|
    ensures |a| == |b| ==> a == b
  {
    var rest := b - a;
    assert a + rest == b && |a + rest| == |a| + |rest|;
  }

  ghost predicate InSet<V(!new)>(p: seq<V>, s: set<V>) {
    forall i :: 0 <= i < |p| ==> p[i] in s
  }

  /** Along a topological order walks go forward. */
  lemma {:induction false} WalkForward<V(!new)>(g: Graph<V>, order: seq<V>, p: seq<V>, i: nat, j: nat)
    requires WellFormed(g) && TopologicalOrder(g, order) && IsWalk(g, p) && |p| >= 2
    requires i < |order| && j < |order| && order[i] == p[0] && order[j] == p[|p| - 1]
    ensures i < j
  {
    assert HasEdge(g, p[0], p[1]);
    if |p| > 2 {
      assert p[1] in order;
      var k :| 0 <= k < |order| && order[k] == p[1];
      forall x | 0 <= x < |p[1..]| - 1 ensures HasEdge(g, p[1..][x], p[1..][x + 1]) {
        assert HasEdge(g, p[x + 1], p[x + 2]);
      }
      WalkForward(g, order, p[1..], k, j);
    }
  }

  lemma OrderedIsAcyclic<V(!new)>(g: Graph<V>, order: seq<V>)
    requires WellFormed(g) && TopologicalOrder(g, order)
    ensures Acyclic(g)
  {
    forall p: seq<V> | IsWalk(g, p) && |p| >= 2 ensures p[0] != p[|p| - 1] {
      if p[0] == p[|p| - 1] {
        assert HasEdge(g, p[0], p[1]);
        assert p[0] in order;
        var i :| 0 <= i < |order| && order[i] == p[0];
        WalkForward(g, order, p, i, i);
      }
    }
  }

  ghost predicate Entered<V(!new)>(g: Graph<V>, s: set<V>, v: V) {
    exists u :: u in s && HasEdge(g, u, v)
  }

  /** In a set where everyone has a predecessor one can walk backwards for ever. */
  lemma {:induction false} BackwardWalk<V(!new)>(g: Graph<V>, s: set<V>, n: nat) returns (p: seq<V>)
    requires s != {}
    requires forall v :: v in s ==> Entered(g, s, v)
    ensures |p| == n + 1 && IsWalk(g, p) && InSet(p, s)
  {
    if n == 0 {
      var v :| v in s;
      p := [v];
    } else {
      var q := BackwardWalk(g, s, n - 1);
      assert q[0] in s && Entered(g, s, q[0]);
      var u :| u in s && HasEdge(g, u, q[0]);
      p := [u] + q;
      forall i | 0 <= i < |p| - 1 ensures HasEdge(g, p[i], p[i + 1]) {
        if i > 0 { assert HasEdge(g, q[i - 1], q[i]); }
      }
    }
  }

  lemma Pigeonhole<V(!new)>(p: seq<V>, s: set<V>)
    requires InSet(p, s) && |p| > |s|
    ensures !Distinct(p)
  {
    if Distinct(p) {
      DistinctSize(p);
      assert Elements(p) <= s;
      SubsetSize(Elements(p), s);
    }
  }

  lemma ClosedWalk<V(!new)>(g: Graph<V>, p: seq<V>, i: nat, j: nat)
    requires IsWalk(g, p) && i < j < |p| && p[i] == p[j]
    ensures !Acyclic(g)
  {
    var c := p[i..j + 1];
    forall x | 0 <= x < |c| - 1 ensures HasEdge(g, c[x], c[x + 1]) {
      assert HasEdge(g, p[i + x], p[i + x + 1]);
    }
    assert IsWalk(g, c) && c[0] == c[|c| - 1];
  }

  /** A non-empty set of nodes each entered from within the set lies on or behind a cycle. */
  lemma StuckIsCyclic<V(!new)>(g: Graph<V>, s: set<V>)
    requires s != {}
    requires forall v :: v in s ==> Entered(g, s, v)
    ensures !Acyclic(g)
  {
    var p := BackwardWalk(g, s, |s|);
    Pigeonhole(p, s);
    var i, j :| 0 <= i < j < |p| && p[i] == p[j];
    ClosedWalk(g, p, i, j);
  }

  ghost predicate PredecessorsIn<V(!new)>(g: Graph<V>, s: seq<V>, v: V) {
    forall u :: HasEdge(g, u, v) ==> u in s
  }

  /** A prefix of an order: duplicate-free, closed under predecessors, edges forward. */
  ghost predicate OrderPrefix<V(!new)>(g: Graph<V>, s: seq<V>) {
    && Distinct(s)
    && forall i :: 0 <= i < |s| ==> s[i] in g.nodes && PredecessorsIn(g, s[..i], s[i])
  }

  lemma CompletePrefix<V(!new)>(g: Graph<V>, s: seq<V>)
    requires WellFormed(g) && OrderPrefix(g, s) && |s| == |g.nodes|
    ensures TopologicalOrder(g, s)
  {
    FullSelection(s, g.nodes);
    forall i, j | 0 <= i < |s| && 0 <= j < |s| && HasEdge(g, s[i], s[j]) ensures i < j {
      assert PredecessorsIn(g, s[..j], s[j]);
      assert s[i] in s[..j];
    }
  }

  lemma {:induction false} ExtendPrefix<V(!new)>(g: Graph<V>, s: seq<V>) returns (order: seq<V>)
    requires WellFormed(g) && Acyclic(g) && OrderPrefix(g, s)
    ensures TopologicalOrder(g, order)
    decreases |g.nodes| - |s|
  {
    FullSelection(s, g.nodes);
    if |s| == |g.nodes| {
      CompletePrefix(g, s);
      order := s;
    } else {
      var stuck := Elements(g.nodes) - Elements(s);
      var w :| w in g.nodes && w !in s;
      assert w in stuck;
      if forall v :: v in stuck ==> Entered(g, stuck, v) {
        StuckIsCyclic(g, stuck);
      }
      var v :| v in stuck && !Entered(g, stuck, v);
      assert PredecessorsIn(g, s, v) by {
        forall u | HasEdge(g, u, v) ensures u in s {
          assert Edge(u, v) in g.edges;
          assert u !in stuck;
        }
      }
      var t := s + [v];
      assert OrderPrefix(g, t) by {
        assert t[..|s|] == s;
        forall i | 0 <= i < |s| ensures t[i] in g.nodes && PredecessorsIn(g, t[..i], t[i]) { assert t[..i] == s[..i]; }
      }
      order := ExtendPrefix(g, t);
    }
  }

  /** A graph without cycles has a topological order. */
  lemma AcyclicHasOrder<V(!new)>(g: Graph<V>) returns (order: seq<V>)
    requires WellFormed(g) && Acyclic(g)
    ensures TopologicalOrder(g, order)
  {
    order := ExtendPrefix(g, []);
  }
}
