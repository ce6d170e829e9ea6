/** The adjacency and in-degree tables both Kahn sorts start from, and what their counters mean. */
module KahnTables {
  import opened Graphs

  /** Targets of u's edges, in edge order, parallel edges repeated. */
  function Successors<V(==)>(edges: seq<Edge<V>>, u: V): seq<V> {
    if edges == [] then []
    else
      var last := edges[|edges| - 1];
      Successors(edges[..|edges| - 1], u) + (if last.source == u then [last.target] else [])
  }

  /** How many edges enter v from nodes not yet drained. */
  function Waiting<V(==)>(edges: seq<Edge<V>>, v: V, drained: set<V>): nat {
    if edges == [] then 0
    else
      var last := edges[|edges| - 1];
      Waiting(edges[..|edges| - 1], v, drained)
      + (if last.target == v && last.source !in drained then 1 else 0)
  }

  lemma {:induction false} SuccessorsAreEdges<V(!new)>(edges: seq<Edge<V>>, u: V)
    ensures forall v :: v in Successors(edges, u) <==> Edge(u, v) in edges
  {
    if edges == [] {
    } else {
      var n := |edges| - 1;
      SuccessorsAreEdges(edges[..n], u);
      assert edges == edges[..n] + [edges[n]];
    }
  }

  /** These are the targets of u's edges, each edge once and in the list's order. */
  ghost predicate TargetsInOrder<V(!new)>(edges: seq<Edge<V>>, u: V, targets: seq<V>, origin: seq<nat>) {
    && |origin| == |targets| && (forall i, j :: 0 <= i < j < |origin| ==> origin[i] < origin[j])
    && (forall i :: 0 <= i < |origin| ==> origin[i] < |edges| && edges[origin[i]] == Edge(u, targets[i]))
    && forall k: nat :: k < |edges| && edges[k].source == u ==> k in origin
  }

  lemma {:induction false} SuccessorsKeepOrder<V(!new)>(edges: seq<Edge<V>>, u: V) returns (origin: seq<nat>)
    ensures TargetsInOrder(edges, u, Successors(edges, u), origin)
  {
    if edges == [] {
      origin := [];
    } else {
      hide TargetsInOrder;
      var k := |edges| - 1;
      assert edges == edges[..k] + [edges[k]];
      var before := SuccessorsKeepOrder(edges[..k], u);
      if edges[k].source == u {
        origin := before + [k];
        OneMoreTarget(edges[..k], edges[k], u, Successors(edges[..k], u), before);
      } else {
        origin := before;
        NoMoreTargets(edges[..k], edges[k], u, Successors(edges[..k], u), before);
        assert Successors(edges, u) == Successors(edges[..k], u);
      }
    }
  }

  lemma OneMoreTarget<V(!new)>(edges: seq<Edge<V>>, e: Edge<V>, u: V, targets: seq<V>, origin: seq<nat>)
    requires TargetsInOrder(edges, u, targets, origin) && e.source == u
    ensures TargetsInOrder(edges + [e], u, targets + [e.target], origin + [|edges|])
  {
    var longer, all := origin + [|edges|], edges + [e];
    forall k: nat | k < |all| && all[k].source == u ensures k in longer {
      if k < |edges| {
        assert edges[k].source == u && k in origin;
        var i :| 0 <= i < |origin| && origin[i] == k;
        assert longer[i] == k;
      } else {
        assert longer[|origin|] == k;
      }
    }
  }

  lemma NoMoreTargets<V(!new)>(edges: seq<Edge<V>>, e: Edge<V>, u: V, targets: seq<V>, origin: seq<nat>)
    requires TargetsInOrder(edges, u, targets, origin) && e.source != u
    ensures TargetsInOrder(edges + [e], u, targets, origin)
  {
    var all := edges + [e];
    forall k: nat | k < |all| && all[k].source == u ensures k in origin { assert edges[k].source == u; }
  }

  lemma {:induction false} WaitingZero<V(!new)>(edges: seq<Edge<V>>, v: V, drained: set<V>)
    ensures Waiting(edges, v, drained) == 0 <==> forall u :: Edge(u, v) in edges ==> u in drained
  {
    if edges == [] {
    } else {
      var n := |edges| - 1;
      WaitingZero(edges[..n], v, drained);
      assert edges == edges[..n] + [edges[n]];
      if Waiting(edges, v, drained) != 0 && Waiting(edges[..n], v, drained) == 0 {
        assert Edge(edges[n].source, v) in edges;
      }
    }
  }

  /** Draining one more node lowers each counter by that node's edges to it. */
  lemma {:induction false} DrainOne<V(!new)>(edges: seq<Edge<V>>, v: V, drained: set<V>, u: V)
    requires u !in drained
    ensures Waiting(edges, v, drained) == Waiting(edges, v, drained + {u}) + multiset(Successors(edges, u))[v]
  {
    if edges == [] {
    } else {
      var n := |edges| - 1;
      DrainOne(edges[..n], v, drained, u);
    }
  }

  ghost predicate TablesMatch<V(!new)>(nodes: seq<V>, edges: seq<Edge<V>>, adj: map<V, seq<V>>, inDegree: map<V, nat>) {
    && adj.Keys == inDegree.Keys == Elements(nodes)
    && forall v :: v in nodes ==> adj[v] == Successors(edges, v) && inDegree[v] == Waiting(edges, v, {})
  }

  lemma AddEdge<V(!new)>(nodes: seq<V>, edges: seq<Edge<V>>, e: Edge<V>, adj: map<V, seq<V>>, inDegree: map<V, nat>)
    requires TablesMatch(nodes, edges, adj, inDegree) && e.source in nodes && e.target in nodes
    ensures e.source in adj && e.target in inDegree
    ensures TablesMatch(nodes, edges + [e], adj[e.source := adj[e.source] + [e.target]],
                        inDegree[e.target := inDegree[e.target] + 1])
  {
    assert (edges + [e])[..|edges|] == edges;
  }

  lemma NoEdgesYet<V(!new)>(nodes: seq<V>)
    ensures TablesMatch(nodes, [], map v | v in nodes :: [], map v | v in nodes :: 0)
  {
  }

  lemma TablesAgree<V(!new)>(g: Graph<V>, adj: map<V, seq<V>>, inDegree: map<V, nat>)
    requires TablesMatch(g.nodes, g.edges, adj, inDegree)
    ensures inDegree.Keys == Elements(g.nodes) && adj.Keys == Elements(g.nodes)
    ensures forall v :: v in g.nodes ==> v in adj && v in inDegree && adj[v] == Successors(g.edges, v)
    ensures forall v :: v in g.nodes ==> inDegree[v] == Waiting(g.edges, v, {})
  {
  }

  /** Both sorts fill the tables the same way, one edge at a time. */
  method BuildTables<V(==,!new)>(g: Graph<V>) returns (adj: map<V, seq<V>>, inDegree: map<V, nat>)
    requires WellFormed(g)
    ensures TablesMatch(g.nodes, g.edges, adj, inDegree)
  {
    hide TablesMatch, Successors, Waiting;
    NoEdgesYet(g.nodes);
    adj := map v | v in g.nodes :: [];
    inDegree := map v | v in g.nodes :: 0;
    for i := 0 to |g.edges|
      invariant TablesMatch(g.nodes, g.edges[..i], adj, inDegree)
    {
      var e := g.edges[i];
      assert e in g.edges;
      AddEdge(g.nodes, g.edges[..i], e, adj, inDegree);
      adj := adj[e.source := adj[e.source] + [e.target]];
      inDegree := inDegree[e.target := inDegree[e.target] + 1];
      assert g.edges[..i + 1] == g.edges[..i] + [e];
    }
    assert g.edges[..|g.edges|] == g.edges;
  }

  /** The counters while `rest` of the last drained node's edges are still to be settled:
      exactly the nodes whose counter is zero have been released. */
  ghost predicate Counts<V(!new)>(g: Graph<V>, drained: set<V>, released: set<V>, inDegree: map<V, nat>, rest: seq<V>) {
    && WellFormed(g)
    && inDegree.Keys == Elements(g.nodes)
    && drained <= released
    && (forall v :: v in g.nodes ==> inDegree[v] == Waiting(g.edges, v, drained) + multiset(rest)[v])
    && (forall v :: v in released <==> v in g.nodes && inDegree[v] == 0)
    && (forall v :: v in rest ==> v in g.nodes)
  }

  /** What is released is entered only from drained nodes, by settled edges. */
  lemma ReleasedIsFree<V(!new)>(g: Graph<V>, drained: set<V>, released: set<V>, inDegree: map<V, nat>, rest: seq<V>,
                                v: V)
    requires Counts(g, drained, released, inDegree, rest) && v in released
    ensures v !in rest
    ensures forall u :: HasEdge(g, u, v) ==> u in drained
  {
    WaitingZero(g.edges, v, drained);
    assert multiset(rest)[v] == 0;
  }

  /** Draining a released node opens its edges. */
  lemma DrainNode<V(!new)>(g: Graph<V>, drained: set<V>, released: set<V>, inDegree: map<V, nat>, u: V)
    requires Counts(g, drained, released, inDegree, [])
    requires u in released && u !in drained
    ensures Counts(g, drained + {u}, released, inDegree, Successors(g.edges, u))
  {
    var slots := Successors(g.edges, u);
    forall v | v in g.nodes
      ensures inDegree[v] == Waiting(g.edges, v, drained + {u}) + multiset(slots)[v]
    {
      DrainOne(g.edges, v, drained, u);
    }
    SuccessorsAreEdges(g.edges, u);
    forall v | v in slots ensures v in g.nodes {
      assert Edge(u, v) in g.edges;
    }
  }

  lemma PendingIsCounted<V(!new)>(g: Graph<V>, drained: set<V>, released: set<V>, inDegree: map<V, nat>, rest: seq<V>)
    requires Counts(g, drained, released, inDegree, rest) && rest != []
    ensures rest[0] in inDegree && inDegree[rest[0]] > 0 && rest[0] !in released
  {
    assert rest == [rest[0]] + rest[1..];
    assert rest[0] in rest;
  }

  /** Settling one edge: its target was not released, and now is exactly if the counter reaches zero. */
  lemma SettleEdge<V(!new)>(g: Graph<V>, drained: set<V>, released: set<V>, inDegree: map<V, nat>, v: V, rest: seq<V>,
                       released': set<V>, inDegree': map<V, nat>)
    requires Counts(g, drained, released, inDegree, [v] + rest)
    requires v in inDegree && inDegree[v] > 0 && inDegree' == inDegree[v := inDegree[v] - 1]
    requires released' == if inDegree'[v] == 0 then released + {v} else released
    ensures Counts(g, drained, released', inDegree', rest)
  {
    assert multiset([v] + rest) == multiset{v} + multiset(rest);
    assert v in [v] + rest;
  }

  /** Edges among the listed nodes point forward. */
  ghost predicate Forward<V(!new)>(g: Graph<V>, out: seq<V>) {
    forall i, j :: 0 <= i < |out| && 0 <= j < |out| && HasEdge(g, out[i], out[j]) ==> i < j
  }

  lemma ForwardAppend<V(!new)>(g: Graph<V>, drained: set<V>, released: set<V>, inDegree: map<V, nat>, rest: seq<V>,
                               out: seq<V>, v: V)
    requires Counts(g, drained, released, inDegree, rest)
    requires Forward(g, out) && v in released && v !in drained && forall i :: 0 <= i < |out| ==> out[i] in released
    ensures Forward(g, out + [v])
    ensures !HasEdge(g, v, v) && forall i :: 0 <= i < |out| ==> !HasEdge(g, v, out[i])
  {
    forall x | x in released ensures !HasEdge(g, v, x) {
      ReleasedIsFree(g, drained, released, inDegree, rest, x);
    }
  }

  /** When no node is ready, the drained nodes are all nodes exactly if there is no cycle. */
  lemma DrainedIsOrder<V(!new)>(g: Graph<V>, order: seq<V>, inDegree: map<V, nat>)
    requires Counts(g, Elements(order), Elements(order), inDegree, []) && Distinct(order) && Forward(g, order)
    ensures |order| == |g.nodes| <==> Acyclic(g)
    ensures |order| == |g.nodes| ==> TopologicalOrder(g, order)
  {
    assert forall v :: v in order ==> v in Elements(order);
    FullSelection(order, g.nodes);
    if |order| == |g.nodes| {
      OrderedIsAcyclic(g, order);
    } else {
      var stuck := Elements(g.nodes) - Elements(order);
      var v :| v in g.nodes && v !in order;
      assert v in stuck;
      forall v | v in stuck ensures Entered(g, stuck, v) {
        WaitingZero(g.edges, v, Elements(order));
        var u :| Edge(u, v) in g.edges && u !in Elements(order);
        assert u in stuck && HasEdge(g, u, v);
      }
      StuckIsCyclic(g, stuck);
    }
  }

  lemma ReleasedFits<V(!new)>(g: Graph<V>, drained: set<V>, released: set<V>, inDegree: map<V, nat>, rest: seq<V>)
    requires Counts(g, drained, released, inDegree, rest)
    ensures released <= Elements(g.nodes) && |released| <= |g.nodes|
  {
    DistinctSize(g.nodes);
    SubsetSize(released, Elements(g.nodes));
  }
}
