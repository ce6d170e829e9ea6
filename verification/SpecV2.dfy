/** The heap-based Kahn sort of process spec v2. */
module SpecV2 {
  import opened Graphs
  import opened Wrappers
  import opened KahnTables
  import opened Strings

  /** Every predecessor of v is in s. */
  ghost predicate Available(g: Graph<string>, s: seq<string>, v: string) {
    forall u :: HasEdge(g, u, v) ==> u in s
  }

  /** At every step the chosen node precedes, by name, all other nodes that could come next. */
  ghost predicate SmallestFirst(g: Graph<string>, order: seq<string>) {
    forall i, j :: 0 <= i < j < |order| && Available(g, order[..i], order[j]) ==> Less(order[i], order[j])
  }

  /** a comes before b in dictionary order over node names (for lists of equal length). */
  ghost predicate LexLeq(a: seq<string>, b: seq<string>) {
    a == b || exists i :: 0 <= i < |a| && i < |b| && a[..i] == b[..i] && Less(a[i], b[i])
  }

  /** heapq.heappop: takes the smallest name out of the heap. */
  method PopSmallest(ready: set<string>) returns (v: string)
    requires ready != {}
    ensures v in ready && forall w :: w in ready && w != v ==> Less(v, w)
  {
    v :| v in ready;
    var rest := ready - {v};
    while rest != {}
      invariant v in ready && v !in rest && rest <= ready
      invariant forall w :: w in ready && w !in rest && w != v ==> Less(v, w)
      decreases rest
    {
      var w :| w in rest;
      LessIsTotal(v, w);
      if Less(w, v) {
        forall x | x in ready && x !in rest && x != v ensures Less(w, x) { LessIsTransitive(w, v, x); }
        v := w;
      }
      rest := rest - {w};
    }
  }

  /** The ready set holds exactly the released nodes not yet placed, and every choice so far was the smallest. */
  ghost predicate Placing(g: Graph<string>, order: seq<string>, ready: set<string>, inDegree: map<string, nat>,
                          rest: seq<string>)
  {
    && Counts(g, Elements(order), Elements(order) + ready, inDegree, rest)
    && Elements(order) !! ready
    && Distinct(order) && Forward(g, order)
    && Chosen(g, order)
  }

  /** Each choice so far preceded everything else available when it was made. */
  ghost predicate Chosen(g: Graph<string>, order: seq<string>) {
    forall i :: 0 <= i < |order| ==> Smallest(g, order[..i], order[i])
  }

  ghost predicate Smallest(g: Graph<string>, before: seq<string>, v: string) {
    forall w :: w in g.nodes && w !in before && w != v && Available(g, before, w) ==> Less(v, w)
  }

  lemma StartPlacing(g: Graph<string>, ready: set<string>, inDegree: map<string, nat>)
    requires WellFormed(g) && inDegree.Keys == Elements(g.nodes)
    requires forall v :: v in g.nodes ==> inDegree[v] == Waiting(g.edges, v, {})
    requires ready == set v | v in g.nodes && inDegree[v] == 0
    ensures Placing(g, [], ready, inDegree, [])
  {
    assert Elements<string>([]) == {};
  }

  /** Whatever could come next is ready. */
  lemma AvailableIsReady(g: Graph<string>, order: seq<string>, ready: set<string>, inDegree: map<string, nat>,
                         v: string)
    requires Placing(g, order, ready, inDegree, [])
    requires v in g.nodes && v !in order && Available(g, order, v)
    ensures v in ready
  {
    WaitingZero(g.edges, v, Elements(order));
  }

  lemma SmallestReadyIsSmallest(g: Graph<string>, order: seq<string>, ready: set<string>, inDegree: map<string, nat>,
                                v: string)
    requires Placing(g, order, ready, inDegree, [])
    requires v in ready && forall w :: w in ready && w != v ==> Less(v, w)
    ensures Smallest(g, order, v)
  {
    forall w | w in g.nodes && w !in order && w != v && Available(g, order, w) ensures Less(v, w) {
      AvailableIsReady(g, order, ready, inDegree, w);
    }
  }

  lemma PlacedCounts(g: Graph<string>, order: seq<string>, ready: set<string>, inDegree: map<string, nat>, v: string)
    requires Counts(g, Elements(order), Elements(order) + ready, inDegree, []) && Elements(order) !! ready && v in ready
    requires Distinct(order) && Forward(g, order)
    ensures Elements(order + [v]) == Elements(order) + {v} && Distinct(order + [v]) && Forward(g, order + [v])
    ensures Counts(g, Elements(order) + {v}, Elements(order) + ready, inDegree, Successors(g.edges, v))
    ensures v in g.nodes && |order| < |g.nodes|
  {
    hide Counts, Forward;
    var released := Elements(order) + ready;
    DrainNode(g, Elements(order), released, inDegree, v);
    assert forall i :: 0 <= i < |order| ==> order[i] in Elements(order);
    ForwardAppend(g, Elements(order), released, inDegree, [], order, v);
    ReleasedFits(g, Elements(order), released, inDegree, []);
    DistinctSize(order + [v]);
    SubsetSize(Elements(order + [v]), released);
  }

  lemma PlaceSmallest(g: Graph<string>, order: seq<string>, ready: set<string>, inDegree: map<string, nat>, v: string)
    requires Placing(g, order, ready, inDegree, [])
    requires v in ready && forall w :: w in ready && w != v ==> Less(v, w)
    ensures Placing(g, order + [v], ready - {v}, inDegree, Successors(g.edges, v))
    ensures v in g.nodes && |order| < |g.nodes|
  {
    PlacedCounts(g, order, ready, inDegree, v);
    assert Elements(order) + {v} + (ready - {v}) == Elements(order) + ready;
    SmallestReadyIsSmallest(g, order, ready, inDegree, v);
    ChosenAppend(g, order, v);
  }

  lemma ChosenAppend(g: Graph<string>, order: seq<string>, v: string)
    requires Chosen(g, order) && Smallest(g, order, v)
    ensures Chosen(g, order + [v])
  {
    assert (order + [v])[..|order|] == order;
    forall i | 0 <= i < |order| ensures (order + [v])[..i] == order[..i] {}
  }

  lemma ChosenIsSmallestFirst(g: Graph<string>, order: seq<string>)
    requires TopologicalOrder(g, order) && Chosen(g, order)
    ensures SmallestFirst(g, order)
  {
    forall i, j | 0 <= i < j < |order| && Available(g, order[..i], order[j]) ensures Less(order[i], order[j]) {
      assert Smallest(g, order[..i], order[i]);
      assert order[j] in g.nodes && order[j] !in order[..i];
    }
  }

  lemma EdgeIsPending(g: Graph<string>, order: seq<string>, ready: set<string>, inDegree: map<string, nat>,
                      rest: seq<string>)
    requires Placing(g, order, ready, inDegree, rest) && rest != []
    ensures rest[0] in inDegree && inDegree[rest[0]] > 0
  {
    PendingIsCounted(g, Elements(order), Elements(order) + ready, inDegree, rest);
  }

  lemma SettleOne(g: Graph<string>, order: seq<string>, ready: set<string>, inDegree: map<string, nat>,
                  rest: seq<string>, ready': set<string>, inDegree': map<string, nat>)
    requires Placing(g, order, ready, inDegree, rest) && rest != []
    requires rest[0] in inDegree && inDegree[rest[0]] > 0
    requires inDegree' == inDegree[rest[0] := inDegree[rest[0]] - 1]
    requires ready' == if inDegree'[rest[0]] == 0 then ready + {rest[0]} else ready
    ensures Placing(g, order, ready', inDegree', rest[1..])
  {
    var v, released := rest[0], Elements(order) + ready;
    assert rest == [v] + rest[1..];
    PendingIsCounted(g, Elements(order), released, inDegree, rest);
    var released' := if inDegree'[v] == 0 then released + {v} else released;
    SettleEdge(g, Elements(order), released, inDegree, v, rest[1..], released', inDegree');
    assert released' == Elements(order) + ready';
  }

  lemma NothingReady(g: Graph<string>, order: seq<string>, inDegree: map<string, nat>)
    requires Placing(g, order, {}, inDegree, [])
    ensures |order| == |g.nodes| <==> Acyclic(g)
    ensures |order| == |g.nodes| ==> TopologicalOrder(g, order) && SmallestFirst(g, order)
  {
    assert Elements(order) + {} == Elements(order);
    DrainedIsOrder(g, order, inDegree);
    if |order| == |g.nodes| { ChosenIsSmallestFirst(g, order); }
  }

  /** The deterministic order of process spec v2, or the cycle error. The targets of a node are settled in
      the order `sorted` puts them in, which is any permutation as far as the result is concerned. */
  method SortedNodeIds(g: Graph<string>) returns (r: Result<seq<string>>)
    requires WellFormed(g)
    ensures r.Ok? <==> Acyclic(g)
    ensures r.Ok? ==> TopologicalOrder(g, r.value) && SmallestFirst(g, r.value)
  {
    hide *;
    var adj, inDegree := BuildTables(g);
    TablesAgree(g, adj, inDegree);
    var ready := set v | v in g.nodes && inDegree[v] == 0;
    var ordered: seq<string> := [];
    StartPlacing(g, ready, inDegree);
    while ready != {}
      invariant Placing(g, ordered, ready, inDegree, [])
      invariant forall v :: v in g.nodes ==> v in adj && adj[v] == Successors(g.edges, v)
      decreases |g.nodes| - |ordered|
    {
      var nodeId := PopSmallest(ready);
      PlaceSmallest(g, ordered, ready, inDegree, nodeId);
      ready, ordered := ready - {nodeId}, ordered + [nodeId];
      var targets := SortedNames(adj[nodeId]);
      SameCounts(g, ordered, ready, inDegree, adj[nodeId], targets);
      var k := 0;
      assert targets[0..] == targets;
      while k < |targets|
        invariant k <= |targets|
        invariant Placing(g, ordered, ready, inDegree, targets[k..])
      {
        var target := targets[k];
        assert targets[k..][0] == target && targets[k..][1..] == targets[k + 1..];
        EdgeIsPending(g, ordered, ready, inDegree, targets[k..]);
        ghost var before, readyBefore := inDegree, ready;
        inDegree := inDegree[target := inDegree[target] - 1];
        if inDegree[target] == 0 {
          ready := ready + {target};
        }
        SettleOne(g, ordered, readyBefore, before, targets[k..], ready, inDegree);
        k := k + 1;
      }
      assert targets[k..] == [];
    }
    NothingReady(g, ordered, inDegree);
    if |ordered| != |g.nodes| {
      return Err("Cycle detected in process");
    }
    return Ok(ordered);
  }

  lemma SameCounts(g: Graph<string>, order: seq<string>, ready: set<string>, inDegree: map<string, nat>,
                   a: seq<string>, b: seq<string>)
    requires Placing(g, order, ready, inDegree, a) && multiset(a) == multiset(b)
    ensures Placing(g, order, ready, inDegree, b)
  {
    assert forall v :: v in b ==> v in multiset(a);
  }

  /** `sorted`: the same names, in order. */
  method SortedNames(s: seq<string>) returns (t: seq<string>)
    ensures multiset(t) == multiset(s)
    ensures forall i, j :: 0 <= i < j < |t| ==> !Less(t[j], t[i])
  {
    hide *;
    t := [];
    for n := 0 to |s|
      invariant multiset(t) == multiset(s[..n])
      invariant forall i, j :: 0 <= i < j < |t| ==> !Less(t[j], t[i])
    {
      var k := |t|;
      while k > 0 && Less(s[n], t[k - 1])
        invariant 0 <= k <= |t|
        invariant forall i :: k <= i < |t| ==> Less(s[n], t[i])
      {
        k := k - 1;
      }
      InsertKeepsOrder(t, s[n], k);
      InsertKeepsNames(t, s[n], k);
      assert s[..n + 1] == s[..n] + [s[n]];
      t := t[..k] + [s[n]] + t[k..];
    }
    assert s[..|s|] == s;
  }

  lemma InsertKeepsNames(t: seq<string>, x: string, k: nat)
    requires k <= |t|
    ensures multiset(t[..k] + [x] + t[k..]) == multiset(t) + multiset{x}
  {
    assert t == t[..k] + t[k..];
  }

  lemma InsertKeepsOrder(t: seq<string>, x: string, k: nat)
    requires k <= |t| && forall i, j :: 0 <= i < j < |t| ==> !Less(t[j], t[i])
    requires k > 0 ==> !Less(x, t[k - 1])
    requires forall i :: k <= i < |t| ==> Less(x, t[i])
    ensures forall i, j :: 0 <= i < j < |t| + 1 ==> !Less((t[..k] + [x] + t[k..])[j], (t[..k] + [x] + t[k..])[i])
  {
    forall i | 0 <= i < k ensures !Less(x, t[i]) {
      LessIsTotal(t[k - 1], t[i]);
      LessIsTotal(x, t[k - 1]);
      LessIsTotal(x, t[i]);
      if Less(x, t[i]) && Less(t[i], t[k - 1]) { LessIsTransitive(x, t[i], t[k - 1]); }
    }
    forall i | k <= i < |t| ensures !Less(t[i], x) { LessIsTotal(x, t[i]); }
  }

  /** Choosing the smallest at every step yields the dictionary-least of all topological orders. */
  lemma SmallestFirstIsLeast(g: Graph<string>, order: seq<string>, other: seq<string>)
    requires WellFormed(g)
    requires TopologicalOrder(g, order) && SmallestFirst(g, order) && TopologicalOrder(g, other)
    ensures LexLeq(order, other)
  {
    SamePermutation(g, order, other);
    if order != other {
      hide TopologicalOrder, WellFormed, Available, Less;
      var i := FirstDifference(order, other);
      var j := LaterPosition(order, other, i);
      AvailableAt(g, other, i);
      assert Less(order[i], order[j]);
    }
  }

  lemma SamePermutation(g: Graph<string>, order: seq<string>, other: seq<string>)
    requires TopologicalOrder(g, order) && TopologicalOrder(g, other)
    ensures |order| == |other| && Distinct(other) && forall v :: v in order <==> v in other
  {
  }

  /** Where one list first differs from another of the same distinct elements, the other's element comes later. */
  lemma LaterPosition(a: seq<string>, b: seq<string>, i: nat) returns (j: nat)
    requires |a| == |b| && Distinct(b) && forall v :: v in a <==> v in b
    requires i < |a| && a[..i] == b[..i] && a[i] != b[i]
    ensures i < j < |a| && a[j] == b[i]
  {
    assert b[i] in a;
    j :| 0 <= j < |a| && a[j] == b[i];
    if j < i { assert a[..i][j] == b[..i][j]; }
  }

  lemma AvailableAt(g: Graph<string>, order: seq<string>, i: nat)
    requires WellFormed(g) && TopologicalOrder(g, order) && i < |order|
    ensures Available(g, order[..i], order[i])
  {
    forall u | HasEdge(g, u, order[i]) ensures u in order[..i] {
      assert Edge(u, order[i]) in g.edges;
      assert u in order;
      var k :| 0 <= k < |order| && order[k] == u;
      assert k < i && order[..i][k] == u;
    }
  }

  lemma {:induction false} FirstDifference(a: seq<string>, b: seq<string>) returns (i: nat)
    requires |a| == |b| && a != b
    ensures i < |a| && a[..i] == b[..i] && a[i] != b[i]
  {
    if a[0] != b[0] {
      i := 0;
    } else {
      assert a == [a[0]] + a[1..] && b == [b[0]] + b[1..];
      var j := FirstDifference(a[1..], b[1..]);
      i := j + 1;
      assert a[..i] == [a[0]] + a[1..][..j] && b[..i] == [b[0]] + b[1..][..j];
    }
  }

  lemma LexIsAntisymmetric(a: seq<string>, b: seq<string>)
    requires LexLeq(a, b) && LexLeq(b, a) && |a| == |b|
    ensures a == b
  {
    assert forall x, y :: 0 <= x < y <= |a| && a[..y] == b[..y] ==> a[x] == a[..y][x] == b[..y][x] == b[x];
    if a != b {
      var i :| 0 <= i < |a| && a[..i] == b[..i] && Less(a[i], b[i]);
      var j :| 0 <= j < |b| && b[..j] == a[..j] && Less(b[j], a[j]);
      LessIsTotal(a[i], b[i]);
      LessIsTotal(a[j], b[j]);
    }
  }

  /** The result is fixed by the set of nodes and the set of edges: neither declaration order nor
      parallel edges can change it. */
  lemma DeclarationOrderIsIrrelevant(g: Graph<string>, h: Graph<string>, a: seq<string>, b: seq<string>)
    requires WellFormed(g) && WellFormed(h)
    requires Elements(g.nodes) == Elements(h.nodes) && Elements(g.edges) == Elements(h.edges)
    requires TopologicalOrder(g, a) && SmallestFirst(g, a)
    requires TopologicalOrder(h, b) && SmallestFirst(h, b)
    ensures a == b
  {
    SameTopologicalOrders(g, h, b);
    SameTopologicalOrders(h, g, a);
    SmallestFirstIsLeast(g, a, b);
    SmallestFirstIsLeast(h, b, a);
    LexIsAntisymmetric(a, b);
  }

  lemma SameTopologicalOrders(g: Graph<string>, h: Graph<string>, b: seq<string>)
    requires WellFormed(g) && WellFormed(h)
    requires Elements(g.nodes) == Elements(h.nodes) && Elements(g.edges) == Elements(h.edges)
    requires TopologicalOrder(h, b)
    ensures TopologicalOrder(g, b)
  {
    DistinctSize(g.nodes);
    DistinctSize(h.nodes);
    assert forall v :: v in g.nodes <==> v in Elements(g.nodes);
    assert forall v :: v in h.nodes <==> v in Elements(h.nodes);
    assert forall u, v :: HasEdge(g, u, v) <==> Edge(u, v) in Elements(g.edges);
    assert forall u, v :: HasEdge(h, u, v) <==> Edge(u, v) in Elements(h.edges);
  }
}
