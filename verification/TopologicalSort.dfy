/** The FIFO Kahn sort that fixes the execution order of a compiled process. */
module TopologicalSort {
  import opened Graphs
  import opened Wrappers
  import opened KahnTables

  /** Position in out of the last predecessor of v, or -1. */
  ghost function LastPredecessor<V(!new)>(g: Graph<V>, out: seq<V>, v: V): (p: int)
    ensures -1 <= p < |out|
  {
    if out == [] then -1
    else if HasEdge(g, out[|out| - 1], v) then |out| - 1
    else LastPredecessor(g, out[..|out| - 1], v)
  }

  /** Last index of v in s, or -1. */
  ghost function LastIndex<V(!new)>(s: seq<V>, v: V): (k: int)
    ensures -1 <= k < |s|
  {
    if s == [] then -1
    else if s[|s| - 1] == v then |s| - 1
    else LastIndex(s[..|s| - 1], v)
  }

  lemma {:induction false} LastPredecessorIs<V(!new)>(g: Graph<V>, out: seq<V>, v: V, p: int)
    requires -1 <= p < |out| && (p >= 0 ==> HasEdge(g, out[p], v))
    requires forall i :: p < i < |out| ==> !HasEdge(g, out[i], v)
    ensures LastPredecessor(g, out, v) == p
  {
    if p < |out| - 1 {
      LastPredecessorIs(g, out[..|out| - 1], v, p);
    }
  }

  lemma {:induction false} LastIndexIs<V(!new)>(s: seq<V>, v: V, k: int)
    requires -1 <= k < |s| && (k >= 0 ==> s[k] == v)
    requires forall i :: k < i < |s| ==> s[i] != v
    ensures LastIndex(s, v) == k
  {
    if k < |s| - 1 {
      LastIndexIs(s[..|s| - 1], v, k);
    }
  }

  /** When a node becomes ready: initially, in declaration order; otherwise when its last predecessor
      settles its last edge to it. */
  ghost predicate ReadyBefore<V(!new)>(g: Graph<V>, out: seq<V>, u: V, v: V) {
    var p, q := LastPredecessor(g, out, u), LastPredecessor(g, out, v);
    if p < 0 && q < 0 then LastIndex(g.nodes, u) < LastIndex(g.nodes, v)
    else p < q || (p == q && LastIndex(Successors(g.edges, out[p]), u) < LastIndex(Successors(g.edges, out[p]), v))
  }

  /** Nodes appear in the order in which they became ready. */
  ghost predicate FirstReadyFirst<V(!new)>(g: Graph<V>, out: seq<V>) {
    forall i, j :: 0 <= i < j < |out| ==> ReadyBefore(g, out, out[i], out[j])
  }

  /** Everything in out became ready before slot k of the node at position p. */
  ghost predicate ReadySoFar<V(!new)>(g: Graph<V>, out: seq<V>, p: nat, k: nat) {
    p < |out| && forall i :: 0 <= i < |out| ==>
      var q := LastPredecessor(g, out, out[i]);
      q < p || (q == p && LastIndex(Successors(g.edges, out[p]), out[i]) < k)
  }

  lemma AppendKeepsReadiness<V(!new)>(g: Graph<V>, out: seq<V>, w: V, x: V)
    requires !HasEdge(g, w, x)
    ensures LastPredecessor(g, out + [w], x) == LastPredecessor(g, out, x)
  {
    assert (out + [w])[..|out|] == out;
  }

  /** Appending the node released by slot k of position p keeps the queue discipline. */
  lemma AppendReleased<V(!new)>(g: Graph<V>, out: seq<V>, p: nat, k: nat)
    requires FirstReadyFirst(g, out) && ReadySoFar(g, out, p, k)
    requires k < |Successors(g.edges, out[p])|
    requires var v := Successors(g.edges, out[p])[k];
      && v !in Successors(g.edges, out[p])[k + 1..]
      && (forall i :: p < i < |out| ==> !HasEdge(g, out[i], v))
      && (forall i :: 0 <= i < |out| ==> !HasEdge(g, v, out[i])) && !HasEdge(g, v, v)
    ensures FirstReadyFirst(g, out + [Successors(g.edges, out[p])[k]])
    ensures ReadySoFar(g, out + [Successors(g.edges, out[p])[k]], p, k + 1)
  {
    var slots := Successors(g.edges, out[p]);
    var v := slots[k];
    var out' := out + [v];
    SuccessorsAreEdges(g.edges, out[p]);
    assert HasEdge(g, out[p], v);
    assert out'[p] == out[p];
    forall i | 0 <= i < |out| ensures LastPredecessor(g, out', out'[i]) == LastPredecessor(g, out, out[i]) {
      AppendKeepsReadiness(g, out, v, out[i]);
    }
    AppendKeepsReadiness(g, out, v, v);
    LastPredecessorIs(g, out, v, p);
    assert forall i :: k < i < |slots| ==> slots[i] == slots[k + 1..][i - k - 1];
    LastIndexIs(slots, v, k);
    forall i, j | 0 <= i < j < |out'| ensures ReadyBefore(g, out', out'[i], out'[j]) {
      if j < |out| {
        assert ReadyBefore(g, out, out[i], out[j]);
        var q := LastPredecessor(g, out, out[i]);
        if q >= 0 { assert out'[q] == out[q]; }
      }
    }
  }

  ghost predicate Released<V(!new)>(g: Graph<V>, v: V) {
    forall u :: !HasEdge(g, u, v)
  }

  lemma SourcesInOrder<V(!new)>(g: Graph<V>, queue: seq<V>)
    requires forall i :: 0 <= i < |queue| ==> Released(g, queue[i])
    requires forall i, j :: 0 <= i < j < |queue| ==> LastIndex(g.nodes, queue[i]) < LastIndex(g.nodes, queue[j])
    ensures FirstReadyFirst(g, queue)
    ensures forall i :: 0 <= i < |queue| ==> LastPredecessor(g, queue, queue[i]) < 0
  {
    forall i | 0 <= i < |queue| ensures LastPredecessor(g, queue, queue[i]) == -1 {
      assert Released(g, queue[i]);
      LastPredecessorIs(g, queue, queue[i], -1);
    }
  }

  /** The nodes without incoming edges, in declaration order. */
  method InitialQueue<V(==,!new)>(g: Graph<V>, inDegree: map<V, nat>) returns (queue: seq<V>)
    requires WellFormed(g) && inDegree.Keys == Elements(g.nodes)
    requires forall v :: v in g.nodes ==> inDegree[v] == Waiting(g.edges, v, {})
    ensures Resting(g, queue, 0, inDegree)
  {
    queue := [];
    ghost var at: seq<nat> := [];
    for i := 0 to |g.nodes|
      invariant |at| == |queue|
      invariant forall k :: 0 <= k < |queue| ==> at[k] < i && queue[k] == g.nodes[at[k]]
      invariant forall k, l :: 0 <= k < l < |queue| ==> at[k] < at[l]
      invariant forall k :: 0 <= k < |queue| ==> inDegree[g.nodes[at[k]]] == 0
      invariant forall k :: 0 <= k < i && inDegree[g.nodes[k]] == 0 ==> g.nodes[k] in queue
    {
      assert g.nodes[i] in g.nodes;
      if inDegree[g.nodes[i]] == 0 {
        queue := queue + [g.nodes[i]];
        at := at + [i];
      }
    }
    SourcesRest(g, queue, at, inDegree);
  }

  lemma SourcesRest<V(!new)>(g: Graph<V>, queue: seq<V>, at: seq<nat>, inDegree: map<V, nat>)
    requires WellFormed(g) && inDegree.Keys == Elements(g.nodes)
    requires forall v :: v in g.nodes ==> inDegree[v] == Waiting(g.edges, v, {})
    requires |at| == |queue|
    requires forall k :: 0 <= k < |queue| ==> at[k] < |g.nodes| && queue[k] == g.nodes[at[k]]
    requires forall k, l :: 0 <= k < l < |queue| ==> at[k] < at[l]
    requires forall k :: 0 <= k < |queue| ==> inDegree[queue[k]] == 0
    requires forall v :: v in g.nodes && inDegree[v] == 0 ==> v in queue
    ensures Resting(g, queue, 0, inDegree)
  {
    assert Elements(queue[..0]) == {};
    forall k | 0 <= k < |queue| ensures LastIndex(g.nodes, queue[k]) == at[k] && Released(g, queue[k]) {
      WaitingZero(g.edges, queue[k], {});
      LastIndexIs(g.nodes, queue[k], at[k]);
    }
    SourcesInOrder(g, queue);
    forall k, l | 0 <= k < |queue| && 0 <= l < |queue| ensures !HasEdge(g, queue[k], queue[l]) {
      assert Released(g, queue[l]);
    }
  }

  /** Between two nodes: out lists the released nodes in the order they became ready, the first n are drained. */
  ghost predicate Resting<V(!new)>(g: Graph<V>, out: seq<V>, n: nat, inDegree: map<V, nat>) {
    && n <= |out|
    && Counts(g, Elements(out[..n]), Elements(out), inDegree, [])
    && Listed(g, out)
    && forall i :: 0 <= i < |out| ==> LastPredecessor(g, out, out[i]) < n
  }

  ghost predicate Listed<V(!new)>(g: Graph<V>, out: seq<V>) {
    Distinct(out) && Forward(g, out) && FirstReadyFirst(g, out)
  }

  /** While slots k, k+1, ... of the last drained node are still to be settled. */
  ghost predicate Settling<V(!new)>(g: Graph<V>, out: seq<V>, n: nat, inDegree: map<V, nat>, k: nat) {
    0 < n <= |out|
    && var slots := Successors(g.edges, out[n - 1]);
    && k <= |slots|
    && Counts(g, Elements(out[..n]), Elements(out), inDegree, slots[k..])
    && Listed(g, out)
    && ReadySoFar(g, out, n - 1, k)
  }

  lemma PickNode<V(!new)>(g: Graph<V>, out: seq<V>, n: nat, inDegree: map<V, nat>)
    requires Resting(g, out, n, inDegree) && n < |out|
    ensures Settling(g, out, n + 1, inDegree, 0)
    ensures out[n] in g.nodes && n < |g.nodes|
  {
    var node := out[n];
    assert Elements(out[..n + 1]) == Elements(out[..n]) + {node};
    assert node in Elements(out) && node !in Elements(out[..n]);
    DrainNode(g, Elements(out[..n]), Elements(out), inDegree, node);
    assert Successors(g.edges, node)[0..] == Successors(g.edges, node);
    ReleasedFits(g, Elements(out[..n]), Elements(out), inDegree, []);
    DistinctSize(out);
  }

  lemma FinishNode<V(!new)>(g: Graph<V>, out: seq<V>, n: nat, inDegree: map<V, nat>)
    requires 0 < n <= |out| && Settling(g, out, n, inDegree, |Successors(g.edges, out[n - 1])|)
    ensures Resting(g, out, n, inDegree)
  {
    var slots := Successors(g.edges, out[n - 1]);
    assert slots[|slots|..] == [];
  }

  lemma SlotIsPending<V(!new)>(g: Graph<V>, out: seq<V>, n: nat, inDegree: map<V, nat>, k: nat)
    requires Settling(g, out, n, inDegree, k) && k < |Successors(g.edges, out[n - 1])|
    ensures var v := Successors(g.edges, out[n - 1])[k]; v in inDegree && inDegree[v] > 0
  {
    var slots := Successors(g.edges, out[n - 1]);
    PendingIsCounted(g, Elements(out[..n]), Elements(out), inDegree, slots[k..]);
  }

  /** One edge settled: the target joins the queue exactly when nothing else holds it back. */
  lemma SettleSlot<V(!new)>(g: Graph<V>, out: seq<V>, n: nat, inDegree: map<V, nat>, k: nat, v: V,
                       out': seq<V>, inDegree': map<V, nat>)
    requires Settling(g, out, n, inDegree, k) && k < |Successors(g.edges, out[n - 1])|
    requires v == Successors(g.edges, out[n - 1])[k] && v in inDegree && inDegree[v] > 0
    requires inDegree' == inDegree[v := inDegree[v] - 1]
    requires out' == if inDegree'[v] == 0 then out + [v] else out
    ensures Settling(g, out', n, inDegree', k + 1)
  {
    hide Counts, Listed, ReadySoFar, Elements;
    var slots := Successors(g.edges, out[n - 1]);
    assert slots[k..] == [v] + slots[k + 1..];
    PendingIsCounted(g, Elements(out[..n]), Elements(out), inDegree, slots[k..]);
    var released' := if inDegree'[v] == 0 then Elements(out) + {v} else Elements(out);
    SettleEdge(g, Elements(out[..n]), Elements(out), inDegree, v, slots[k + 1..], released', inDegree');
    if inDegree'[v] == 0 {
      NotListed(out, v);
      ReleaseNow(g, out, n, inDegree', k);
    } else {
      ReadyMonotone(g, out, n - 1, k);
    }
  }

  lemma NotListed<V(!new)>(out: seq<V>, v: V)
    ensures v in Elements(out) <==> v in out
  {
  }

  lemma ReadyMonotone<V(!new)>(g: Graph<V>, out: seq<V>, p: nat, k: nat)
    requires ReadySoFar(g, out, p, k)
    ensures ReadySoFar(g, out, p, k + 1)
  {
  }

  lemma ReleaseNow<V(!new)>(g: Graph<V>, out: seq<V>, n: nat, inDegree: map<V, nat>, k: nat)
    requires 0 < n <= |out| && k < |Successors(g.edges, out[n - 1])|
    requires Listed(g, out) && ReadySoFar(g, out, n - 1, k)
    requires var slots := Successors(g.edges, out[n - 1]);
      && slots[k] !in out
      && Counts(g, Elements(out[..n]), Elements(out) + {slots[k]}, inDegree, slots[k + 1..])
    ensures Settling(g, out + [Successors(g.edges, out[n - 1])[k]], n, inDegree, k + 1)
  {
    var slots := Successors(g.edges, out[n - 1]);
    var v := slots[k];
    var out' := out + [v];
    var drained := Elements(out[..n]);
    assert Elements(out') == Elements(out) + {v};
    assert out'[..n] == out[..n] && out'[n - 1] == out[n - 1];
    ReleasedIsFree(g, drained, Elements(out'), inDegree, slots[k + 1..], v);
    ForwardAppend(g, drained, Elements(out'), inDegree, slots[k + 1..], out, v);
    forall i | n - 1 < i < |out| ensures !HasEdge(g, out[i], v) {
      assert out[i] !in drained;
    }
    AppendReleased(g, out, n - 1, k);
  }

  /** Settling the edges of the node drained last; `order` is what has been drained, that node included. */
  method SettleNode<V(==,!new)>(g: Graph<V>, order: seq<V>, slots: seq<V>, queue0: seq<V>, inDegree0: map<V, nat>)
    returns (queue: seq<V>, inDegree: map<V, nat>)
    requires order != [] && slots == Successors(g.edges, order[|order| - 1])
    requires Settling(g, order + queue0, |order|, inDegree0, 0)
    ensures Resting(g, order + queue, |order|, inDegree)
  {
    hide *;
    queue, inDegree := queue0, inDegree0;
    for k := 0 to |slots|
      invariant Settling(g, order + queue, |order|, inDegree, k)
    {
      var neighbour := slots[k];
      ghost var out, before := order + queue, inDegree;
      SlotIsPending(g, out, |order|, inDegree, k);
      inDegree := inDegree[neighbour := inDegree[neighbour] - 1];
      if inDegree[neighbour] == 0 {
        assert out + [neighbour] == order + (queue + [neighbour]);
        queue := queue + [neighbour];
      }
      SettleSlot(g, out, |order|, before, k, neighbour, order + queue, inDegree);
    }
    FinishNode(g, order + queue, |order|, inDegree);
  }

  lemma AllDrained<V(!new)>(g: Graph<V>, order: seq<V>, inDegree: map<V, nat>)
    requires Resting(g, order, |order|, inDegree)
    ensures |order| == |g.nodes| <==> Acyclic(g)
    ensures |order| == |g.nodes| ==> TopologicalOrder(g, order) && FirstReadyFirst(g, order)
  {
    assert order[..|order|] == order;
    DrainedIsOrder(g, order, inDegree);
  }

  /** The drained order, or the cycle error. */
  method Sort<V(==,!new)>(g: Graph<V>) returns (r: Result<seq<V>>)
    requires WellFormed(g)
    ensures r.Ok? <==> Acyclic(g)
    ensures r.Ok? ==> TopologicalOrder(g, r.value) && FirstReadyFirst(g, r.value)
  {
    hide *;
    var adj, inDegree := BuildTables(g);
    TablesAgree(g, adj, inDegree);
    var queue := InitialQueue(g, inDegree);
    var order: seq<V> := [];
    assert order + queue == queue;
    while queue != []
      invariant Resting(g, order + queue, |order|, inDegree)
      invariant forall v :: v in g.nodes ==> v in adj && adj[v] == Successors(g.edges, v)
      decreases |g.nodes| - |order|
    {
      var node := queue[0];
      PickNode(g, order + queue, |order|, inDegree);
      assert (order + queue)[|order|] == node;
      assert order + queue == (order + [node]) + queue[1..];
      order := order + [node];
      queue, inDegree := SettleNode(g, order, adj[node], queue[1..], inDegree);
    }
    assert order + queue == order;
    AllDrained(g, order, inDegree);
    if |order| != |g.nodes| {
      return Err("Cycle detected during topological sort");
    }
    return Ok(order);
  }

  lemma {:induction false} LastPredecessorInPrefix<V(!new)>(g: Graph<V>, out: seq<V>, i: nat, v: V)
    requires i <= |out| && forall j :: i <= j < |out| ==> !HasEdge(g, out[j], v)
    ensures LastPredecessor(g, out, v) == LastPredecessor(g, out[..i], v)
  {
    if i < |out| {
      var n := |out| - 1;
      LastPredecessorInPrefix(g, out[..n], i, v);
      assert out[..n][..i] == out[..i];
    } else {
      assert out[..i] == out;
    }
  }

  /** With equal prefixes, whoever comes next was entered only from the prefix. */
  lemma NextIsEnteredFromPrefix<V(!new)>(g: Graph<V>, a: seq<V>, b: seq<V>, n: nat, v: V)
    requires TopologicalOrder(g, a) && TopologicalOrder(g, b)
    requires n < |a| && n < |b| && a[..n] == b[..n] && (v == a[n] || v == b[n])
    ensures exists j :: n <= j < |a| && a[j] == v
    ensures LastPredecessor(g, a, v) == LastPredecessor(g, a[..n], v)
  {
    assert forall y :: 0 <= y < n ==> a[y] == a[..n][y] == b[..n][y] == b[y];
    assert v in a;
    var j :| 0 <= j < |a| && a[j] == v;
    assert j >= n;
    forall x | n <= x < |a| ensures !HasEdge(g, a[x], v) {
      assert a[x] in b;
      var y :| 0 <= y < |b| && b[y] == a[x];
      assert y >= n;
    }
    LastPredecessorInPrefix(g, a, n, v);
  }

  lemma NextIsSame<V(!new)>(g: Graph<V>, a: seq<V>, b: seq<V>, n: nat)
    requires TopologicalOrder(g, a) && FirstReadyFirst(g, a)
    requires TopologicalOrder(g, b) && FirstReadyFirst(g, b)
    requires n < |a| && n < |b| && a[..n] == b[..n]
    ensures a[n] == b[n]
  {
    hide TopologicalOrder, LastPredecessor, LastIndex, Successors;
    NextIsEnteredFromPrefix(g, a, b, n, a[n]);
    NextIsEnteredFromPrefix(g, b, a, n, a[n]);
    NextIsEnteredFromPrefix(g, a, b, n, b[n]);
    NextIsEnteredFromPrefix(g, b, a, n, b[n]);
    var j :| n <= j < |a| && a[j] == b[n];
    var k :| n <= k < |b| && b[k] == a[n];
    var p := LastPredecessor(g, a, a[n]);
    assert p >= 0 ==> a[p] == a[..n][p] == b[..n][p] == b[p];
    assert n < j ==> ReadyBefore(g, a, a[n], b[n]);
    assert n < k ==> ReadyBefore(g, b, b[n], a[n]);
  }

  /** The queue discipline leaves no freedom: the order is a function of the declared graph. */
  lemma {:induction false} SameUpTo<V(!new)>(g: Graph<V>, a: seq<V>, b: seq<V>, i: nat)
    requires TopologicalOrder(g, a) && FirstReadyFirst(g, a)
    requires TopologicalOrder(g, b) && FirstReadyFirst(g, b)
    requires i <= |a| && i <= |b|
    ensures a[..i] == b[..i]
  {
    if i == 0 {
    } else {
      SameUpTo(g, a, b, i - 1);
      NextIsSame(g, a, b, i - 1);
      assert a[..i] == a[..i - 1] + [a[i - 1]] && b[..i] == b[..i - 1] + [b[i - 1]];
    }
  }

  /** Two orders that keep the queue discipline on the same declared graph are the same order. */
  lemma OrderIsDetermined<V(!new)>(g: Graph<V>, a: seq<V>, b: seq<V>)
    requires TopologicalOrder(g, a) && FirstReadyFirst(g, a)
    requires TopologicalOrder(g, b) && FirstReadyFirst(g, b)
    ensures a == b
  {
    SameUpTo(g, a, b, |a|);
    assert a[..|a|] == a && b[..|a|] == b;
  }
}
