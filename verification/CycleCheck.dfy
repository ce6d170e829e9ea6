/** The recursive depth-first cycle check of the validator. */
module CycleCheck {
  import opened Graphs
  import opened KahnTables

  /** Everything reachable by an edge from a finished node was finished before it. */
  ghost predicate FinishedBackward<V(!new)>(g: Graph<V>, finished: seq<V>) {
    forall i, u :: 0 <= i < |finished| && HasEdge(g, finished[i], u) ==> u in finished[..i]
  }

  ghost predicate Searching<V(!new)>(g: Graph<V>, visited: set<V>, path: set<V>, finished: seq<V>, stack: seq<V>) {
    && visited == Elements(finished) && path == Elements(stack)
    && Distinct(finished) && IsWalk(g, stack)
    && visited !! path
    && visited + path <= Elements(g.nodes)
    && FinishedBackward(g, finished)
  }

  lemma CycleOnPath<V(!new)>(g: Graph<V>, stack: seq<V>, u: V)
    requires IsWalk(g, stack) && u in stack && HasEdge(g, stack[|stack| - 1], u)
    ensures !Acyclic(g)
  {
    var p := stack + [u];
    forall i | 0 <= i < |p| - 1 ensures HasEdge(g, p[i], p[i + 1]) {
      if i < |stack| - 1 { assert HasEdge(g, stack[i], stack[i + 1]); }
    }
    var i :| 0 <= i < |stack| && stack[i] == u;
    ClosedWalk(g, p, i, |stack|);
  }

  lemma FinishNext<V(!new)>(g: Graph<V>, finished: seq<V>, u: V)
    requires FinishedBackward(g, finished) && Distinct(finished) && u !in finished
    requires forall v :: v in Successors(g.edges, u) ==> v in finished
    ensures FinishedBackward(g, finished + [u]) && Distinct(finished + [u])
  {
    SuccessorsAreEdges(g.edges, u);
    var f := finished + [u];
    forall i, v | 0 <= i < |f| && HasEdge(g, f[i], v) ensures v in f[..i] {
      if i < |finished| {
        assert HasEdge(g, finished[i], v) && f[..i] == finished[..i];
      } else {
        assert f[..i] == finished;
      }
    }
  }

  /** Entering a node extends the recursion stack by it. */
  lemma Enter<V(!new)>(g: Graph<V>, visited: set<V>, path: set<V>, finished: seq<V>, stack: seq<V>, u: V)
    requires Searching(g, visited, path, finished, stack) && u in g.nodes && u !in path && u !in visited
    requires stack == [] || HasEdge(g, stack[|stack| - 1], u)
    ensures Searching(g, visited, path + {u}, finished, stack + [u])
  {
    var w := stack + [u];
    assert Elements(w) == Elements(stack) + {u};
    forall i | 0 <= i < |w| - 1 ensures HasEdge(g, w[i], w[i + 1]) {
      if i < |stack| - 1 { assert HasEdge(g, stack[i], stack[i + 1]); }
    }
  }

  /** Leaving it, with all its successors visited, finishes it. */
  lemma Leave<V(!new)>(g: Graph<V>, visited: set<V>, path: set<V>, finished: seq<V>, stack: seq<V>, u: V)
    requires Searching(g, visited, path + {u}, finished, stack + [u]) && path == Elements(stack) && u !in path
    requires forall v :: v in Successors(g.edges, u) ==> v in visited
    ensures Searching(g, visited + {u}, path, finished + [u], stack)
  {
    FinishNext(g, finished, u);
    forall i | 0 <= i < |stack| - 1 ensures HasEdge(g, stack[i], stack[i + 1]) {
      assert HasEdge(g, (stack + [u])[i], (stack + [u])[i + 1]);
    }
    assert Elements(finished + [u]) == Elements(finished) + {u};
  }

  lemma StackIsPath<V(!new)>(g: Graph<V>, visited: set<V>, path: set<V>, finished: seq<V>, stack: seq<V>)
    requires Searching(g, visited, path, finished, stack)
    ensures path == Elements(stack) && IsWalk(g, stack) && path <= Elements(g.nodes)
  {
  }

  function Reversed<V>(s: seq<V>): (r: seq<V>)
    ensures |r| == |s| && forall i :: 0 <= i < |s| ==> r[i] == s[|s| - 1 - i]
  {
    seq(|s|, i requires 0 <= i < |s| => s[|s| - 1 - i])
  }

  /** The reversed finishing order is a topological order. */
  lemma FinishedIsAcyclic<V(!new)>(g: Graph<V>, finished: seq<V>)
    requires WellFormed(g) && Distinct(finished) && FinishedBackward(g, finished)
    requires Elements(finished) == Elements(g.nodes)
    ensures TopologicalOrder(g, Reversed(finished)) && Acyclic(g)
  {
    var order := Reversed(finished);
    DistinctSize(finished);
    DistinctSize(g.nodes);
    forall v ensures v in order <==> v in g.nodes {
      assert v in g.nodes <==> v in Elements(g.nodes);
      assert v in finished <==> v in Elements(finished);
      if v in finished {
        var i :| 0 <= i < |finished| && finished[i] == v;
        assert order[|finished| - 1 - i] == v;
      }
    }
    forall i, j | 0 <= i < |order| && 0 <= j < |order| && HasEdge(g, order[i], order[j]) ensures i < j {
      var k := |finished| - 1 - i;
      assert HasEdge(g, finished[k], order[j]);
      assert order[j] in finished[..k];
    }
    OrderedIsAcyclic(g, order);
  }

  class Visitor<V(==,!new)> {
    const g: Graph<V>
    const adj: map<V, seq<V>>
    var visited: set<V>
    var path: set<V>
    /** The nodes left, in order, and the current recursion stack. */
    ghost var finished: seq<V>
    ghost var stack: seq<V>

    ghost predicate Valid()
      reads this
    {
      && WellFormed(g) && Searching(g, visited, path, finished, stack)
      && adj.Keys == Elements(g.nodes) && forall v :: v in g.nodes ==> adj[v] == Successors(g.edges, v)
    }

    constructor (g: Graph<V>, adj: map<V, seq<V>>)
      requires WellFormed(g) && adj.Keys == Elements(g.nodes)
      requires forall v :: v in g.nodes ==> adj[v] == Successors(g.edges, v)
      ensures Valid() && this.g == g && visited == {} && path == {} && stack == []
    {
      this.g, this.adj := g, adj;
      visited, path, finished, stack := {}, {}, [], [];
    }

    /** Fails only if there is a cycle; otherwise u and all it reaches end up visited and the path is restored. */
    method Visit(u: V) returns (ok: bool)
      requires Valid() && u in g.nodes
      requires stack == [] || HasEdge(g, stack[|stack| - 1], u)
      modifies this
      ensures !ok ==> !Acyclic(g)
      ensures ok ==> Valid() && path == old(path) && stack == old(stack)
      ensures ok ==> old(visited) + {u} <= visited
      decreases Elements(g.nodes) - path
    {
      hide Searching, Successors;
      StackIsPath(g, visited, path, finished, stack);
      if u in path {
        CycleOnPath(g, stack, u);
        return false;
      }
      if u in visited {
        return true;
      }
      ghost var before := stack;
      Enter(g, visited, path, finished, stack, u);
      path, stack := path + {u}, stack + [u];
      ghost var here := stack;
      for k := 0 to |adj[u]|
        invariant Valid() && stack == here && path == old(path) + {u} && old(visited) <= visited
        invariant forall i :: 0 <= i < k ==> adj[u][i] in visited
      {
        SuccessorsAreEdges(g.edges, u);
        assert HasEdge(g, u, adj[u][k]);
        var sub := Visit(adj[u][k]);
        if !sub {
          return false;
        }
      }
      Leave(g, visited, old(path), finished, before, u);
      path, stack := path - {u}, before;
      assert path == old(path);
      visited, finished := visited + {u}, finished + [u];
      return true;
    }
  }

  /** Accepts a graph if and only if it has no cycle. */
  method Accepts<V(==,!new)>(g: Graph<V>) returns (ok: bool)
    requires WellFormed(g)
    ensures ok <==> Acyclic(g)
  {
    var adj, _ := BuildTables(g);
    var search := new Visitor(g, adj);
    for i := 0 to |g.nodes|
      invariant search.Valid() && search.g == g && search.stack == []
      invariant forall k :: 0 <= k < i ==> g.nodes[k] in search.visited
    {
      if g.nodes[i] !in search.visited {
        var sub := search.Visit(g.nodes[i]);
        if !sub {
          return false;
        }
      }
    }
    assert Elements(search.finished) == Elements(g.nodes);
    FinishedIsAcyclic(g, search.finished);
    return true;
  }
}
