/** A compiled process meets what the runtimes rely on. */
module EndToEnd {
  import opened Graphs
  import opened Modules
  import opened Compiler
  import Loop = OrchestratorSpec
  import Chain = LinearSpec

  type NodeName = string

  /** The edges into n, in order. */
  function Into<E(!new)>(edges: seq<(NodeName, E)>, n: NodeName): (r: seq<E>)
    ensures forall e :: e in r <==> (n, e) in edges
  {
    if edges == [] then []
    else
      var k := |edges| - 1;
      assert edges == edges[..k] + [edges[k]];
      assert edges[k] == (edges[k].0, edges[k].1);
      Into(edges[..k], n) + (if edges[k].0 == n then [edges[k].1] else [])
  }

  lemma IntoNothing<E(!new)>(edges: seq<(NodeName, E)>, n: NodeName)
    ensures Into(edges[..0], n) == []
  {
  }

  lemma IntoNext<E(!new)>(edges: seq<(NodeName, E)>, i: nat, n: NodeName)
    requires i < |edges|
    ensures Into(edges[..i + 1], n) == Into(edges[..i], n) + (if n == edges[i].0 then [edges[i].1] else [])
  {
    assert edges[..i + 1][..i] == edges[..i];
  }

  /** These are the edges of the list that lead to n, each once and in the list's order. */
  ghost predicate LeadInOrder<E(!new)>(edges: seq<(NodeName, E)>, n: NodeName, into: seq<E>, origin: seq<nat>) {
    && |origin| == |into| && (forall i, j :: 0 <= i < j < |origin| ==> origin[i] < origin[j])
    && (forall i :: 0 <= i < |origin| ==> origin[i] < |edges| && edges[origin[i]] == (n, into[i]))
    && forall k: nat :: k < |edges| && edges[k].0 == n ==> k in origin
  }

  lemma {:induction false} IntoKeepsOrder<E(!new)>(edges: seq<(NodeName, E)>, n: NodeName) returns (origin: seq<nat>)
    ensures LeadInOrder(edges, n, Into(edges, n), origin)
  {
    if edges == [] {
      origin := [];
    } else {
      hide LeadInOrder;
      var k := |edges| - 1;
      assert edges == edges[..k] + [edges[k]];
      var before := IntoKeepsOrder(edges[..k], n);
      if edges[k].0 == n {
        origin := before + [k];
        OneMoreLeads(edges[..k], edges[k], n, Into(edges[..k], n), before);
      } else {
        origin := before;
        NoMoreLeads(edges[..k], edges[k], n, Into(edges[..k], n), before);
        assert Into(edges, n) == Into(edges[..k], n);
      }
    }
  }

  lemma OneMoreLeads<E(!new)>(edges: seq<(NodeName, E)>, e: (NodeName, E), n: NodeName, into: seq<E>, origin: seq<nat>)
    requires LeadInOrder(edges, n, into, origin) && e.0 == n
    ensures LeadInOrder(edges + [e], n, into + [e.1], origin + [|edges|])
  {
    var longer, all := origin + [|edges|], edges + [e];
    forall k: nat | k < |all| && all[k].0 == n ensures k in longer {
      if k < |edges| {
        assert edges[k].0 == n && k in origin;
        var i :| 0 <= i < |origin| && origin[i] == k;
        assert longer[i] == k;
      } else {
        assert longer[|origin|] == k;
      }
    }
  }

  lemma NoMoreLeads<E(!new)>(edges: seq<(NodeName, E)>, e: (NodeName, E), n: NodeName, into: seq<E>, origin: seq<nat>)
    requires LeadInOrder(edges, n, into, origin) && e.0 != n
    ensures LeadInOrder(edges + [e], n, into, origin)
  {
    var all := edges + [e];
    forall k: nat | k < |all| && all[k].0 == n ensures k in origin { assert edges[k].0 == n; }
  }

  /** The constructor's grouping of the resolved edges by target. */
  method GroupIncoming<E(!new)>(nodes: seq<NodeName>, edges: seq<(NodeName, E)>)
    returns (incoming: map<NodeName, seq<E>>)
    requires forall e :: e in edges ==> e.0 in nodes
    ensures incoming.Keys == Elements(nodes)
    ensures forall n :: n in nodes ==> n in incoming && incoming[n] == Into(edges, n)
  {
    hide Into;
    forall n ensures Into(edges[..0], n) == [] { IntoNothing(edges, n); }
    incoming := map n | n in nodes :: [];
    for i := 0 to |edges|
      invariant incoming.Keys == Elements(nodes)
      invariant forall n :: n in nodes ==> n in incoming && incoming[n] == Into(edges[..i], n)
    {
      var (target, edge) := edges[i];
      assert edges[i] in edges;
      forall n ensures Into(edges[..i + 1], n) == Into(edges[..i], n) + (if n == target then [edge] else []) {
        IntoNext(edges, i, n);
      }
      incoming := incoming[target := incoming[target] + [edge]];
    }
    assert edges[..|edges|] == edges;
  }

  /** The flat names a compiled process gives its nodes; different nodes get different names. */
  ghost predicate Naming(g: Graph<FlatName>, name: FlatName -> NodeName) {
    forall u, v :: u in g.nodes && v in g.nodes && name(u) == name(v) ==> u == v
  }

  function NamedAll(order: seq<FlatName>, name: FlatName -> NodeName): (r: seq<NodeName>)
    ensures |r| == |order| && forall i :: 0 <= i < |order| ==> r[i] == name(order[i])
  {
    seq(|order|, i requires 0 <= i < |order| => name(order[i]))
  }

  /** The node a run starts from: the trigger, or the entrance of the instance that is the trigger. */
  function TriggerNode(p: Process): FlatName {
    TargetPort(p.top, [], p.trigger)
  }

  /** Whatever leads into a node comes from the source of an edge of the graph into it. */
  ghost predicate Follows(g: Graph<FlatName>, name: FlatName -> NodeName, n: NodeName, sources: set<NodeName>) {
    forall s :: s in sources ==> exists e :: e in g.edges && name(e.target) == n && name(e.source) == s
  }

  function LoopSource(e: Loop.InEdge): NodeName { e.source }

  function ChainSource(e: Chain.ChainEdge): NodeName { e.plain.source }

  function LoopSources(edges: seq<Loop.InEdge>): set<NodeName> { set e | e in edges :: e.source }

  function ChainSources(edges: seq<Chain.ChainEdge>): set<NodeName> { set e | e in edges :: e.plain.source }

  lemma TriggerIsNoTarget(p: Process)
    requires Validated(p)
    ensures forall le :: le in p.top.edges ==> le.target != p.trigger
  {
  }

  lemma OnlyTopLevelMeets(path: seq<Name>, x: Name, y: Name)
    requires path + [x] == [] + [y]
    ensures path == [] && x == y
  {
    assert |path + [x]| == |path| + 1 && |[] + [y]| == 1;
    assert (path + [x])[|path|] == x;
  }

  /** Nothing leads into the node a run starts from. */
  lemma NothingPrecedesTheTrigger(p: Process, g: Graph<FlatName>, e: Edge<FlatName>)
    requires Declared(p) && Validated(p) && Unfolds(p, g) && e in g.edges
    ensures e.target != TriggerNode(p)
  {
    hide Declared, Validated, KindIn, IsFlatNode;
    TriggerIsNoTarget(p);
    assert IsFlatEdge(p, e);
    var path :| IsEdgeOf(p, path, e);
    var d := DefinitionOf(p, ScopeAt(p, path).value);
    if le :| FromEdge(d, path, le, e) {
      if e.target.path == TriggerNode(p).path {
        OnlyTopLevelMeets(path, le.target, p.trigger);
      }
    } else {
      var o :| FromOutput(d, path, o, e);
    }
  }

  lemma PrecedingNode(g: Graph<FlatName>, order: seq<FlatName>, name: FlatName -> NodeName, i: nat, e: Edge<FlatName>)
    requires WellFormed(g) && TopologicalOrder(g, order) && Naming(g, name) && i < |order|
    requires e in g.edges && name(e.target) == name(order[i])
    ensures e.target == order[i] && name(e.source) in NamedAll(order, name)[..i]
  {
    assert order[i] in order;
    assert HasEdge(g, e.source, e.target);
    assert e.source in g.nodes && e.target in g.nodes && e.target == order[i];
    var k := PositionIn(order, e.source);
    assert NamedAll(order, name)[..i][k] == name(e.source);
  }

  ghost function PositionIn(order: seq<FlatName>, v: FlatName): (k: nat)
    requires v in order
    ensures k < |order| && order[k] == v
  {
    if order[0] == v then 0 else PositionIn(order[1..], v) + 1
  }

  lemma NamesStayDistinct(g: Graph<FlatName>, order: seq<FlatName>, name: FlatName -> NodeName)
    requires WellFormed(g) && TopologicalOrder(g, order) && Naming(g, name)
    ensures Distinct(NamedAll(order, name))
  {
    forall i, j | 0 <= i < j < |order| ensures name(order[i]) != name(order[j]) {
      assert order[i] in order && order[j] in order;
    }
  }

  lemma TriggerIsNode(p: Process, c: Compiled)
    requires Declared(p) && Validated(p) && Unfolds(p, c.graph) && TopologicalOrder(c.graph, c.order)
    ensures TriggerNode(p) in c.graph.nodes && TriggerNode(p) in c.order
  {
    var v := TriggerNode(p);
    assert v.path[..0] == [];
    assert IsFlatNode(p, v);
  }

  /** A start node has no sources, and every node's sources come before it. */
  lemma SourcesComeFirst(p: Process, c: Compiled, name: FlatName -> NodeName, i: nat, sources: set<NodeName>)
    requires Declared(p) && Validated(p) && Unfolds(p, c.graph) && WellFormed(c.graph)
      && TopologicalOrder(c.graph, c.order)
    requires Naming(c.graph, name) && i < |c.order| && Follows(c.graph, name, name(c.order[i]), sources)
    ensures forall s :: s in sources ==> s in NamedAll(c.order, name)[..i]
    ensures c.order[i] == TriggerNode(p) ==> sources == {}
  {
    hide Unfolds, Validated, Declared, Naming, TopologicalOrder, WellFormed, TriggerNode;
    forall s | s in sources ensures s in NamedAll(c.order, name)[..i] && c.order[i] != TriggerNode(p) {
      var e :| e in c.graph.edges && name(e.target) == name(c.order[i]) && name(e.source) == s;
      PrecedingNode(c.graph, c.order, name, i, e);
      NothingPrecedesTheTrigger(p, c.graph, e);
    }
  }

  lemma NoSourcesNoEdges(edges: seq<Loop.InEdge>)
    ensures LoopSources(edges) == {} ==> edges == []
  {
    if edges != [] { assert edges[0].source in LoopSources(edges); }
  }

  lemma NoLinksNoEdges(edges: seq<Chain.ChainEdge>)
    ensures ChainSources(edges) == {} ==> edges == []
  {
    if edges != [] { assert edges[0].plain.source in ChainSources(edges); }
  }

  lemma TriggerPosition(p: Process, c: Compiled, name: FlatName -> NodeName) returns (i: nat)
    requires Declared(p) && Validated(p) && Unfolds(p, c.graph) && TopologicalOrder(c.graph, c.order)
    ensures i < |c.order| && c.order[i] == TriggerNode(p) && NamedAll(c.order, name)[i] == name(TriggerNode(p))
  {
    TriggerIsNode(p, c);
    i := PositionIn(c.order, TriggerNode(p));
  }

  // ------------------------------------------------------------------ resolved edges

  /** The resolved edges are the graph's edges in order, under their nodes' names; what else they carry is free. */
  ghost predicate Resolves<E>(g: Graph<FlatName>, name: FlatName -> NodeName, edges: seq<(NodeName, E)>,
                              source: E -> NodeName)
  {
    |edges| == |g.edges| && forall i :: 0 <= i < |edges| ==>
      edges[i].0 == name(g.edges[i].target) && source(edges[i].1) == name(g.edges[i].source)
  }

  /** Grouped by target, they lead into each node from exactly the nodes the graph has before it. */
  lemma GroupedEdgesFollow<E(!new)>(g: Graph<FlatName>, name: FlatName -> NodeName, edges: seq<(NodeName, E)>,
                                    source: E -> NodeName, n: NodeName, e: E)
    requires Resolves(g, name, edges, source) && e in Into(edges, n)
    ensures exists f :: f in g.edges && name(f.target) == n && name(f.source) == source(e)
  {
    var i :| 0 <= i < |edges| && edges[i] == (n, e);
    assert g.edges[i] in g.edges;
  }

  lemma LoopFollows(g: Graph<FlatName>, name: FlatName -> NodeName, edges: seq<(NodeName, Loop.InEdge)>, n: NodeName)
    requires Resolves(g, name, edges, LoopSource)
    ensures Follows(g, name, n, LoopSources(Into(edges, n)))
  {
    forall s | s in LoopSources(Into(edges, n))
      ensures exists f :: f in g.edges && name(f.target) == n && name(f.source) == s
    {
      var e :| e in Into(edges, n) && e.source == s;
      GroupedEdgesFollow(g, name, edges, LoopSource, n, e);
    }
  }

  lemma ChainFollows(g: Graph<FlatName>, name: FlatName -> NodeName, edges: seq<(NodeName, Chain.ChainEdge)>,
                     n: NodeName)
    requires Resolves(g, name, edges, ChainSource)
    ensures Follows(g, name, n, ChainSources(Into(edges, n)))
  {
    forall s | s in ChainSources(Into(edges, n))
      ensures exists f :: f in g.edges && name(f.target) == n && name(f.source) == s
    {
      var e :| e in Into(edges, n) && e.plain.source == s;
      GroupedEdgesFollow(g, name, edges, ChainSource, n, e);
    }
  }

  lemma TargetsAreNodes<E>(g: Graph<FlatName>, order: seq<FlatName>, name: FlatName -> NodeName,
                           edges: seq<(NodeName, E)>, source: E -> NodeName)
    requires WellFormed(g) && TopologicalOrder(g, order) && Resolves(g, name, edges, source)
    ensures forall e :: e in edges ==> e.0 in NamedAll(order, name)
  {
    forall e | e in edges ensures e.0 in NamedAll(order, name) {
      var i :| 0 <= i < |edges| && edges[i] == e;
      assert g.edges[i] in g.edges && g.edges[i].target in order;
      var k := PositionIn(order, g.edges[i].target);
      assert NamedAll(order, name)[k] == e.0;
    }
  }

  // ------------------------------------------------------------------ what the runtimes start from

  /** What compile_process guarantees of a validated process. */
  ghost predicate CompiledFrom(p: Process, c: Compiled) {
    && Declared(p) && Validated(p) && Unfolds(p, c.graph) && WellFormed(c.graph) && TopologicalOrder(c.graph, c.order)
  }

  /** Every process that compiles can be run by the orchestrator: the tables grouped from the resolved edges meet
      what the orchestrator's theorems assume. */
  lemma CompiledProcessRuns(p: Process, c: Compiled, name: FlatName -> NodeName, edges: seq<(NodeName, Loop.InEdge)>,
                            ir: Loop.IR)
    requires CompiledFrom(p, c) && Naming(c.graph, name) && Resolves(c.graph, name, edges, LoopSource)
    requires ir.order == NamedAll(c.order, name) && ir.trigger == name(TriggerNode(p))
    requires ir.incoming.Keys == ir.specs.Keys == Elements(ir.order)
    requires forall n :: n in ir.incoming ==> ir.incoming[n] == Into(edges, n)
    ensures Loop.Compiled(ir)
  {
    hide Unfolds, Validated, Declared, Naming, TopologicalOrder, WellFormed, TriggerNode, Follows, Resolves;
    NamesStayDistinct(c.graph, c.order, name);
    var t := TriggerPosition(p, c, name);
    forall i | 0 <= i < |ir.order|
      ensures ir.order[i] in ir.incoming && Loop.SourcesIn(ir.incoming[ir.order[i]], ir.order[..i])
      ensures i == t ==> ir.incoming[ir.order[i]] == []
    {
      assert ir.order[i] in Elements(ir.order);
      var into := ir.incoming[ir.order[i]];
      LoopFollows(c.graph, name, edges, ir.order[i]);
      SourcesComeFirst(p, c, name, i, LoopSources(into));
      forall e | e in into ensures e.source in ir.order[..i] { assert e.source in LoopSources(into); }
      NoSourcesNoEdges(into);
    }
  }

  /** And by the linear runtime, which picks each node's incoming edges from the resolved edges in order. */
  lemma CompiledChainRuns(p: Process, c: Compiled, name: FlatName -> NodeName, edges: seq<(NodeName, Chain.ChainEdge)>,
                          cfg: Chain.Config)
    requires CompiledFrom(p, c) && Naming(c.graph, name) && Resolves(c.graph, name, edges, ChainSource)
    requires cfg.order == NamedAll(c.order, name) && cfg.trigger == name(TriggerNode(p))
    requires cfg.incoming.Keys == cfg.specs.Keys == Elements(cfg.order)
    requires forall n :: n in cfg.incoming ==> cfg.incoming[n] == Into(edges, n)
    requires forall n :: n in cfg.specs ==> cfg.specs[n].maxAttempts >= 1
    ensures Chain.Compiled(cfg) && cfg.incoming[cfg.trigger] == []
  {
    hide Unfolds, Validated, Declared, Naming, TopologicalOrder, WellFormed, TriggerNode, Follows, Resolves;
    NamesStayDistinct(c.graph, c.order, name);
    var t := TriggerPosition(p, c, name);
    forall i | 0 <= i < |cfg.order|
      ensures cfg.order[i] in cfg.incoming && Chain.SourcesIn(cfg.incoming[cfg.order[i]], cfg.order[..i])
      ensures i == t ==> cfg.incoming[cfg.order[i]] == []
    {
      assert cfg.order[i] in Elements(cfg.order);
      var into := cfg.incoming[cfg.order[i]];
      ChainFollows(c.graph, name, edges, cfg.order[i]);
      SourcesComeFirst(p, c, name, i, ChainSources(into));
      forall e | e in into ensures e.plain.source in cfg.order[..i] { assert e.plain.source in ChainSources(into); }
      NoLinksNoEdges(into);
    }
  }

  /** The orchestrator's constructor, on a compiled process. */
  method NewOrchestrator(p: Process, c: Compiled, name: FlatName -> NodeName, edges: seq<(NodeName, Loop.InEdge)>,
                         specs: map<NodeName, Loop.NodeSpec>)
    returns (ir: Loop.IR)
    requires CompiledFrom(p, c) && Naming(c.graph, name) && Resolves(c.graph, name, edges, LoopSource)
    requires specs.Keys == Elements(NamedAll(c.order, name))
    ensures Loop.Compiled(ir) && ir.order == NamedAll(c.order, name) && ir.trigger == name(TriggerNode(p))
      && ir.specs == specs
    ensures forall n :: n in ir.order ==> n in ir.incoming && ir.incoming[n] == Into(edges, n)
  {
    hide Unfolds, Validated, Declared, Naming, TopologicalOrder, WellFormed, TriggerNode, Resolves, Loop.Compiled, Into;
    var order := NamedAll(c.order, name);
    TargetsAreNodes(c.graph, c.order, name, edges, LoopSource);
    var incoming := GroupIncoming(order, edges);
    ir := Loop.IR(order, name(TriggerNode(p)), incoming, specs);
    CompiledProcessRuns(p, c, name, edges, ir);
  }
}
