/** Compiling a process: resolve the modules, check every graph, unfold the instances, sort. */
module Compiler {
  import opened Graphs
  import opened Wrappers
  import opened Modules
  import opened Defects
  import opened FlatDependencies
  import opened Unfolding
  import opened FlatOrder
  import CycleCheck
  import TopologicalSort

  // ------------------------------------------------------------------ validation

  /** The checks made on one graph before its cycles are looked for. */
  method ReferencesResolve(d: Definition) returns (ok: bool)
    ensures ok <==> Resolved(d)
  {
    for i := 0 to |d.children|
      invariant forall k :: 0 <= k < i ==> !d.children[k].kind.Unknown?
    {
      if d.children[i].kind.Unknown? {
        assert d.children[i] in d.children;
        return false;
      }
    }
    for i := 0 to |d.edges|
      invariant forall k :: 0 <= k < i ==>
        d.edges[k].target in Names(d) && (d.edges[k].source.Local? ==> d.edges[k].source.name in Names(d))
    {
      var e := d.edges[i];
      assert e in d.edges;
      if e.target !in Names(d) || (e.source.Local? && e.source.name !in Names(d)) {
        return false;
      }
    }
    for i := 0 to |d.outputs|
      invariant forall k :: 0 <= k < i ==> (d.outputs[k].Local? ==> d.outputs[k].name in Names(d))
    {
      assert d.outputs[i] in d.outputs;
      if d.outputs[i].Local? && d.outputs[i].name !in Names(d) {
        return false;
      }
    }
    return true;
  }

  ghost predicate GraphOk(d: Definition) {
    Resolved(d) && Acyclic(LocalGraph(d))
  }

  method ValidateGraph(d: Definition) returns (ok: bool)
    requires Distinct(Names(d))
    ensures ok <==> GraphOk(d)
  {
    ok := ReferencesResolve(d);
    if ok {
      NodeEdgesAre(d.edges);
      ok := CycleCheck.Accepts(LocalGraph(d));
    }
  }

  /** The process graph also needs a trigger that nothing leads into, and no `__input__`. */
  method ValidateTop(p: Process) returns (ok: bool)
    requires Declared(p)
    ensures ok <==> GraphOk(p.top) && p.trigger in Names(p.top)
                    && forall e :: e in p.top.edges ==> e.source.Local? && e.target != p.trigger
  {
    if p.trigger !in Names(p.top) {
      return false;
    }
    for i := 0 to |p.top.edges|
      invariant forall k :: 0 <= k < i ==> p.top.edges[k].source.Local? && p.top.edges[k].target != p.trigger
    {
      assert p.top.edges[i] in p.top.edges;
      if p.top.edges[i].source.Input? || p.top.edges[i].target == p.trigger {
        return false;
      }
    }
    ok := ValidateGraph(p.top);
  }

  // ------------------------------------------------------------------ module resolution

  ghost predicate ModulesOk(p: Process) {
    Acyclic(DependencyGraph(p)) && forall k :: k in p.modules ==> GraphOk(p.modules[k])
  }

  class Resolver {
    const p: Process
    var resolving: set<Name>
    /** Keys of resolved_modules, in insertion order. */
    var resolved: seq<Name>
    ghost var stack: seq<Name>

    ghost predicate Valid()
      reads this
    {
      && Declared(p)
      && CycleCheck.Searching(DependencyGraph(p), Elements(resolved), resolving, resolved, stack)
      && forall k :: k in resolved ==> k in p.modules && GraphOk(p.modules[k])
    }

    constructor (p: Process)
      requires Declared(p)
      ensures Valid() && this.p == p && resolved == [] && stack == [] && resolving == {}
    {
      this.p := p;
      resolving, resolved, stack := {}, [], [];
    }

    /** Resolves the modules k needs, then k itself, leaving everything resolved earlier in place. */
    method Resolve(k: Name) returns (ok: bool)
      requires Valid() && k in p.modules
      requires stack == [] || HasEdge(DependencyGraph(p), stack[|stack| - 1], k)
      modifies this
      ensures !ok ==> !ModulesOk(p)
      ensures ok ==> Valid() && resolving == old(resolving) && stack == old(stack)
      ensures ok ==> old(resolved) <= resolved && k in resolved
      decreases p.modules.Keys - resolving
    {
      hide DependencyGraph, GraphOk, Declared, HasEdge, Acyclic, IsWalk, CycleCheck.FinishedBackward;
      if k in resolved {
        return true;
      }
      if k in resolving {
        CycleCheck.CycleOnPath(DependencyGraph(p), stack, k);
        return false;
      }
      ghost var before := stack;
      StartResolving(p, stack, k);
      resolving, stack := resolving + {k}, stack + [k];
      ghost var here := stack;
      var d := p.modules[k];
      for i := 0 to |d.children|
        invariant Valid() && stack == here && resolving == old(resolving) + {k} && old(resolved) <= resolved
        invariant forall j :: 0 <= j < i && d.children[j].kind.Instance? ==> d.children[j].kind.key in resolved
      {
        if d.children[i].kind.Instance? {
          DependsOnChild(p, k, i);
          var sub := Resolve(d.children[i].kind.key);
          if !sub {
            return false;
          }
        }
      }
      var good := ValidateGraph(d);
      if !good {
        return false;
      }
      Finish(p, resolved, k);
      resolving, stack := resolving - {k}, before;
      assert resolving == old(resolving);
      resolved := resolved + [k];
      return true;
    }
  }

  lemma StartResolving(p: Process, stack: seq<Name>, k: Name)
    requires Declared(p) && k in p.modules && IsWalk(DependencyGraph(p), stack)
    requires stack == [] || HasEdge(DependencyGraph(p), stack[|stack| - 1], k)
    ensures IsWalk(DependencyGraph(p), stack + [k]) && Elements(stack + [k]) == Elements(stack) + {k}
    ensures Elements(DependencyGraph(p).nodes) == p.modules.Keys
    ensures Distinct(Names(p.modules[k]))
  {
    hide DependencyGraph;
    assert DeclaredGraph(p, p.modules[k]);
    KeysAreNodes(p);
    var g, w := DependencyGraph(p), stack + [k];
    forall i | 0 <= i < |w| - 1 ensures HasEdge(g, w[i], w[i + 1]) {
      if i < |stack| - 1 { assert HasEdge(g, stack[i], stack[i + 1]); }
    }
  }

  lemma KeysAreNodes(p: Process)
    ensures DependencyGraph(p).nodes == p.keys
  {
  }

  lemma DependsOnChild(p: Process, k: Name, i: nat)
    requires Declared(p) && k in p.modules && i < |p.modules[k].children| && p.modules[k].children[i].kind.Instance?
    ensures p.modules[k].children[i].kind.key in p.modules
    ensures HasEdge(DependencyGraph(p), k, p.modules[k].children[i].kind.key)
  {
    var d := p.modules[k];
    assert DeclaredGraph(p, d) && d.children[i] in d.children;
    DependenciesAre(p);
    assert Uses(d, d.children[i].kind.key);
  }

  lemma Finish(p: Process, resolved: seq<Name>, k: Name)
    requires Declared(p) && k in p.modules && k !in resolved
    requires CycleCheck.FinishedBackward(DependencyGraph(p), resolved) && Distinct(resolved)
    requires forall c :: c in p.modules[k].children && c.kind.Instance? ==> c.kind.key in resolved
    ensures CycleCheck.FinishedBackward(DependencyGraph(p), resolved + [k]) && Distinct(resolved + [k])
    ensures Elements(resolved + [k]) == Elements(resolved) + {k}
  {
    var g := DependencyGraph(p);
    DependenciesAre(p);
    var f := resolved + [k];
    forall i, v | 0 <= i < |f| && HasEdge(g, f[i], v) ensures v in f[..i] {
      if i < |resolved| {
        assert HasEdge(g, resolved[i], v) && f[..i] == resolved[..i];
      } else {
        assert f[..i] == resolved;
        var d := p.modules[k];
        var j :| 0 <= j < |d.children| && d.children[j].kind == Instance(v);
        assert d.children[j] in d.children;
      }
    }
  }

  /** What a module instantiates was resolved before it. */
  lemma NeededEarlier(p: Process, resolved: seq<Name>, i: nat)
    requires Declared(p) && i < |resolved| && resolved[i] in p.modules
    requires CycleCheck.FinishedBackward(DependencyGraph(p), resolved)
    ensures KeysBelow(p.modules[resolved[i]].children, resolved, i)
  {
    hide DependencyGraph, Declared;
    var d := p.modules[resolved[i]];
    forall c | c in d.children && c.kind.Instance? ensures c.kind.key in resolved[..i] {
      var j :| 0 <= j < |d.children| && d.children[j] == c;
      DependsOnChild(p, resolved[i], j);
      assert HasEdge(DependencyGraph(p), resolved[i], c.kind.key);
    }
  }

  /** The order in which the modules were resolved. */
  lemma ResolvedIsRanked(p: Process, resolved: seq<Name>)
    requires Declared(p) && Distinct(resolved) && Elements(resolved) == p.modules.Keys
    requires CycleCheck.FinishedBackward(DependencyGraph(p), resolved)
    ensures Ranked(p, resolved) && Acyclic(DependencyGraph(p))
    ensures KeysBelow(p.top.children, resolved, |resolved|)
  {
    DependenciesAre(p);
    CycleCheck.FinishedIsAcyclic(DependencyGraph(p), resolved);
    hide DependencyGraph, Declared;
    forall i | 0 <= i < |resolved|
      ensures resolved[i] in p.modules && KeysBelow(p.modules[resolved[i]].children, resolved, i)
    {
      assert resolved[i] in Elements(resolved);
      NeededEarlier(p, resolved, i);
    }
    assert resolved[..|resolved|] == resolved;
    forall c | c in p.top.children && c.kind.Instance? ensures c.kind.key in resolved {
      assert c.kind.key in Elements(resolved);
    }
  }

  method ValidateModules(p: Process) returns (r: Result<seq<Name>>)
    requires Declared(p)
    ensures r.Ok? <==> ModulesOk(p)
    ensures r.Ok? ==> Ranked(p, r.value) && KeysBelow(p.top.children, r.value, |r.value|)
  {
    hide DependencyGraph, GraphOk, Acyclic, CycleCheck.FinishedBackward, Ranked, KeysBelow;
    var resolver := new Resolver(p);
    for i := 0 to |p.keys|
      invariant resolver.Valid() && resolver.p == p && resolver.stack == []
      invariant forall j :: 0 <= j < i ==> p.keys[j] in resolver.resolved
    {
      assert p.keys[i] in Elements(p.keys);
      var ok := resolver.Resolve(p.keys[i]);
      if !ok {
        return Err("module validation failed");
      }
    }
    assert Elements(resolver.resolved) == p.modules.Keys;
    ResolvedIsRanked(p, resolver.resolved);
    return Ok(resolver.resolved);
  }

  // ------------------------------------------------------------------ inlining

  /** No flat node already made lies at or below path. */
  ghost predicate Fresh(nodes: seq<FlatName>, path: seq<Name>) {
    forall v :: v in nodes ==> !(path <= v.path)
  }

  /** No flat node lies below one of the children. */
  ghost predicate NoneBelow(nodes: seq<FlatName>, path: seq<Name>, children: seq<Child>) {
    forall v :: v in nodes ==> !Below(path, children, v.path)
  }

  /** Both ends of every edge are among the nodes. */
  ghost predicate EndsIn(edges: seq<Edge<FlatName>>, nodes: seq<FlatName>) {
    forall e :: e in edges ==> e.source in nodes && e.target in nodes
  }

  class Inliner {
    const p: Process
    ghost const ranking: seq<Name>
    /** Keys of final_nodes in insertion order, and final_edges. */
    var nodes: seq<FlatName>
    var edges: seq<Edge<FlatName>>

    constructor (p: Process, ghost ranking: seq<Name>)
      ensures this.p == p && this.ranking == ranking && nodes == [] && edges == []
    {
      this.p, this.ranking := p, ranking;
      nodes, edges := [], [];
    }

    /** Writing a dictionary entry: an existing key would keep its place. */
    method Put(v: FlatName)
      modifies this`nodes
      ensures nodes == if v in old(nodes) then old(nodes) else old(nodes) + [v]
    {
      if v !in nodes {
        nodes := nodes + [v];
      }
    }

    /** The edges of one graph, ends looked up in final_nodes, which therefore has to hold them. */
    method AddOwnEdges(path: seq<Name>, d: Definition)
      requires EndsIn(OwnEdges(d, path), nodes)
      modifies this`edges
      ensures edges == old(edges) + OwnEdges(d, path)
    {
      OwnEdgesListed(d, path);
      hide OwnEdges, SourcePort, TargetPort;
      for i := 0 to |d.edges|
        invariant edges == old(edges) + EdgesOf(d, path, i)
      {
        var e := Edge(SourcePort(d, path, d.edges[i].source), TargetPort(d, path, d.edges[i].target));
        assert e == EdgesOf(d, path, |d.edges|)[i];
        assert e.source in nodes && e.target in nodes;
        edges := edges + [e];
        assert EdgesOf(d, path, i + 1) == EdgesOf(d, path, i) + [e];
      }
      ghost var withEdges := edges;
      for i := 0 to |d.outputs|
        invariant edges == withEdges + OutputsOf(d, path, i)
      {
        var e := Edge(SourcePort(d, path, d.outputs[i]), FlatName(path, Exit));
        assert e == OutputsOf(d, path, |d.outputs|)[i];
        assert e.source in nodes && e.target in nodes;
        edges := edges + [e];
        assert OutputsOf(d, path, i + 1) == OutputsOf(d, path, i) + [e];
      }
    }

    /** The two ends of an instance that is not there yet. */
    method PutEnds(path: seq<Name>)
      requires FlatName(path, Entrance) !in nodes && FlatName(path, Exit) !in nodes
      modifies this`nodes
      ensures nodes == old(nodes) + [FlatName(path, Entrance), FlatName(path, Exit)]
    {
      Put(FlatName(path, Entrance));
      Put(FlatName(path, Exit));
    }

    /** Adds the whole instance: both ends, everything inside, then its own edges. */
    method InlineModule(path: seq<Name>, k: Name)
      requires Declared(p) && Validated(p) && Ranked(p, ranking) && k in ranking
      requires path != [] && ScopeAt(p, path) == Some(Body(k)) && Fresh(nodes, path)
      modifies this
      ensures nodes == old(nodes) + InstanceNodes(p, ranking, path, k)
      ensures edges == old(edges) + InstanceEdges(p, ranking, path, k)
      decreases Rank(ranking, k), 1
    {
      InstanceUnfolds(p, ranking, path, k);
      var d := p.modules[k];
      assert d == DefinitionOf(p, Body(k));
      FreshIsNew(nodes, path, Entrance);
      FreshIsNew(nodes, path, Exit);
      NothingBelow(nodes, path, d.children);
      OwnEndsPresent(p, ranking, path, k, nodes);
      hide *;
      PutEnds(path);
      InlineChildren(path, Body(k), Rank(ranking, k));
      Together(old(nodes), [FlatName(path, Entrance), FlatName(path, Exit)],
               ChildNodes(p, ranking, path, d.children, Rank(ranking, k)));
      AddOwnEdges(path, d);
      Together(old(edges), ChildEdges(p, ranking, path, d.children, Rank(ranking, k)), OwnEdges(d, path));
    }

    /** Adds the nodes of one graph in declaration order, unfolding instances as they come. */
    method InlineChildren(path: seq<Name>, s: Scope, ghost bound: nat)
      requires Declared(p) && Validated(p) && Ranked(p, ranking)
      requires ScopeAt(p, path) == Some(s) && KeysBelow(DefinitionOf(p, s).children, ranking, bound)
      requires NoneBelow(nodes, path, DefinitionOf(p, s).children)
      modifies this
      ensures nodes == old(nodes) + ChildNodes(p, ranking, path, DefinitionOf(p, s).children, bound)
      ensures edges == old(edges) + ChildEdges(p, ranking, path, DefinitionOf(p, s).children, bound)
      decreases bound, 0
    {
      hide Declared, Validated, ScopeAt, Ranked, ChildNodes, ChildEdges, NoneBelow, KeysBelow, Distinct, KindIn, Fresh;
      var children := DefinitionOf(p, s).children;
      NamesAreDistinct(p, path, s);
      NoChildren(p, ranking, path, children, bound);
      for i := 0 to |children|
        invariant KeysBelow(children[..i], ranking, bound)
        invariant nodes == old(nodes) + ChildNodes(p, ranking, path, children[..i], bound)
        invariant edges == old(edges) + ChildEdges(p, ranking, path, children[..i], bound)
      {
        var c := children[i];
        PrefixBelow(children, ranking, bound, i);
        NextChildIsFresh(p, ranking, path, s, i, bound, old(nodes));
        InstanceChild(p, path, s, i);
        OneMoreChild(p, ranking, path, children, bound, i);
        if c.kind.Instance? {
          KeyIsBelow(p, ranking, c.kind.key, bound);
          InlineModule(path + [c.name], c.kind.key);
        } else {
          FreshIsNew(nodes, path + [c.name], Plain);
          Put(FlatName(path + [c.name], Plain));
        }
      }
      assert children[..|children|] == children;
    }
  }

  lemma Together<T>(a: seq<T>, b: seq<T>, c: seq<T>)
    ensures a + b + c == a + (b + c)
  {
  }

  lemma InstanceUnfolds(p: Process, resolved: seq<Name>, path: seq<Name>, k: Name)
    requires Ranked(p, resolved) && k in resolved
    ensures k in p.modules && KeysBelow(p.modules[k].children, resolved, Rank(resolved, k))
    ensures InstanceNodes(p, resolved, path, k) ==
      [FlatName(path, Entrance), FlatName(path, Exit)]
        + ChildNodes(p, resolved, path, p.modules[k].children, Rank(resolved, k))
    ensures InstanceEdges(p, resolved, path, k) ==
      ChildEdges(p, resolved, path, p.modules[k].children, Rank(resolved, k)) + OwnEdges(p.modules[k], path)
  {
    hide ChildNodes, ChildEdges, OwnEdges;
  }

  lemma OwnEdgesListed(d: Definition, path: seq<Name>)
    ensures OwnEdges(d, path) == EdgesOf(d, path, |d.edges|) + OutputsOf(d, path, |d.outputs|)
    ensures forall i :: 0 <= i < |d.edges| ==> EdgesOf(d, path, |d.edges|)[i] in OwnEdges(d, path)
    ensures forall i :: 0 <= i < |d.outputs| ==> OutputsOf(d, path, |d.outputs|)[i] in OwnEdges(d, path)
  {
  }

  lemma NothingBelow(nodes: seq<FlatName>, path: seq<Name>, children: seq<Child>)
    requires Fresh(nodes, path)
    ensures NoneBelow(nodes + [FlatName(path, Entrance), FlatName(path, Exit)], path, children)
  {
  }

  lemma FreshIsNew(nodes: seq<FlatName>, path: seq<Name>, port: Port)
    requires Fresh(nodes, path)
    ensures FlatName(path, port) !in nodes
  {
    assert path <= path;
  }

  lemma NoChildren(p: Process, resolved: seq<Name>, path: seq<Name>, children: seq<Child>, bound: nat)
    requires Ranked(p, resolved) && KeysBelow(children, resolved, bound)
    ensures KeysBelow(children[..0], resolved, bound)
    ensures ChildNodes(p, resolved, path, children[..0], bound) == []
      && ChildEdges(p, resolved, path, children[..0], bound) == []
  {
  }

  lemma OneMoreChild(p: Process, resolved: seq<Name>, path: seq<Name>, children: seq<Child>, bound: nat, i: nat)
    requires Ranked(p, resolved) && KeysBelow(children, resolved, bound) && i < |children|
    ensures KeysBelow(children[..i], resolved, bound) && KeysBelow(children[..i + 1], resolved, bound)
    ensures var c := children[i];
      if c.kind.Instance? then
        c.kind.key in resolved
        && ChildNodes(p, resolved, path, children[..i + 1], bound)
           == ChildNodes(p, resolved, path, children[..i], bound)
             + InstanceNodes(p, resolved, path + [c.name], c.kind.key)
        && ChildEdges(p, resolved, path, children[..i + 1], bound)
           == ChildEdges(p, resolved, path, children[..i], bound)
             + InstanceEdges(p, resolved, path + [c.name], c.kind.key)
      else
        ChildNodes(p, resolved, path, children[..i + 1], bound)
           == ChildNodes(p, resolved, path, children[..i], bound) + [FlatName(path + [c.name], Plain)]
        && ChildEdges(p, resolved, path, children[..i + 1], bound)
          == ChildEdges(p, resolved, path, children[..i], bound)
  {
    hide InstanceNodes, InstanceEdges;
    assert children[..i + 1][..i] == children[..i] && children[..i + 1][i] == children[i];
    assert children[i] in children;
  }

  lemma NamesAreDistinct(p: Process, path: seq<Name>, s: Scope)
    requires Declared(p) && ScopeAt(p, path) == Some(s)
    ensures Distinct(Names(DefinitionOf(p, s)))
  {
    ScopesInUse(p, path);
    assert DeclaredGraph(p, DefinitionOf(p, s));
  }

  lemma PrefixBelow(children: seq<Child>, resolved: seq<Name>, bound: nat, i: nat)
    requires KeysBelow(children, resolved, bound) && i <= |children|
    ensures bound <= |resolved| && KeysBelow(children[..i], resolved, bound)
    ensures i < |children| ==> KeysBelow(children[..i + 1], resolved, bound)
    ensures i < |children| && children[i].kind.Instance? ==> children[i].kind.key in resolved[..bound]
  {
    if i < |children| { assert children[i] in children; }
  }

  lemma KeyIsBelow(p: Process, resolved: seq<Name>, k: Name, bound: nat)
    requires Ranked(p, resolved) && bound <= |resolved| && k in resolved[..bound]
    ensures k in resolved && Rank(resolved, k) < bound
  {
  }

  lemma NextChildIsFresh(p: Process, resolved: seq<Name>, path: seq<Name>, s: Scope, i: nat, bound: nat,
                         before: seq<FlatName>)
    requires Declared(p) && Ranked(p, resolved) && ScopeAt(p, path) == Some(s)
    requires KeysBelow(DefinitionOf(p, s).children, resolved, bound) && i < |DefinitionOf(p, s).children|
    requires Distinct(Names(DefinitionOf(p, s)))
    requires NoneBelow(before, path, DefinitionOf(p, s).children)
    ensures Fresh(before + ChildNodes(p, resolved, path, DefinitionOf(p, s).children[..i], bound),
                  path + [DefinitionOf(p, s).children[i].name])
  {
    hide IsFlatNode, ChildNodes, Below;
    var d := DefinitionOf(p, s);
    var children := d.children;
    assert forall j :: 0 <= j < |children| ==> Names(d)[j] == children[j].name;
    ChildNodesAre(p, resolved, path, s, i, bound);
    var here := path + [children[i].name];
    forall v | v in before + ChildNodes(p, resolved, path, children[..i], bound) ensures !(here <= v.path) {
      if v in before {
        ChildIsBelow(path, children, i, v.path);
      } else {
        NotBelowBoth(path, children, i, v.path);
      }
    }
  }

  lemma ChildIsBelow(path: seq<Name>, children: seq<Child>, i: nat, at: seq<Name>)
    requires i < |children|
    ensures path + [children[i].name] <= at ==> Below(path, children, at)
  {
    HeadOfPrefix(path, children[i].name, at);
    if path + [children[i].name] <= at {
      assert at[..|path|] == (path + [children[i].name])[..|path|] == path;
    }
  }

  /** Once an instance's nodes are in, both ends of each of its own edges are in. */
  lemma OwnEndsPresent(p: Process, resolved: seq<Name>, path: seq<Name>, k: Name, before: seq<FlatName>)
    requires Declared(p) && Validated(p) && Ranked(p, resolved) && k in resolved && path != []
      && ScopeAt(p, path) == Some(Body(k))
    ensures EndsIn(OwnEdges(p.modules[k], path), before + InstanceNodes(p, resolved, path, k))
  {
    hide InstanceNodes, IsFlatNode, ChildNodes, OwnEdges, Declared, Validated, IsEdgeOf, ScopeAt;
    OwnEdgesAre(p, path, Body(k));
    SubtreeNodesAre(p, resolved, path, k);
    forall e | e in OwnEdges(p.modules[k], path)
      ensures e.source in InstanceNodes(p, resolved, path, k) && e.target in InstanceNodes(p, resolved, path, k)
    {
      EndsAreNodes(p, path, e);
      EndsExtend(p, path, e);
    }
  }

  lemma EndsExtend(p: Process, path: seq<Name>, e: Edge<FlatName>)
    requires IsEdgeOf(p, path, e)
    ensures path <= e.source.path && path <= e.target.path
  {
  }

  lemma SubtreeNodesAre(p: Process, resolved: seq<Name>, path: seq<Name>, k: Name)
    requires Declared(p) && Ranked(p, resolved) && k in resolved && path != [] && ScopeAt(p, path) == Some(Body(k))
    ensures forall v :: v in InstanceNodes(p, resolved, path, k) <==> IsFlatNode(p, v) && path <= v.path
  {
    hide IsFlatNode, ScopeAt;
    var body := p.modules[k];
    assert body.children[..|body.children|] == body.children;
    ChildNodesAre(p, resolved, path, Body(k), |body.children|, Rank(resolved, k));
    EndsAndInner(p, path, k, ChildNodes(p, resolved, path, body.children, Rank(resolved, k)));
  }

  // ------------------------------------------------------------------ compile_process

  /** The compiled process: the flat graph and its execution order. */
  datatype Compiled = Compiled(graph: Graph<FlatName>, order: seq<FlatName>)

  /** The unfolded graph, nodes and edges in the inliner's order. */
  ghost predicate IsFlatGraph(p: Process, g: Graph<FlatName>) {
    exists resolved ::
      Ranked(p, resolved) && KeysBelow(p.top.children, resolved, |resolved|) && g == FlatGraph(p, resolved)
  }

  /** A process has one flat graph, and the queue discipline gives that graph one order: compilation is
      a function of the document. */
  lemma CompilationIsDetermined(p: Process, a: Compiled, b: Compiled)
    requires IsFlatGraph(p, a.graph) && TopologicalOrder(a.graph, a.order)
      && TopologicalSort.FirstReadyFirst(a.graph, a.order)
    requires IsFlatGraph(p, b.graph) && TopologicalOrder(b.graph, b.order)
      && TopologicalSort.FirstReadyFirst(b.graph, b.order)
    ensures a == b
  {
    hide TopologicalOrder, TopologicalSort.FirstReadyFirst, ChildNodes, ChildEdges;
    var r1 :| Ranked(p, r1) && KeysBelow(p.top.children, r1, |r1|) && a.graph == FlatGraph(p, r1);
    var r2 :| Ranked(p, r2) && KeysBelow(p.top.children, r2, |r2|) && b.graph == FlatGraph(p, r2);
    RankingIrrelevant(p, r1, r2, [], p.top.children, |r1|, |r2|);
    TopologicalSort.OrderIsDetermined(a.graph, a.order, b.order);
  }

  /** Compiles exactly the documents without a defect. The flat graph is the unfolded hierarchy, its nodes and edges
      listed in the document's order, and every plain node of it has a declared primitive type; the execution order
      lists each of its nodes once with every edge pointing forward: the final sort never raises. */
  method CompileProcess(p: Process) returns (r: Result<Compiled>)
    requires Declared(p)
    ensures r.Err? <==> HasDefect(p)
    ensures r.Ok? <==> Validated(p)
    ensures r.Ok? ==> forall v :: v in r.value.graph.nodes && v.port == Plain ==> IsPrimitive(p, v)
    ensures r.Ok? ==> IsFlatGraph(p, r.value.graph) && Unfolds(p, r.value.graph) && WellFormed(r.value.graph)
    ensures r.Ok? ==> NodesOrdered(p, r.value.graph.nodes) && EdgesOrdered(p, r.value.graph.edges)
    ensures r.Ok? ==> TopologicalOrder(r.value.graph, r.value.order)
    ensures r.Ok? ==> TopologicalSort.FirstReadyFirst(r.value.graph, r.value.order)
  {
    hide GraphOk, Ranked, KeysBelow, OwnEdges, ChildNodes, ChildEdges, Unfolds, IsFlatNode, IsFlatEdge, Validated,
      ModulesOk, WellFormed, Acyclic, HasDefect, IsPrimitive, NodesOrdered, EdgesOrdered;
    var modules := ValidateModules(p);
    ValidatedIs(p);
    ValidationIsExact(p);
    if modules.Err? {
      return Err(modules.message);
    }
    var topOk := ValidateTop(p);
    if !topOk {
      return Err("process validation failed");
    }
    var inliner := new Inliner(p, modules.value);
    inliner.InlineChildren([], Top, |modules.value|);
    FlatGraphUnfolds(p, modules.value);
    UnfoldingIsWellFormed(p, FlatGraph(p, modules.value));
    TopEndsPresent(p, modules.value);
    inliner.AddOwnEdges([], p.top);
    var flat := Graph(inliner.nodes, inliner.edges);
    assert flat == FlatGraph(p, modules.value);
    UnfoldingIsAcyclic(p, flat);
    NodesHaveTypes(p, flat);
    FlatGraphIsOrdered(p, modules.value);
    var sorted := TopologicalSort.Sort(flat);
    return Ok(Compiled(flat, sorted.value));
  }

  /** No node of the flat graph lacks a declared type. */
  lemma NodesHaveTypes(p: Process, g: Graph<FlatName>)
    requires Declared(p) && !HasDefect(p) && Unfolds(p, g)
    ensures forall v :: v in g.nodes && v.port == Plain ==> IsPrimitive(p, v)
  {
    forall v | v in g.nodes && v.port == Plain ensures IsPrimitive(p, v) {
      PlainNodesArePrimitive(p, v);
    }
  }

  lemma ValidatedIs(p: Process)
    ensures Validated(p) <==> (ModulesOk(p) && GraphOk(p.top) && p.trigger in Names(p.top)
      && forall e :: e in p.top.edges ==> e.source.Local? && e.target != p.trigger)
  {
  }

  lemma TopEndsPresent(p: Process, resolved: seq<Name>)
    requires Declared(p) && Validated(p) && Ranked(p, resolved) && KeysBelow(p.top.children, resolved, |resolved|)
    ensures EndsIn(OwnEdges(p.top, []), FlatGraph(p, resolved).nodes)
  {
    FlatGraphUnfolds(p, resolved);
    UnfoldingIsWellFormed(p, FlatGraph(p, resolved));
    assert forall e :: e in OwnEdges(p.top, []) ==> e in FlatGraph(p, resolved).edges;
  }
}
