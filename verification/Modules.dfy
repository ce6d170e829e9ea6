/** A hierarchical process and the flat graph its module instances unfold into. */
module Modules {
  import opened Graphs
  import opened Wrappers

  type Name = string

  /** What a node's type reference resolves to. */
  datatype Kind = Primitive | Instance(key: Name) | Unknown

  datatype Child = Child(name: Name, kind: Kind)

  /** `__input__`, or a node of the same graph. */
  datatype Source = Input | Local(name: Name)

  datatype LocalEdge = LocalEdge(source: Source, target: Name)

  /** One graph: a module body, or the process itself (which exports nothing). */
  datatype Definition = Definition(children: seq<Child>, edges: seq<LocalEdge>, outputs: seq<Source>)

  datatype Process = Process(keys: seq<Name>, modules: map<Name, Definition>, top: Definition, trigger: Name)

  function Names(d: Definition): (names: seq<Name>)
    ensures |names| == |d.children| && forall i :: 0 <= i < |names| ==> names[i] == d.children[i].name
  {
    seq(|d.children|, i requires 0 <= i < |d.children| => d.children[i].name)
  }

  function KindIn(children: seq<Child>, x: Name): Kind {
    if children == [] then Unknown
    else if children[|children| - 1].name == x then children[|children| - 1].kind
    else KindIn(children[..|children| - 1], x)
  }

  function NodeEdges(edges: seq<LocalEdge>): seq<Edge<Name>> {
    if edges == [] then []
    else
      var last := edges[|edges| - 1];
      NodeEdges(edges[..|edges| - 1]) + (if last.source.Local? then [Edge(last.source.name, last.target)] else [])
  }

  /** The graph the cycle check looks at: edges out of `__input__` are skipped. */
  function LocalGraph(d: Definition): Graph<Name> {
    Graph(Names(d), NodeEdges(d.edges))
  }

  lemma {:induction false} NodeEdgesAre(edges: seq<LocalEdge>)
    ensures forall x, y :: Edge(x, y) in NodeEdges(edges) <==> LocalEdge(Local(x), y) in edges
  {
    if edges == [] {
    } else {
      var n := |edges| - 1;
      NodeEdgesAre(edges[..n]);
      assert edges == edges[..n] + [edges[n]];
    }
  }

  lemma {:induction false} KindOfChild(children: seq<Child>, i: nat)
    requires i < |children| && forall j, k :: 0 <= j < k < |children| ==> children[j].name != children[k].name
    ensures KindIn(children, children[i].name) == children[i].kind
  {
    if i < |children| - 1 {
      KindOfChild(children[..|children| - 1], i);
    }
  }

  /** Which graph a path of instance names leads into. */
  datatype Scope = Top | Body(key: Name)

  function DefinitionOf(p: Process, s: Scope): Definition {
    match s
    case Top => p.top
    case Body(k) => if k in p.modules then p.modules[k] else Definition([], [], [])
  }

  function ScopeAt(p: Process, path: seq<Name>): Option<Scope> {
    if path == [] then Some(Top)
    else
      match ScopeAt(p, path[..|path| - 1])
      case None => None
      case Some(s) =>
        var kind := KindIn(DefinitionOf(p, s).children, path[|path| - 1]);
        if kind.Instance? then Some(Body(kind.key)) else None
  }

  /** The dictionaries of the process document: keys are unique and instances name declared modules. */
  ghost predicate Declared(p: Process) {
    && Distinct(p.keys) && Elements(p.keys) == p.modules.Keys
    && p.top.outputs == []
    && DeclaredGraph(p, p.top)
    && forall k :: k in p.modules ==> DeclaredGraph(p, p.modules[k])
  }

  ghost predicate DeclaredGraph(p: Process, d: Definition) {
    && Distinct(Names(d))
    && forall c :: c in d.children && c.kind.Instance? ==> c.kind.key in p.modules
  }

  /** All references of one graph resolve. */
  ghost predicate Resolved(d: Definition) {
    && (forall c :: c in d.children ==> !c.kind.Unknown?)
    && (forall e :: e in d.edges ==> e.target in Names(d) && (e.source.Local? ==> e.source.name in Names(d)))
    && (forall o :: o in d.outputs ==> o.Local? ==> o.name in Names(d))
  }

  function DependencyEdges(k: Name, children: seq<Child>): seq<Edge<Name>> {
    if children == [] then []
    else
      var last := children[|children| - 1];
      DependencyEdges(k, children[..|children| - 1]) + (if last.kind.Instance? then [Edge(k, last.kind.key)] else [])
  }

  function AllDependencies(p: Process, keys: seq<Name>): seq<Edge<Name>> {
    if keys == [] then []
    else
      var k := keys[|keys| - 1];
      AllDependencies(p, keys[..|keys| - 1])
      + (if k in p.modules then DependencyEdges(k, p.modules[k].children) else [])
  }

  /** Module keys, with an edge from each module to every module it instantiates. */
  function DependencyGraph(p: Process): Graph<Name> {
    Graph(p.keys, AllDependencies(p, p.keys))
  }

  ghost predicate Uses(d: Definition, k: Name) {
    exists i :: 0 <= i < |d.children| && d.children[i].kind == Instance(k)
  }

  lemma {:induction false} DependencyEdgesAre(k: Name, children: seq<Child>)
    ensures forall e :: e in DependencyEdges(k, children) <==>
      e.source == k && exists i :: 0 <= i < |children| && children[i].kind == Instance(e.target)
  {
    if children == [] {
    } else {
      var n := |children| - 1;
      DependencyEdgesAre(k, children[..n]);
      forall e ensures e in DependencyEdges(k, children) <==>
        e.source == k && exists i :: 0 <= i < |children| && children[i].kind == Instance(e.target)
      {
        if i :| 0 <= i < |children| && children[i].kind == Instance(e.target) {
          assert i < n ==> children[..n][i].kind == Instance(e.target);
        }
      }
    }
  }

  lemma {:induction false} AllDependenciesAre(p: Process, keys: seq<Name>)
    requires forall k :: k in keys ==> k in p.modules
    ensures forall e :: e in AllDependencies(p, keys) <==> e.source in keys && Uses(p.modules[e.source], e.target)
  {
    if keys == [] {
    } else {
      var n := |keys| - 1;
      AllDependenciesAre(p, keys[..n]);
      DependencyEdgesAre(keys[n], p.modules[keys[n]].children);
      assert keys == keys[..n] + [keys[n]];
    }
  }

  lemma DependenciesAre(p: Process)
    requires Declared(p)
    ensures WellFormed(DependencyGraph(p))
    ensures forall k, m :: HasEdge(DependencyGraph(p), k, m) <==> k in p.modules && Uses(p.modules[k], m)
  {
    assert forall k :: k in p.keys <==> k in Elements(p.keys);
    AllDependenciesAre(p, p.keys);
    forall e | e in AllDependencies(p, p.keys) ensures e.target in p.keys {
      var d := p.modules[e.source];
      var i :| 0 <= i < |d.children| && d.children[i].kind == Instance(e.target);
      assert d.children[i] in d.children;
    }
  }

  /** Everything the compiler's validation establishes about the graphs. */
  ghost predicate Validated(p: Process) {
    && Resolved(p.top) && Acyclic(LocalGraph(p.top))
    && (forall k :: k in p.modules ==> Resolved(p.modules[k]) && Acyclic(LocalGraph(p.modules[k])))
    && Acyclic(DependencyGraph(p))
    && p.trigger in Names(p.top)
    && (forall e :: e in p.top.edges ==> e.source.Local? && e.target != p.trigger)
  }

  // ------------------------------------------------------------------ flat names

  /** A node of the flat graph: the instance names leading to it, and for a module instance
      its entrance or its exit. */
  datatype Port = Plain | Entrance | Exit

  datatype FlatName = FlatName(path: seq<Name>, port: Port)

  function SourcePort(d: Definition, path: seq<Name>, s: Source): FlatName {
    match s
    case Input => FlatName(path, Entrance)
    case Local(x) => FlatName(path + [x], if KindIn(d.children, x).Instance? then Exit else Plain)
  }

  function TargetPort(d: Definition, path: seq<Name>, x: Name): FlatName {
    FlatName(path + [x], if KindIn(d.children, x).Instance? then Entrance else Plain)
  }

  /** v names a node of the hierarchy, or one of the two ends of an instance in it. */
  ghost predicate IsFlatNode(p: Process, v: FlatName) {
    v.path != []
    && var n := |v.path| - 1;
    var s := ScopeAt(p, v.path[..n]);
    && s.Some?
    && v.path[n] in Names(DefinitionOf(p, s.value))
    && (v.port == Plain <==> !KindIn(DefinitionOf(p, s.value).children, v.path[n]).Instance?)
  }

  ghost predicate FromEdge(d: Definition, path: seq<Name>, le: LocalEdge, e: Edge<FlatName>) {
    le in d.edges && e == Edge(SourcePort(d, path, le.source), TargetPort(d, path, le.target))
  }

  ghost predicate FromOutput(d: Definition, path: seq<Name>, o: Source, e: Edge<FlatName>) {
    o in d.outputs && e == Edge(SourcePort(d, path, o), FlatName(path, Exit))
  }

  /** e stands for an edge, or for an exported output, of the instance at path. */
  ghost predicate IsEdgeOf(p: Process, path: seq<Name>, e: Edge<FlatName>) {
    var s := ScopeAt(p, path);
    s.Some?
    && var d := DefinitionOf(p, s.value);
    (exists le :: FromEdge(d, path, le, e)) || (exists o :: FromOutput(d, path, o, e))
  }

  ghost predicate IsFlatEdge(p: Process, e: Edge<FlatName>) {
    exists path :: IsEdgeOf(p, path, e)
  }

  /** A graph with exactly the nodes and edges of the unfolded hierarchy. */
  ghost predicate Unfolds(p: Process, g: Graph<FlatName>) {
    && Distinct(g.nodes)
    && (forall v :: v in g.nodes <==> IsFlatNode(p, v))
    && (forall e :: e in g.edges <==> IsFlatEdge(p, e))
  }
}
