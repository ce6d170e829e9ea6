/** What unfolding does to dependencies: no cycle appears, and every path of the flat graph is the
    image of a path of the hierarchy. */
module FlatDependencies {
  import opened Graphs
  import opened Modules
  import opened Wrappers

  /** a and b first differ at an index both have, and a is smaller there. */
  ghost predicate LexLess(a: seq<int>, b: seq<int>) {
    exists i :: LessAt(a, b, i)
  }

  ghost predicate LessAt(a: seq<int>, b: seq<int>, i: int) {
    0 <= i < |a| && i < |b| && a[..i] == b[..i] && a[i] < b[i]
  }

  lemma SameBefore(a: seq<int>, b: seq<int>, i: int, k: int)
    requires LessAt(a, b, i) && 0 <= k < i
    ensures a[k] == b[k]
  {
    assert a[k] == a[..i][k] == b[..i][k] == b[k];
  }

  lemma LexTransitive(a: seq<int>, b: seq<int>, c: seq<int>)
    requires LexLess(a, b) && LexLess(b, c)
    ensures LexLess(a, c)
  {
    var i :| LessAt(a, b, i);
    var j :| LessAt(b, c, j);
    var m := if i < j then i else j;
    forall k | 0 <= k < m ensures a[k] == c[k] {
      SameBefore(a, b, i, k);
      SameBefore(b, c, j, k);
    }
    if i < j { SameBefore(b, c, j, i); }
    if j < i { SameBefore(a, b, i, j); }
    assert a[..m] == c[..m];
    assert LessAt(a, c, m);
  }

  /** What lies between two sequences with a common prefix shares that prefix and is longer. */
  lemma LexConvex(a: seq<int>, b: seq<int>, c: seq<int>, m: nat)
    requires LexLess(a, b) && LexLess(b, c) && m <= |a| && m <= |c| && a[..m] == c[..m]
    ensures m < |b| && b[..m] == a[..m]
    ensures m < |a| && m < |c| && a[m] <= b[m] <= c[m]
  {
    var i :| LessAt(a, b, i);
    var j :| LessAt(b, c, j);
    assert forall k :: 0 <= k < m ==> a[k] == a[..m][k] == c[..m][k] == c[k];
    forall k | 0 <= k < i ensures a[k] == b[k] { SameBefore(a, b, i, k); }
    forall k | 0 <= k < j ensures b[k] == c[k] { SameBefore(b, c, j, k); }
    assert i >= m && j >= m;
    assert b[..m] == a[..m];
  }

  lemma AnOrderExists(g: Graph<Name>)
    requires WellFormed(g) && Acyclic(g)
    ensures exists order :: TopologicalOrder(g, order)
  {
    var order := AcyclicHasOrder(g);
  }

  /** One topological order of an acyclic graph. */
  ghost function SomeOrder(g: Graph<Name>): (order: seq<Name>)
    requires WellFormed(g) && Acyclic(g)
    ensures TopologicalOrder(g, order)
  {
    AnOrderExists(g);
    var order :| TopologicalOrder(g, order);
    order
  }

  ghost predicate InUse(p: Process, s: Scope) {
    s.Body? ==> s.key in p.modules
  }

  ghost function LocalOrder(p: Process, s: Scope): seq<Name> {
    var g := LocalGraph(DefinitionOf(p, s));
    if WellFormed(g) && Acyclic(g) then SomeOrder(g) else []
  }

  lemma LocalOrderIs(p: Process, s: Scope)
    requires Declared(p) && Validated(p) && InUse(p, s)
    ensures TopologicalOrder(LocalGraph(DefinitionOf(p, s)), LocalOrder(p, s))
  {
    hide NodeEdges, TopologicalOrder;
    var d := DefinitionOf(p, s);
    assert Resolved(d) && DeclaredGraph(p, d);
    LocalGraphOk(d);
  }

  lemma LocalGraphOk(d: Definition)
    requires Resolved(d) && Distinct(Names(d))
    ensures WellFormed(LocalGraph(d))
  {
    NodeEdgesAre(d.edges);
  }

  ghost function Position(order: seq<Name>, x: Name): (i: int)
    ensures -1 <= i < |order| && (i >= 0 <==> x in order) && (i >= 0 ==> order[i] == x)
  {
    if x in order then var i :| 0 <= i < |order| && order[i] == x; i else -1
  }

  ghost function OrderAt(p: Process, path: seq<Name>): seq<Name> {
    var s := ScopeAt(p, path);
    if s.Some? then LocalOrder(p, s.value) else []
  }

  /** Positions of the instance names along the path, each in its own graph. */
  ghost function PathKey(p: Process, path: seq<Name>): (key: seq<int>)
    ensures |key| == |path|
  {
    if path == [] then []
    else
      var n := |path| - 1;
      PathKey(p, path[..n]) + [Position(OrderAt(p, path[..n]), path[n])]
  }

  /** An entrance comes before, an exit after everything inside the instance. */
  ghost function NodeKey(p: Process, v: FlatName): seq<int> {
    PathKey(p, v.path) +
    match v.port
    case Plain => []
    case Entrance => [-1]
    case Exit => [|OrderAt(p, v.path)|]
  }

  lemma {:induction false} ScopesInUse(p: Process, path: seq<Name>)
    requires Declared(p) && ScopeAt(p, path).Some?
    ensures InUse(p, ScopeAt(p, path).value)
  {
    if path == [] {
    } else {
      var n := |path| - 1;
      ScopesInUse(p, path[..n]);
      var d := DefinitionOf(p, ScopeAt(p, path[..n]).value);
      KindIsDeclared(d.children, path[n]);
      assert DeclaredGraph(p, d);
    }
  }

  lemma {:induction false} KindIsDeclared(children: seq<Child>, x: Name)
    ensures KindIn(children, x).Instance? ==> Child(x, KindIn(children, x)) in children
  {
    if children != [] && children[|children| - 1].name != x {
      KindIsDeclared(children[..|children| - 1], x);
    } else if children != [] {
      assert children[|children| - 1] == Child(x, KindIn(children, x));
    }
  }

  lemma StepKey(p: Process, path: seq<Name>, x: Name)
    ensures PathKey(p, path + [x]) == PathKey(p, path) + [Position(OrderAt(p, path), x)]
  {
    hide OrderAt, Position;
    assert (path + [x])[..|path|] == path;
  }

  /** The key of a port of child x of the instance at path. */
  lemma ChildKey(p: Process, path: seq<Name>, x: Name, port: Port)
    ensures var key := NodeKey(p, FlatName(path + [x], port));
      && |key| > |path| && key[..|path|] == PathKey(p, path)
      && key[|path|] == Position(OrderAt(p, path), x)
  {
    hide PathKey, OrderAt, Position;
    StepKey(p, path, x);
  }

  lemma EndKey(p: Process, path: seq<Name>, port: Port)
    requires port != Plain
    ensures var key := NodeKey(p, FlatName(path, port));
      && |key| == |path| + 1 && key[..|path|] == PathKey(p, path)
      && key[|path|] == if port == Entrance then -1 else |OrderAt(p, path)|
  {
  }

  lemma SourceKey(p: Process, path: seq<Name>, d: Definition, s: Source)
    ensures var key := NodeKey(p, SourcePort(d, path, s));
      && |key| > |path| && key[..|path|] == PathKey(p, path)
      && key[|path|] == if s.Input? then -1 else Position(OrderAt(p, path), s.name)
  {
    match s
    case Input => EndKey(p, path, Entrance);
    case Local(x) => ChildKey(p, path, x, SourcePort(d, path, s).port);
  }

  lemma LocalEdgeRises(p: Process, s: Scope, le: LocalEdge)
    requires Declared(p) && Validated(p) && InUse(p, s) && le in DefinitionOf(p, s).edges
      && Resolved(DefinitionOf(p, s))
    ensures 0 <= Position(LocalOrder(p, s), le.target)
    ensures le.source.Local? ==> Position(LocalOrder(p, s), le.source.name) < Position(LocalOrder(p, s), le.target)
  {
    var d := DefinitionOf(p, s);
    LocalOrderIs(p, s);
    assert le.target in LocalGraph(d).nodes && le.target in LocalOrder(p, s);
    if le.source.Local? {
      NodeEdgesAre(d.edges);
      assert HasEdge(LocalGraph(d), le.source.name, le.target);
    }
  }

  /** Every flat edge leads to a larger key. */
  lemma EdgeRises(p: Process, path: seq<Name>, e: Edge<FlatName>)
    requires Declared(p) && Validated(p) && IsEdgeOf(p, path, e)
    ensures LexLess(NodeKey(p, e.source), NodeKey(p, e.target))
  {
    var s := ScopeAt(p, path).value;
    ScopesInUse(p, path);
    var d := DefinitionOf(p, s);
    assert Resolved(d);
    LocalOrderIs(p, s);
    if le :| FromEdge(d, path, le, e) {
      SourceKey(p, path, d, le.source);
      ChildKey(p, path, le.target, e.target.port);
      LocalEdgeRises(p, s, le);
    } else {
      var o :| FromOutput(d, path, o, e);
      SourceKey(p, path, d, o);
      EndKey(p, path, Exit);
      assert o.Local? ==> o.name in LocalGraph(d).nodes;
    }
    assert LessAt(NodeKey(p, e.source), NodeKey(p, e.target), |path|);
  }

  lemma StepRises(p: Process, g: Graph<FlatName>, u: FlatName, v: FlatName)
    requires Declared(p) && Validated(p) && Unfolds(p, g) && HasEdge(g, u, v)
    ensures LexLess(NodeKey(p, u), NodeKey(p, v))
  {
    assert Edge(u, v) in g.edges;
    var path :| IsEdgeOf(p, path, Edge(u, v));
    EdgeRises(p, path, Edge(u, v));
  }

  lemma {:induction false} WalkRises(p: Process, g: Graph<FlatName>, w: seq<FlatName>)
    requires Declared(p) && Validated(p) && Unfolds(p, g)
    requires IsWalk(g, w) && |w| >= 2
    ensures LexLess(NodeKey(p, w[0]), NodeKey(p, w[|w| - 1]))
  {
    hide *;
    WalkHead(g, w);
    StepRises(p, g, w[0], w[1]);
    if |w| > 2 {
      WalkRises(p, g, w[1..]);
      LexTransitive(NodeKey(p, w[0]), NodeKey(p, w[1]), NodeKey(p, w[|w| - 1]));
    }
  }

  lemma WalkHead<V(!new)>(g: Graph<V>, w: seq<V>)
    requires IsWalk(g, w) && |w| >= 2
    ensures HasEdge(g, w[0], w[1]) && IsWalk(g, w[1..])
  {
    WalkTail(g, w, 1);
  }

  lemma WalkTail<V(!new)>(g: Graph<V>, w: seq<V>, n: nat)
    requires IsWalk(g, w) && n <= |w|
    ensures IsWalk(g, w[n..]) && IsWalk(g, w[..n])
  {
    forall i | 0 <= i < |w[n..]| - 1 ensures HasEdge(g, w[n..][i], w[n..][i + 1]) {
      assert HasEdge(g, w[n + i], w[n + i + 1]);
    }
    forall i | 0 <= i < |w[..n]| - 1 ensures HasEdge(g, w[..n][i], w[..n][i + 1]) {
      assert HasEdge(g, w[i], w[i + 1]);
    }
  }

  /** Unfolding a validated process creates no cycle, so the final sort cannot fail. */
  lemma UnfoldingIsAcyclic(p: Process, g: Graph<FlatName>)
    requires Declared(p) && Validated(p) && Unfolds(p, g)
    ensures Acyclic(g)
  {
    forall w: seq<FlatName> | IsWalk(g, w) && |w| >= 2 ensures w[0] != w[|w| - 1] {
      WalkRises(p, g, w);
    }
  }

  // ------------------------------------------------------------------ projection

  /** v lies strictly inside the instance at path (at the root: v is any flat node). */
  ghost predicate Inside(path: seq<Name>, v: FlatName) {
    |path| < |v.path| && v.path[..|path|] == path
  }

  /** Equal keys mean equal names, as long as both paths exist. */
  lemma {:induction false} KeyDeterminesPath(p: Process, a: seq<Name>, b: seq<Name>)
    requires |a| == |b| && PathKey(p, a) == PathKey(p, b)
    requires forall i :: 0 <= i < |a| ==> PathKey(p, a)[i] >= 0
    ensures a == b
  {
    hide OrderAt;
    if a == [] {
    } else {
      var n := |a| - 1;
      var ka, kb := PathKey(p, a), PathKey(p, b);
      assert ka[..n] == PathKey(p, a[..n]) && kb[..n] == PathKey(p, b[..n]);
      assert forall i :: 0 <= i < n ==> PathKey(p, a[..n])[i] == ka[i];
      KeyDeterminesPath(p, a[..n], b[..n]);
      assert ka[n] >= 0 && ka[n] == kb[n];
      assert a == a[..n] + [a[n]] && b == b[..n] + [b[n]];
    }
  }

  lemma {:induction false} KeyOfPrefix(p: Process, path: seq<Name>, m: nat)
    requires m <= |path|
    ensures PathKey(p, path)[..m] == PathKey(p, path[..m])
  {
    if m < |path| {
      KeyOfPrefix(p, path[..|path| - 1], m);
      assert path[..|path| - 1][..m] == path[..m];
    } else {
      assert path[..m] == path;
    }
  }

  /** The root, or a child of an existing instance. */
  ghost predicate IsPath(p: Process, path: seq<Name>) {
    path != [] ==>
      var s := ScopeAt(p, path[..|path| - 1]);
      s.Some? && path[|path| - 1] in Names(DefinitionOf(p, s.value))
  }

  /** Names on an existing path have positions in their graphs. */
  lemma {:induction false} PathPositions(p: Process, path: seq<Name>)
    requires Declared(p) && Validated(p) && IsPath(p, path)
    ensures forall i :: 0 <= i < |path| ==> PathKey(p, path)[i] >= 0
  {
    hide OrderAt, Position, IsPath, Declared, Validated;
    if path == [] {
    } else {
      var n := |path| - 1;
      LastPosition(p, path);
      OuterPath(p, path);
      PathPositions(p, path[..n]);
      assert PathKey(p, path)[..n] == PathKey(p, path[..n]);
    }
  }

  lemma LastPosition(p: Process, path: seq<Name>)
    requires Declared(p) && Validated(p) && path != [] && IsPath(p, path)
    ensures Position(OrderAt(p, path[..|path| - 1]), path[|path| - 1]) >= 0
  {
    var n := |path| - 1;
    var s := ScopeAt(p, path[..n]).value;
    ScopesInUse(p, path[..n]);
    LocalOrderIs(p, s);
    assert path[n] in LocalGraph(DefinitionOf(p, s)).nodes && path[n] in LocalOrder(p, s);
  }

  lemma OuterPath(p: Process, path: seq<Name>)
    requires path != [] && IsPath(p, path)
    ensures IsPath(p, path[..|path| - 1])
  {
    var at := path[..|path| - 1];
    if at != [] {
      var n := |at| - 1;
      var outer := DefinitionOf(p, ScopeAt(p, at[..n]).value);
      KindIsDeclared(outer.children, at[n]);
      var i :| 0 <= i < |outer.children| && outer.children[i].name == at[n];
      assert Names(outer)[i] == at[n];
    }
  }

  /** The key of a node inside an instance starts with the instance's key, then the child's position. */
  lemma InsideKey(p: Process, path: seq<Name>, v: FlatName)
    requires Declared(p) && Validated(p) && IsFlatNode(p, v) && Inside(path, v)
    ensures var key := NodeKey(p, v);
      && |key| > |path| && key[..|path|] == PathKey(p, path)
      && 0 <= key[|path|] < |OrderAt(p, path)|
    ensures forall i :: 0 <= i < |path| ==> PathKey(p, path)[i] >= 0
  {
    hide OrderAt, ScopeAt, PathKey, Validated, Declared;
    var m := |path|;
    PathPositions(p, v.path);
    KeyOfPrefix(p, v.path, m);
    KeyOfPrefix(p, v.path, m + 1);
    assert v.path[..m + 1] == path + [v.path[m]];
    StepKey(p, path, v.path[m]);
    var key := PathKey(p, v.path);
    assert NodeKey(p, v)[..m] == key[..m];
    assert key[m] == key[..m + 1][m] == Position(OrderAt(p, path), v.path[m]);
    assert forall i :: 0 <= i < m ==> PathKey(p, path)[i] == key[..m][i] == key[i];
  }

  /** What lies between two nodes inside an instance is inside that instance. */
  lemma BetweenIsInside(p: Process, path: seq<Name>, a: FlatName, v: FlatName, b: FlatName)
    requires Declared(p) && Validated(p) && IsFlatNode(p, a) && IsFlatNode(p, b)
    requires Inside(path, a) && Inside(path, b)
    requires LexLess(NodeKey(p, a), NodeKey(p, v)) && LexLess(NodeKey(p, v), NodeKey(p, b))
    ensures Inside(path, v)
  {
    var m := |path|;
    InsideKey(p, path, a);
    InsideKey(p, path, b);
    LexConvex(NodeKey(p, a), NodeKey(p, v), NodeKey(p, b), m);
    KeyWithPrefix(p, path, v);
  }

  /** A key that continues an instance's key with a child position belongs to a node inside the instance. */
  lemma KeyWithPrefix(p: Process, path: seq<Name>, v: FlatName)
    requires var key := NodeKey(p, v);
      && |key| > |path| && key[..|path|] == PathKey(p, path)
      && 0 <= key[|path|] < |OrderAt(p, path)|
    requires forall i :: 0 <= i < |path| ==> PathKey(p, path)[i] >= 0
    ensures Inside(path, v)
  {
    hide OrderAt, ScopeAt, PathKey;
    var m := |path|;
    KeyOfPrefix(p, v.path, m);
    assert NodeKey(p, v)[..m] == PathKey(p, v.path)[..m];
    KeyDeterminesPath(p, path, v.path[..m]);
    if |v.path| == m {
      assert v.path == path;
      EndKey(p, path, v.port);
      assert false;
    }
  }

  /** A flat edge inside an instance stays within one child or follows an edge of the instance's graph. */
  lemma EdgeProjects(p: Process, path: seq<Name>, at: seq<Name>, e: Edge<FlatName>)
    requires IsEdgeOf(p, at, e) && Inside(path, e.source) && Inside(path, e.target)
    ensures ScopeAt(p, path).Some?
    ensures var x, y := e.source.path[|path|], e.target.path[|path|];
      x == y || HasEdge(LocalGraph(DefinitionOf(p, ScopeAt(p, path).value)), x, y)
  {
    hide NodeEdges;
    var m := |path|;
    assert |at| >= m && at[..m] == path by {
      assert e.source.path == at || e.source.path[..|at|] == at;
    }
    ScopeOfPrefix(p, at, m);
    var d := DefinitionOf(p, ScopeAt(p, at).value);
    if |at| > m {
      assert e.source.path[..|at|] == at && e.target.path[..|at|] == at;
      assert e.source.path[m] == at[m] == e.target.path[m];
    } else {
      assert at == path;
      if le :| FromEdge(d, at, le, e) {
        LocalEdgeIsEdge(d, le);
      }
    }
  }

  lemma LocalEdgeIsEdge(d: Definition, le: LocalEdge)
    requires le in d.edges && le.source.Local?
    ensures HasEdge(LocalGraph(d), le.source.name, le.target)
  {
    NodeEdgesAre(d.edges);
  }

  lemma {:induction false} ScopeOfPrefix(p: Process, path: seq<Name>, m: nat)
    requires ScopeAt(p, path).Some? && m <= |path|
    ensures ScopeAt(p, path[..m]).Some?
  {
    if m < |path| {
      ScopeOfPrefix(p, path[..|path| - 1], m);
      assert path[..|path| - 1][..m] == path[..m];
    } else {
      assert path[..m] == path;
    }
  }

  lemma InsideAll(p: Process, g: Graph<FlatName>, path: seq<Name>, w: seq<FlatName>, i: nat)
    requires Declared(p) && Validated(p) && Unfolds(p, g)
    requires IsWalk(g, w) && i < |w| && w[0] in g.nodes && w[|w| - 1] in g.nodes
    requires Inside(path, w[0]) && Inside(path, w[|w| - 1])
    ensures Inside(path, w[i])
  {
    NodeIsFlat(p, g, w[0]);
    NodeIsFlat(p, g, w[|w| - 1]);
    hide *;
    if 0 < i < |w| - 1 {
      RisesTo(p, g, w, i);
      RisesFrom(p, g, w, i);
      BetweenIsInside(p, path, w[0], w[i], w[|w| - 1]);
    }
  }

  lemma RisesTo(p: Process, g: Graph<FlatName>, w: seq<FlatName>, i: nat)
    requires Declared(p) && Validated(p) && Unfolds(p, g) && IsWalk(g, w) && 0 < i < |w|
    ensures LexLess(NodeKey(p, w[0]), NodeKey(p, w[i]))
  {
    hide *;
    WalkTail(g, w, i + 1);
    var head := w[..i + 1];
    assert |head| == i + 1 && head[0] == w[0] && head[i] == w[i];
    WalkRises(p, g, head);
  }

  lemma RisesFrom(p: Process, g: Graph<FlatName>, w: seq<FlatName>, i: nat)
    requires Declared(p) && Validated(p) && Unfolds(p, g) && IsWalk(g, w) && i < |w| - 1
    ensures LexLess(NodeKey(p, w[i]), NodeKey(p, w[|w| - 1]))
  {
    hide *;
    WalkTail(g, w, i);
    var tail := w[i..];
    assert |tail| == |w| - i && tail[0] == w[i] && tail[|tail| - 1] == w[|w| - 1];
    WalkRises(p, g, tail);
  }

  /** A walk of the flat graph between two nodes inside an instance (or anywhere, for the root) never
      leaves it, and its children, in order and without repetition, are a walk of the instance's own graph. */
  lemma {:induction false} WalkProjects(p: Process, g: Graph<FlatName>, path: seq<Name>, w: seq<FlatName>)
    returns (q: seq<Name>)
    requires Declared(p) && Validated(p) && Unfolds(p, g) && WellFormed(g)
    requires IsWalk(g, w) && w != [] && w[0] in g.nodes && w[|w| - 1] in g.nodes
    requires Inside(path, w[0]) && Inside(path, w[|w| - 1])
    ensures forall i :: 0 <= i < |w| ==> Inside(path, w[i])
    ensures ScopeAt(p, path).Some?
    ensures q != [] && IsWalk(LocalGraph(DefinitionOf(p, ScopeAt(p, path).value)), q)
    ensures q[0] == w[0].path[|path|] && q[|q| - 1] == w[|w| - 1].path[|path|]
    decreases |w|
  {
    hide Unfolds, WellFormed, Validated, Declared, LocalGraph, IsWalk, HasEdge;
    forall i | 0 <= i < |w| ensures Inside(path, w[i]) {
      InsideAll(p, g, path, w, i);
    }
    var m := |path|;
    if |w| == 1 {
      q := [w[0].path[m]];
      NodeIsScoped(p, g, w[0]);
      ScopeOfPrefix(p, w[0].path[..|w[0].path| - 1], m);
      assert w[0].path[..|w[0].path| - 1][..m] == path;
      SingletonWalk(LocalGraph(DefinitionOf(p, ScopeAt(p, path).value)), q);
    } else {
      WalkHead(g, w);
      assert w[1..][|w[1..]| - 1] == w[|w| - 1];
      EdgeEndsAreNodes(g, w[0], w[1]);
      EdgeStaysOrSteps(p, g, path, w[0], w[1]);
      var tail := WalkProjects(p, g, path, w[1..]);
      q := Prepend(LocalGraph(DefinitionOf(p, ScopeAt(p, path).value)), w[0].path[m], tail);
    }
  }

  lemma EdgeEndsAreNodes<V(!new)>(g: Graph<V>, u: V, v: V)
    requires WellFormed(g) && HasEdge(g, u, v)
    ensures u in g.nodes && v in g.nodes
  {
    assert Edge(u, v) in g.edges;
  }

  lemma SingletonWalk<V(!new)>(g: Graph<V>, w: seq<V>)
    requires |w| == 1
    ensures IsWalk(g, w)
  {
  }

  lemma NodeIsScoped(p: Process, g: Graph<FlatName>, v: FlatName)
    requires Unfolds(p, g) && v in g.nodes
    ensures v.path != [] && ScopeAt(p, v.path[..|v.path| - 1]).Some?
  {
  }

  lemma EdgeStaysOrSteps(p: Process, g: Graph<FlatName>, path: seq<Name>, u: FlatName, v: FlatName)
    requires Unfolds(p, g) && HasEdge(g, u, v) && Inside(path, u) && Inside(path, v)
    ensures ScopeAt(p, path).Some?
    ensures u.path[|path|] == v.path[|path|]
         || HasEdge(LocalGraph(DefinitionOf(p, ScopeAt(p, path).value)), u.path[|path|], v.path[|path|])
  {
    assert Edge(u, v) in g.edges;
    var at :| IsEdgeOf(p, at, Edge(u, v));
    EdgeProjects(p, path, at, Edge(u, v));
  }

  lemma Prepend<V(!new)>(g: Graph<V>, x: V, tail: seq<V>) returns (q: seq<V>)
    requires tail != [] && IsWalk(g, tail) && (x == tail[0] || HasEdge(g, x, tail[0]))
    ensures q != [] && IsWalk(g, q) && q[0] == x && q[|q| - 1] == tail[|tail| - 1]
  {
    if x == tail[0] {
      q := tail;
    } else {
      q := [x] + tail;
      forall i | 0 <= i < |q| - 1 ensures HasEdge(g, q[i], q[i + 1]) {
        assert i > 0 ==> HasEdge(g, tail[i - 1], tail[i]);
      }
    }
  }

  lemma NodeIsFlat(p: Process, g: Graph<FlatName>, v: FlatName)
    requires Unfolds(p, g) && v in g.nodes
    ensures IsFlatNode(p, v)
  {
  }

  // ------------------------------------------------------------------ walks through an instance's ends

  /** An edge that leaves an instance's entrance enters a target of `__input__`, or passes an input on. */
  lemma FromEntrance(p: Process, path: seq<Name>, at: seq<Name>, e: Edge<FlatName>) returns (le: Option<LocalEdge>)
    requires IsEdgeOf(p, at, e) && e.source == FlatName(path, Entrance)
    ensures at == path && ScopeAt(p, path).Some?
    ensures var d := DefinitionOf(p, ScopeAt(p, path).value);
      if le.Some? then le.value in d.edges && le.value.source.Input? && e.target == TargetPort(d, path, le.value.target)
      else Input in d.outputs && e.target == FlatName(path, Exit)
  {
    hide KindIn;
    var d := DefinitionOf(p, ScopeAt(p, at).value);
    if x :| FromEdge(d, at, x, e) {
      le := Some(x);
    } else {
      var o :| FromOutput(d, at, o, e);
      le := None;
    }
  }

  /** An edge into an instance's exit carries one of its exported outputs. */
  lemma IntoExit(p: Process, path: seq<Name>, at: seq<Name>, e: Edge<FlatName>) returns (o: Source)
    requires IsEdgeOf(p, at, e) && e.target == FlatName(path, Exit)
    ensures at == path && ScopeAt(p, path).Some?
    ensures var d := DefinitionOf(p, ScopeAt(p, path).value); o in d.outputs && e.source == SourcePort(d, path, o)
  {
    hide KindIn;
    var d := DefinitionOf(p, ScopeAt(p, at).value);
    assert forall le :: !FromEdge(d, at, le, e);
    o :| FromOutput(d, at, o, e);
  }

  lemma NotLess(a: seq<int>, b: seq<int>, m: nat)
    requires m < |a| && m < |b| && a[..m] == b[..m] && b[m] < a[m]
    ensures !LexLess(a, b)
  {
    forall i ensures !LessAt(a, b, i) {
      if 0 <= i < m { assert a[i] == a[..m][i] == b[..m][i]; }
      if m < i < |a| && i < |b| { assert a[..i][m] == a[m] && b[..i][m] == b[m]; }
    }
  }

  /** No walk leads from an instance's exit, or to its entrance, from or to anything inside it. */
  lemma EndsEncloseInside(p: Process, path: seq<Name>, v: FlatName)
    requires Declared(p) && Validated(p) && IsFlatNode(p, v) && Inside(path, v)
    ensures !LexLess(NodeKey(p, FlatName(path, Exit)), NodeKey(p, v))
    ensures !LexLess(NodeKey(p, v), NodeKey(p, FlatName(path, Entrance)))
  {
    hide NodeKey, PathKey, OrderAt, Inside, Declared, Validated, IsFlatNode, LexLess;
    InsideKey(p, path, v);
    EndKey(p, path, Exit);
    EndKey(p, path, Entrance);
    NotLess(NodeKey(p, FlatName(path, Exit)), NodeKey(p, v), |path|);
    NotLess(NodeKey(p, v), NodeKey(p, FlatName(path, Entrance)), |path|);
  }

  lemma NotBelowItself(a: seq<int>)
    ensures !LexLess(a, a)
  {
  }

  lemma EdgeOfWalk(p: Process, g: Graph<FlatName>, w: seq<FlatName>, i: nat) returns (at: seq<Name>)
    requires Unfolds(p, g) && IsWalk(g, w) && i + 1 < |w|
    ensures IsEdgeOf(p, at, Edge(w[i], w[i + 1]))
  {
    assert HasEdge(g, w[i], w[i + 1]);
    assert IsFlatEdge(p, Edge(w[i], w[i + 1]));
    at :| IsEdgeOf(p, at, Edge(w[i], w[i + 1]));
  }

  /** What an instance's entrance leads to: a walk from it to a node inside begins with an edge from `__input__`
      and goes on as a walk of the instance's own graph from that edge's target. */
  lemma EntranceProjects(p: Process, g: Graph<FlatName>, path: seq<Name>, w: seq<FlatName>)
    returns (le: LocalEdge, q: seq<Name>)
    requires Declared(p) && Validated(p) && Unfolds(p, g) && WellFormed(g)
    requires IsWalk(g, w) && |w| >= 2 && w[0] == FlatName(path, Entrance) && Inside(path, w[|w| - 1])
    ensures ScopeAt(p, path).Some? && forall i :: 1 <= i < |w| ==> Inside(path, w[i])
    ensures var d := DefinitionOf(p, ScopeAt(p, path).value);
      && le in d.edges && le.source.Input?
      && q != [] && IsWalk(LocalGraph(d), q) && q[0] == le.target && q[|q| - 1] == w[|w| - 1].path[|path|]
  {
    hide Unfolds, WellFormed, Validated, Declared, LocalGraph, IsWalk, HasEdge, IsEdgeOf, ScopeAt, NodeKey, LexLess,
      IsFlatNode, KindIn;
    WalkNodes(g, w);
    var at := EdgeOfWalk(p, g, w, 0);
    var first := FromEntrance(p, path, at, Edge(w[0], w[1]));
    WalkHead(g, w);
    var last := w[|w| - 1];
    assert w[1..][|w[1..]| - 1] == last;
    if first.None? {
      NodeIsFlat(p, g, last);
      EndsEncloseInside(p, path, last);
      WalkRises(p, g, w[1..]);
    }
    le := first.value;
    q := WalkProjects(p, g, path, w[1..]);
    forall i | 1 <= i < |w| ensures Inside(path, w[i]) { assert w[1..][i - 1] == w[i]; }
  }

  /** What leads to an instance's exit: a walk to it from a node inside ends at an exported output, having come
      there along a walk of the instance's own graph. */
  lemma ExitProjects(p: Process, g: Graph<FlatName>, path: seq<Name>, w: seq<FlatName>)
    returns (q: seq<Name>, o: Source)
    requires Declared(p) && Validated(p) && Unfolds(p, g) && WellFormed(g)
    requires IsWalk(g, w) && |w| >= 2 && w[|w| - 1] == FlatName(path, Exit) && Inside(path, w[0])
    ensures ScopeAt(p, path).Some? && forall i :: 0 <= i < |w| - 1 ==> Inside(path, w[i])
    ensures var d := DefinitionOf(p, ScopeAt(p, path).value);
      && q != [] && IsWalk(LocalGraph(d), q) && q[0] == w[0].path[|path|]
      && o in d.outputs && o == Local(q[|q| - 1])
  {
    hide Unfolds, WellFormed, Validated, Declared, LocalGraph, IsWalk, HasEdge, IsEdgeOf, ScopeAt, NodeKey, LexLess,
      IsFlatNode, KindIn;
    WalkNodes(g, w);
    var n := |w| - 1;
    var at := EdgeOfWalk(p, g, w, n - 1);
    o := IntoExit(p, path, at, Edge(w[n - 1], w[n]));
    WalkTail(g, w, n);
    var head := w[..n];
    assert head[|head| - 1] == w[n - 1];
    if o.Input? {
      NodeIsFlat(p, g, w[0]);
      EndsEncloseInside(p, path, w[0]);
      WalkRises(p, g, head);
    }
    q := WalkProjects(p, g, path, head);
    forall i | 0 <= i < n ensures Inside(path, w[i]) { assert head[i] == w[i]; }
  }

  lemma WalkNodes(g: Graph<FlatName>, w: seq<FlatName>)
    requires WellFormed(g) && IsWalk(g, w) && |w| >= 2
    ensures forall i :: 0 <= i < |w| ==> w[i] in g.nodes
  {
    forall i | 0 <= i < |w| ensures w[i] in g.nodes {
      if i == 0 {
        EdgeEndsAreNodes(g, w[0], w[1]);
      } else {
        assert HasEdge(g, w[i - 1], w[i]);
        EdgeEndsAreNodes(g, w[i - 1], w[i]);
      }
    }
  }

  /** A walk through an instance, from its entrance to its exit, is an exported input, or projects to a walk of the
      instance's own graph from a target of `__input__` to an exported output. */
  lemma PassageProjects(p: Process, g: Graph<FlatName>, path: seq<Name>, w: seq<FlatName>)
    returns (le: Option<LocalEdge>, q: seq<Name>, o: Source)
    requires Declared(p) && Validated(p) && Unfolds(p, g) && WellFormed(g)
    requires IsWalk(g, w) && |w| >= 2 && w[0] == FlatName(path, Entrance) && w[|w| - 1] == FlatName(path, Exit)
    ensures ScopeAt(p, path).Some? && forall i :: 1 <= i < |w| - 1 ==> Inside(path, w[i])
    ensures var d := DefinitionOf(p, ScopeAt(p, path).value);
      o in d.outputs
      && if |w| == 2 then le.None? && o == Input
         else le.Some? && le.value in d.edges && le.value.source.Input?
              && q != [] && IsWalk(LocalGraph(d), q) && q[0] == le.value.target && o == Local(q[|q| - 1])
  {
    hide Unfolds, WellFormed, Validated, Declared, LocalGraph, IsWalk, HasEdge, IsEdgeOf, ScopeAt, NodeKey, LexLess,
      IsFlatNode, KindIn;
    WalkNodes(g, w);
    var at := EdgeOfWalk(p, g, w, 0);
    le := FromEntrance(p, path, at, Edge(w[0], w[1]));
    WalkHead(g, w);
    var tail := w[1..];
    assert tail[|tail| - 1] == w[|w| - 1];
    if le.None? {
      o := Input;
      q := [];
      if |w| > 2 {
        WalkRises(p, g, tail);
        NotBelowItself(NodeKey(p, FlatName(path, Exit)));
      }
    } else {
      q, o := ExitProjects(p, g, path, tail);
      forall i | 1 <= i < |w| - 1 ensures Inside(path, w[i]) { assert tail[i - 1] == w[i]; }
    }
  }

  // ------------------------------------------------------------------ an instance is met at its ends only

  /** An edge into an instance leads to its entrance, an edge out of it comes from its exit. */
  lemma InstancesAreEncapsulated(p: Process, g: Graph<FlatName>, path: seq<Name>, e: Edge<FlatName>)
    requires Unfolds(p, g) && e in g.edges && path != [] && ScopeAt(p, path).Some?
    ensures path <= e.target.path && !(path <= e.source.path) ==> e.target == FlatName(path, Entrance)
    ensures path <= e.source.path && !(path <= e.target.path) ==> e.source == FlatName(path, Exit)
  {
    assert IsFlatEdge(p, e);
    var at :| IsEdgeOf(p, at, e);
    hide IsEdgeOf, ScopeAt, Unfolds;
    if path <= e.target.path && !(path <= e.source.path) {
      IntoInstance(p, at, path, e);
    } else if path <= e.source.path && !(path <= e.target.path) {
      OutOfInstance(p, at, path, e);
    }
  }

  lemma IntoInstance(p: Process, at: seq<Name>, path: seq<Name>, e: Edge<FlatName>)
    requires IsEdgeOf(p, at, e) && path != [] && ScopeAt(p, path).Some?
    requires path <= e.target.path && !(path <= e.source.path)
    ensures e.target == FlatName(path, Entrance)
  {
    hide KindIn, ScopeAt;
    var d := DefinitionOf(p, ScopeAt(p, at).value);
    EdgeStartsAt(p, at, e);
    OnlyNextTo(at, path, e.source.path, e.target.path);
    if le :| FromEdge(d, at, le, e) {
      OfInstance(p, at, path, le.target);
    }
  }

  lemma OutOfInstance(p: Process, at: seq<Name>, path: seq<Name>, e: Edge<FlatName>)
    requires IsEdgeOf(p, at, e) && path != [] && ScopeAt(p, path).Some?
    requires path <= e.source.path && !(path <= e.target.path)
    ensures e.source == FlatName(path, Exit)
  {
    hide KindIn, ScopeAt;
    var d := DefinitionOf(p, ScopeAt(p, at).value);
    EdgeStartsAt(p, at, e);
    OnlyNextTo(at, path, e.target.path, e.source.path);
    if le :| FromEdge(d, at, le, e) {
      if le.source.Local? { OfInstance(p, at, path, le.source.name); }
    } else {
      var o :| FromOutput(d, at, o, e);
      if o.Local? { OfInstance(p, at, path, o.name); }
    }
  }

  /** The ends of an edge of the instance at `at` are the instance's own ends or those of its children. */
  lemma EdgeStartsAt(p: Process, at: seq<Name>, e: Edge<FlatName>)
    requires IsEdgeOf(p, at, e)
    ensures at <= e.source.path && |e.source.path| <= |at| + 1
    ensures at <= e.target.path && |e.target.path| <= |at| + 1
  {
    hide KindIn, ScopeAt;
  }

  lemma OnlyNextTo(at: seq<Name>, path: seq<Name>, outer: seq<Name>, inner: seq<Name>)
    requires at <= outer && at <= inner && |inner| <= |at| + 1
    requires path <= inner && !(path <= outer)
    ensures inner == path && |path| == |at| + 1 && path[..|at|] == at
  {
    assert inner[..|at|] == at && outer[..|at|] == at;
  }

  lemma OfInstance(p: Process, at: seq<Name>, path: seq<Name>, x: Name)
    requires path == at + [x] && ScopeAt(p, path).Some?
    ensures ScopeAt(p, at).Some? && KindIn(DefinitionOf(p, ScopeAt(p, at).value).children, x).Instance?
  {
    assert path[..|path| - 1] == at;
  }

  /** e comes from what the document calls s in the instance at path: its entrance, or a way out of the child. */
  ghost predicate ComesFrom(path: seq<Name>, s: Source, v: FlatName) {
    match s
    case Input => v == FlatName(path, Entrance)
    case Local(x) => v.path == path + [x] && v.port != Entrance
  }

  ghost predicate LeadsTo(path: seq<Name>, x: Name, v: FlatName) {
    v.path == path + [x] && v.port != Exit
  }

  /** Every edge of an instance's graph is there between the two children, or from the instance's entrance. */
  lemma ConnectionsAreThere(p: Process, g: Graph<FlatName>, path: seq<Name>, le: LocalEdge) returns (e: Edge<FlatName>)
    requires Unfolds(p, g) && ScopeAt(p, path).Some? && le in DefinitionOf(p, ScopeAt(p, path).value).edges
    ensures e in g.edges && ComesFrom(path, le.source, e.source) && LeadsTo(path, le.target, e.target)
  {
    hide ScopeAt, KindIn;
    var d := DefinitionOf(p, ScopeAt(p, path).value);
    e := Edge(SourcePort(d, path, le.source), TargetPort(d, path, le.target));
    assert FromEdge(d, path, le, e);
    assert IsEdgeOf(p, path, e);
    assert IsFlatEdge(p, e);
  }

  /** Every exported output is connected to the instance's exit. */
  lemma OutputsAreThere(p: Process, g: Graph<FlatName>, path: seq<Name>, o: Source) returns (e: Edge<FlatName>)
    requires Unfolds(p, g) && ScopeAt(p, path).Some? && o in DefinitionOf(p, ScopeAt(p, path).value).outputs
    ensures e in g.edges && ComesFrom(path, o, e.source) && e.target == FlatName(path, Exit)
  {
    hide ScopeAt, KindIn;
    var d := DefinitionOf(p, ScopeAt(p, path).value);
    e := Edge(SourcePort(d, path, o), FlatName(path, Exit));
    assert FromOutput(d, path, o, e);
    assert IsEdgeOf(p, path, e);
    assert IsFlatEdge(p, e);
  }

  /** And there is no other edge. */
  lemma NothingElseIsConnected(p: Process, g: Graph<FlatName>, e: Edge<FlatName>)
    returns (path: seq<Name>, d: Definition, s: Source)
    requires Unfolds(p, g) && e in g.edges
    ensures ScopeAt(p, path).Some? && d == DefinitionOf(p, ScopeAt(p, path).value) && ComesFrom(path, s, e.source)
    ensures (s in d.outputs && e.target == FlatName(path, Exit))
      || exists x :: LocalEdge(s, x) in d.edges && LeadsTo(path, x, e.target)
  {
    hide ScopeAt, KindIn;
    assert IsFlatEdge(p, e);
    path :| IsEdgeOf(p, path, e);
    d := DefinitionOf(p, ScopeAt(p, path).value);
    if le :| FromEdge(d, path, le, e) {
      s := le.source;
      assert LocalEdge(s, le.target) in d.edges && LeadsTo(path, le.target, e.target);
    } else {
      s :| FromOutput(d, path, s, e);
    }
  }
}
