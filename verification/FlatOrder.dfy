/** The order in which the inliner lists the flat graph's nodes and edges, which the final sort builds on. */
module FlatOrder {
  import opened Graphs
  import opened Wrappers
  import opened Modules
  import opened FlatDependencies
  import opened Unfolding

  /** The names declared where a path leads. */
  ghost function NamesAt(p: Process, path: seq<Name>): seq<Name> {
    var s := ScopeAt(p, path);
    if s.Some? then Names(DefinitionOf(p, s.value)) else []
  }

  /** The place of each name on a path among those declared beside it. */
  ghost function Places(p: Process, path: seq<Name>): (r: seq<int>)
    ensures |r| == |path|
  {
    if path == [] then []
    else
      var n := |path| - 1;
      Places(p, path[..n]) + [Position(NamesAt(p, path[..n]), path[n])]
  }

  /** An instance's entrance and exit come before everything inside it. */
  ghost function NodePlace(p: Process, v: FlatName): seq<int> {
    Places(p, v.path) + match v.port case Entrance => [-2] case Exit => [-1] case Plain => []
  }

  /** The nodes are listed in declaration order, instances where they are declared, from the outside in. */
  ghost predicate NodesOrdered(p: Process, nodes: seq<FlatName>) {
    forall i, j :: 0 <= i < j < |nodes| ==> LexLess(NodePlace(p, nodes[i]), NodePlace(p, nodes[j]))
  }

  /** An edge, or after the edges an exported output, of the instance at a path. */
  type Occurrence = (seq<Name>, nat)

  /** An instance's own edges come after everything inside its children, edges before outputs. */
  ghost function EdgePlace(p: Process, o: Occurrence): seq<int> {
    Places(p, o.0) + [|NamesAt(p, o.0)| + o.1]
  }

  ghost predicate Occurs(p: Process, o: Occurrence) {
    var s := ScopeAt(p, o.0);
    s.Some? && o.1 < |DefinitionOf(p, s.value).edges| + |DefinitionOf(p, s.value).outputs|
  }

  ghost predicate StandsFor(p: Process, o: Occurrence, e: Edge<FlatName>) {
    Occurs(p, o)
    && var d := DefinitionOf(p, ScopeAt(p, o.0).value);
       if o.1 < |d.edges|
       then ComesFrom(o.0, d.edges[o.1].source, e.source) && LeadsTo(o.0, d.edges[o.1].target, e.target)
       else ComesFrom(o.0, d.outputs[o.1 - |d.edges|], e.source) && e.target == FlatName(o.0, Exit)
  }

  /** The edges stand for these occurrences, one each and in order. */
  ghost predicate Traces(p: Process, edges: seq<Edge<FlatName>>, origin: seq<Occurrence>) {
    && |origin| == |edges| && (forall i :: 0 <= i < |edges| ==> StandsFor(p, origin[i], edges[i]))
    && forall i, j :: 0 <= i < j < |origin| ==> LexLess(EdgePlace(p, origin[i]), EdgePlace(p, origin[j]))
  }

  /** The edges are those of all instances, each once, inner ones first. */
  ghost predicate EdgesOrdered(p: Process, edges: seq<Edge<FlatName>>) {
    exists origin :: Traces(p, edges, origin) && forall o :: Occurs(p, o) ==> o in origin
  }

  // ------------------------------------------------------------------ places

  lemma {:induction false} PlacesOfPrefix(p: Process, path: seq<Name>, m: nat)
    requires m <= |path|
    ensures Places(p, path)[..m] == Places(p, path[..m])
  {
    hide NamesAt, Position;
    if m == |path| {
      assert path[..m] == path;
    } else {
      PlacesOfPrefix(p, path[..|path| - 1], m);
      assert path[..|path| - 1][..m] == path[..m];
    }
  }

  lemma PlaceIn(p: Process, path: seq<Name>, m: nat)
    requires m < |path|
    ensures Places(p, path)[m] == Position(NamesAt(p, path[..m]), path[m])
  {
    hide NamesAt, Position;
    PlacesOfPrefix(p, path, m + 1);
    assert path[..m + 1][..m] == path[..m] && path[..m + 1][m] == path[m];
    assert Places(p, path)[m] == Places(p, path)[..m + 1][m];
  }

  /** At or below child i of the instance at path. */
  lemma PlaceOfChild(p: Process, path: seq<Name>, s: Scope, i: nat, at: seq<Name>)
    requires ScopeAt(p, path) == Some(s) && Distinct(Names(DefinitionOf(p, s))) && i < |DefinitionOf(p, s).children|
    requires path + [DefinitionOf(p, s).children[i].name] <= at
    ensures |path| < |at| && Places(p, at)[..|path|] == Places(p, path) && Places(p, at)[|path|] == i
  {
    var x := DefinitionOf(p, s).children[i].name;
    PositionOfChild(DefinitionOf(p, s), i);
    assert NamesAt(p, path) == Names(DefinitionOf(p, s));
    hide ScopeAt, Places, Position, NamesAt, Distinct;
    HeadOfPrefix(path, x, at);
    assert at[..|path|] == path by { PrefixOfPrefix(path, x, at); }
    PlacesOfPrefix(p, at, |path|);
    PlaceIn(p, at, |path|);
  }

  lemma PrefixOfPrefix(path: seq<Name>, x: Name, at: seq<Name>)
    requires path + [x] <= at
    ensures at[..|path|] == path
  {
    assert (path + [x])[..|path|] == path;
  }

  lemma PositionOfChild(d: Definition, i: nat)
    requires Distinct(Names(d)) && i < |d.children|
    ensures Position(Names(d), d.children[i].name) == i
  {
    assert Names(d)[i] == d.children[i].name;
  }

  lemma BelowSomeChild(path: seq<Name>, children: seq<Child>, at: seq<Name>) returns (i: nat)
    requires Below(path, children, at)
    ensures i < |children| && path + [children[i].name] <= at
  {
    i :| 0 <= i < |children| && children[i].name == at[|path|];
    assert at[..|path| + 1] == path + [children[i].name];
  }

  lemma LessFrom(a: seq<int>, b: seq<int>, m: nat)
    requires m < |a| && m < |b| && a[..m] == b[..m] && a[m] < b[m]
    ensures LexLess(a, b)
  {
    assert LessAt(a, b, m);
  }

  /** What is at or below an earlier child comes before what is at or below a later one. */
  lemma EarlierChild(p: Process, path: seq<Name>, s: Scope, n: nat, at: seq<Name>, to: seq<Name>, x: seq<int>,
                     y: seq<int>)
    requires ScopeAt(p, path) == Some(s) && Distinct(Names(DefinitionOf(p, s))) && n < |DefinitionOf(p, s).children|
    requires Below(path, DefinitionOf(p, s).children[..n], at)
      && path + [DefinitionOf(p, s).children[n].name] <= to
    ensures LexLess(Places(p, at) + x, Places(p, to) + y)
  {
    hide ScopeAt, Places, Below;
    var i := BelowSomeChild(path, DefinitionOf(p, s).children[..n], at);
    PlaceOfChild(p, path, s, i, at);
    PlaceOfChild(p, path, s, n, to);
    var a, b := Places(p, at) + x, Places(p, to) + y;
    assert a[..|path|] == Places(p, at)[..|path|] && b[..|path|] == Places(p, to)[..|path|];
    LessFrom(a, b, |path|);
  }

  /** A place below the instance at path, seen from there. */
  lemma InsidePlace(p: Process, path: seq<Name>, s: Scope, at: seq<Name>, x: seq<int>)
    requires ScopeAt(p, path) == Some(s) && Distinct(Names(DefinitionOf(p, s)))
    requires Below(path, DefinitionOf(p, s).children, at)
    ensures var a := Places(p, at) + x;
      |path| < |a| && a[..|path|] == Places(p, path) && 0 <= a[|path|] < |NamesAt(p, path)|
  {
    hide ScopeAt, Places, Below;
    var i := BelowSomeChild(path, DefinitionOf(p, s).children, at);
    PlaceOfChild(p, path, s, i, at);
    var a := Places(p, at) + x;
    assert a[..|path|] == Places(p, at)[..|path|];
  }

  // ------------------------------------------------------------------ nodes

  lemma JoinNodes(p: Process, a: seq<FlatName>, b: seq<FlatName>)
    requires NodesOrdered(p, a) && NodesOrdered(p, b)
    requires forall u, v :: u in a && v in b ==> LexLess(NodePlace(p, u), NodePlace(p, v))
    ensures NodesOrdered(p, a + b)
  {
    hide NodePlace, LexLess;
    var all := a + b;
    forall i, j | 0 <= i < j < |all| ensures LexLess(NodePlace(p, all[i]), NodePlace(p, all[j])) {
      if j < |a| {
        assert all[i] == a[i] && all[j] == a[j];
      } else if i < |a| {
        assert all[i] in a && all[j] in b;
      } else {
        assert all[i] == b[i - |a|] && all[j] == b[j - |a|];
      }
    }
  }

  lemma {:induction false} ChildNodesOrdered(p: Process, resolved: seq<Name>, path: seq<Name>, s: Scope, n: nat,
                                             bound: nat)
    requires Declared(p) && Ranked(p, resolved) && ScopeAt(p, path) == Some(s)
    requires n <= |DefinitionOf(p, s).children| && KeysBelow(DefinitionOf(p, s).children[..n], resolved, bound)
    ensures NodesOrdered(p, ChildNodes(p, resolved, path, DefinitionOf(p, s).children[..n], bound))
    decreases bound, n
  {
    if n == 0 {
      NothingBelowNobody(p, resolved, path, bound);
    } else {
      var children := DefinitionOf(p, s).children;
      ChildrenAreDistinct(p, path, s);
      BelowOne(resolved, children, n, bound);
      hide ScopeAt, Ranked, KeysBelow, Declared, NodesOrdered, ChildNodes, NodesOfChild, Below, IsFlatNode;
      ChildNodesOrdered(p, resolved, path, s, n - 1, bound);
      OneChildOrdered(p, resolved, path, s, n - 1, bound);
      ChildNodesAre(p, resolved, path, s, n - 1, bound);
      OneChildNodesAre(p, resolved, path, s, n - 1, bound);
      var before, added := ChildNodes(p, resolved, path, children[..n - 1], bound),
        NodesOfChild(p, resolved, path, children[n - 1], bound);
      forall u, v | u in before && v in added ensures LexLess(NodePlace(p, u), NodePlace(p, v)) {
        NodeOfEarlierChild(p, path, s, n - 1, u, v);
      }
      JoinNodes(p, before, added);
      assert children[..n][n - 1] == children[n - 1] && children[..n][..n - 1] == children[..n - 1];
      ChildNodesStep(p, resolved, path, children[..n], bound);
    }
  }

  lemma NodeOfEarlierChild(p: Process, path: seq<Name>, s: Scope, n: nat, u: FlatName, v: FlatName)
    requires ScopeAt(p, path) == Some(s) && Distinct(Names(DefinitionOf(p, s))) && n < |DefinitionOf(p, s).children|
    requires Below(path, DefinitionOf(p, s).children[..n], u.path)
      && path + [DefinitionOf(p, s).children[n].name] <= v.path
    ensures LexLess(NodePlace(p, u), NodePlace(p, v))
  {
    hide ScopeAt, Below, Places, LexLess;
    EarlierChild(p, path, s, n, u.path, v.path,
                 match u.port case Entrance => [-2] case Exit => [-1] case Plain => [],
                 match v.port case Entrance => [-2] case Exit => [-1] case Plain => []);
  }

  lemma {:induction false} OneChildOrdered(p: Process, resolved: seq<Name>, path: seq<Name>, s: Scope, i: nat,
                                           bound: nat)
    requires Declared(p) && Ranked(p, resolved) && ScopeAt(p, path) == Some(s)
    requires Distinct(Names(DefinitionOf(p, s))) && i < |DefinitionOf(p, s).children|
    requires KeysBelow([DefinitionOf(p, s).children[i]], resolved, bound)
    ensures NodesOrdered(p, NodesOfChild(p, resolved, path, DefinitionOf(p, s).children[i], bound))
    decreases bound, 0
  {
    hide ScopeAt, InstanceNodes, Declared;
    var c := DefinitionOf(p, s).children[i];
    if c.kind.Instance? {
      RankBelow(resolved, c.kind.key, bound);
      InstanceChild(p, path, s, i);
      InstanceNodesOrdered(p, resolved, path + [c.name], c.kind.key);
    }
  }

  lemma {:induction false} InstanceNodesOrdered(p: Process, resolved: seq<Name>, here: seq<Name>, k: Name)
    requires Declared(p) && Ranked(p, resolved) && k in resolved && ScopeAt(p, here) == Some(Body(k))
    ensures NodesOrdered(p, InstanceNodes(p, resolved, here, k))
    decreases Rank(resolved, k)
  {
    var body := p.modules[k];
    assert body.children[..|body.children|] == body.children;
    ChildNodesOrdered(p, resolved, here, Body(k), |body.children|, Rank(resolved, k));
    ChildNodesAre(p, resolved, here, Body(k), |body.children|, Rank(resolved, k));
    ChildrenAreDistinct(p, here, Body(k));
    var inner := ChildNodes(p, resolved, here, body.children, Rank(resolved, k));
    EndsBeforeInner(p, here, Body(k), inner);
  }

  lemma EndsBeforeInner(p: Process, here: seq<Name>, s: Scope, inner: seq<FlatName>)
    requires ScopeAt(p, here) == Some(s) && Distinct(Names(DefinitionOf(p, s)))
    requires NodesOrdered(p, inner) && forall v :: v in inner ==> Below(here, DefinitionOf(p, s).children, v.path)
    ensures NodesOrdered(p, [FlatName(here, Entrance), FlatName(here, Exit)] + inner)
  {
    hide ScopeAt, Below, Places, NodesOrdered;
    var ends := [FlatName(here, Entrance), FlatName(here, Exit)];
    EndsOrdered(p, here);
    forall u, v | u in ends && v in inner ensures LexLess(NodePlace(p, u), NodePlace(p, v)) {
      InsidePlace(p, here, s, v.path, match v.port case Entrance => [-2] case Exit => [-1] case Plain => []);
      var a := NodePlace(p, u);
      assert a[..|here|] == Places(p, here) && a[|here|] < 0;
      LessFrom(a, NodePlace(p, v), |here|);
    }
    JoinNodes(p, ends, inner);
  }

  lemma EndsOrdered(p: Process, here: seq<Name>)
    ensures NodesOrdered(p, [FlatName(here, Entrance), FlatName(here, Exit)])
  {
    hide Places;
    var a, b := Places(p, here) + [-2], Places(p, here) + [-1];
    assert a[..|here|] == b[..|here|];
    LessFrom(a, b, |here|);
  }

  // ------------------------------------------------------------------ edges

  lemma JoinTraces(p: Process, a: seq<Edge<FlatName>>, x: seq<Occurrence>, b: seq<Edge<FlatName>>, y: seq<Occurrence>)
    requires Traces(p, a, x) && Traces(p, b, y)
    requires forall o, q :: o in x && q in y ==> LexLess(EdgePlace(p, o), EdgePlace(p, q))
    ensures Traces(p, a + b, x + y)
  {
    hide EdgePlace, LexLess, StandsFor;
    var all := x + y;
    forall i, j | 0 <= i < j < |all| ensures LexLess(EdgePlace(p, all[i]), EdgePlace(p, all[j])) {
      if j < |x| {
        assert all[i] == x[i] && all[j] == x[j];
      } else if i < |x| {
        assert all[i] in x && all[j] in y;
      } else {
        assert all[i] == y[i - |x|] && all[j] == y[j - |x|];
      }
    }
  }

  lemma OwnTraces(p: Process, path: seq<Name>, s: Scope) returns (origin: seq<Occurrence>)
    requires ScopeAt(p, path) == Some(s)
    ensures Traces(p, OwnEdges(DefinitionOf(p, s), path), origin)
    ensures (forall o :: o in origin ==> o.0 == path) && forall o :: Occurs(p, o) && o.0 == path ==> o in origin
  {
    hide ScopeAt, KindIn, Places, NamesAt;
    var d := DefinitionOf(p, s);
    origin := seq(|d.edges| + |d.outputs|, m requires 0 <= m => (path, m));
    forall i, j | 0 <= i < j < |origin| ensures LexLess(EdgePlace(p, origin[i]), EdgePlace(p, origin[j])) {
      var a, b := EdgePlace(p, origin[i]), EdgePlace(p, origin[j]);
      assert a[..|path|] == b[..|path|];
      LessFrom(a, b, |path|);
    }
    forall o: Occurrence | Occurs(p, o) && o.0 == path ensures o in origin { assert origin[o.1] == o; }
  }

  /** The occurrences of the instances at or below one of the children. */
  ghost predicate CoversBelow(p: Process, path: seq<Name>, children: seq<Child>, origin: seq<Occurrence>) {
    && (forall o :: o in origin ==> Below(path, children, o.0))
    && forall o :: Occurs(p, o) && Below(path, children, o.0) ==> o in origin
  }

  /** Those of the instances at or below one place. */
  ghost predicate CoversFrom(p: Process, here: seq<Name>, origin: seq<Occurrence>) {
    && (forall o :: o in origin ==> here <= o.0)
    && forall o :: Occurs(p, o) && here <= o.0 ==> o in origin
  }

  lemma {:induction false} ChildTraces(p: Process, resolved: seq<Name>, path: seq<Name>, s: Scope, n: nat, bound: nat)
    returns (origin: seq<Occurrence>)
    requires Declared(p) && Ranked(p, resolved) && ScopeAt(p, path) == Some(s)
    requires n <= |DefinitionOf(p, s).children| && KeysBelow(DefinitionOf(p, s).children[..n], resolved, bound)
    ensures Traces(p, ChildEdges(p, resolved, path, DefinitionOf(p, s).children[..n], bound), origin)
    ensures CoversBelow(p, path, DefinitionOf(p, s).children[..n], origin)
    decreases bound, n
  {
    var children := DefinitionOf(p, s).children;
    if n == 0 {
      origin := [];
      NothingToTrace(p, resolved, path, bound);
      assert children[..n] == [];
    } else {
      ChildrenAreDistinct(p, path, s);
      BelowOne(resolved, children, n, bound);
      hide ScopeAt, Ranked, Declared, ChildEdges, InstanceEdges, Below, Traces, CoversBelow, CoversFrom;
      var c := children[n - 1];
      var before := ChildTraces(p, resolved, path, s, n - 1, bound);
      var added: seq<Occurrence> := [];
      if c.kind.Instance? {
        RankBelow(resolved, c.kind.key, bound);
        InstanceChild(p, path, s, n - 1);
        added := InstanceTraces(p, resolved, path + [c.name], c.kind.key);
      } else {
        NoneInPlain(p, path, s, n - 1);
      }
      origin := before + added;
      OneChildTraced(p, resolved, path, s, n, bound, before, added);
    }
  }

  lemma NothingToTrace(p: Process, resolved: seq<Name>, path: seq<Name>, bound: nat)
    requires Ranked(p, resolved) && KeysBelow([], resolved, bound)
    ensures ChildEdges(p, resolved, path, [], bound) == []
    ensures Traces(p, [], []) && CoversBelow(p, path, [], [])
  {
  }

  lemma NoneInPlain(p: Process, path: seq<Name>, s: Scope, i: nat)
    requires ScopeAt(p, path) == Some(s) && Distinct(Names(DefinitionOf(p, s))) && i < |DefinitionOf(p, s).children|
    requires !DefinitionOf(p, s).children[i].kind.Instance?
    ensures Traces(p, [], []) && CoversFrom(p, path + [DefinitionOf(p, s).children[i].name], [])
  {
    var here := path + [DefinitionOf(p, s).children[i].name];
    forall o: Occurrence | here <= o.0 ensures !Occurs(p, o) { PlainChild(p, path, s, i, o.0); }
  }

  lemma OneChildTraced(p: Process, resolved: seq<Name>, path: seq<Name>, s: Scope, n: nat, bound: nat,
                       before: seq<Occurrence>, added: seq<Occurrence>)
    requires Ranked(p, resolved) && ScopeAt(p, path) == Some(s) && Distinct(Names(DefinitionOf(p, s)))
    requires 0 < n <= |DefinitionOf(p, s).children| && KeysBelow(DefinitionOf(p, s).children[..n], resolved, bound)
      && KeysBelow(DefinitionOf(p, s).children[..n - 1], resolved, bound)
    requires Traces(p, ChildEdges(p, resolved, path, DefinitionOf(p, s).children[..n - 1], bound), before)
    requires CoversBelow(p, path, DefinitionOf(p, s).children[..n - 1], before)
    requires var c := DefinitionOf(p, s).children[n - 1];
      (c.kind.Instance? ==>
         c.kind.key in resolved && Traces(p, InstanceEdges(p, resolved, path + [c.name], c.kind.key), added))
      && (!c.kind.Instance? ==> Traces(p, [], added)) && CoversFrom(p, path + [c.name], added)
    ensures Traces(p, ChildEdges(p, resolved, path, DefinitionOf(p, s).children[..n], bound), before + added)
    ensures CoversBelow(p, path, DefinitionOf(p, s).children[..n], before + added)
  {
    hide *;
    var children := DefinitionOf(p, s).children;
    var c := children[n - 1];
    ChildEdgesStep(p, resolved, path, children, n, bound);
    AddTraced(p, path, s, n, ChildEdges(p, resolved, path, children[..n - 1], bound), before,
              if c.kind.Instance? then InstanceEdges(p, resolved, path + [c.name], c.kind.key) else [], added);
  }

  /** One more child's edges after those of the children before it. */
  lemma AddTraced(p: Process, path: seq<Name>, s: Scope, n: nat, edges: seq<Edge<FlatName>>, before: seq<Occurrence>,
                  more: seq<Edge<FlatName>>, added: seq<Occurrence>)
    requires ScopeAt(p, path) == Some(s) && Distinct(Names(DefinitionOf(p, s)))
    requires 0 < n <= |DefinitionOf(p, s).children|
    requires Traces(p, edges, before) && CoversBelow(p, path, DefinitionOf(p, s).children[..n - 1], before)
    requires Traces(p, more, added) && CoversFrom(p, path + [DefinitionOf(p, s).children[n - 1].name], added)
    ensures Traces(p, edges + more, before + added)
    ensures CoversBelow(p, path, DefinitionOf(p, s).children[..n], before + added)
  {
    hide ScopeAt, Below, Traces, Occurs, Places, LexLess, NamesAt, Distinct;
    var children := DefinitionOf(p, s).children;
    forall o, q | o in before && q in added ensures LexLess(EdgePlace(p, o), EdgePlace(p, q)) {
      EarlierChild(p, path, s, n - 1, o.0, q.0, [|NamesAt(p, o.0)| + o.1], [|NamesAt(p, q.0)| + q.1]);
    }
    JoinTraces(p, edges, before, more, added);
    assert children[..n][n - 1] == children[n - 1] && children[..n][..n - 1] == children[..n - 1];
    hide CoversBelow, CoversFrom;
    CoverOneMore(p, path, children[..n], before, added);
  }

  lemma ChildEdgesStep(p: Process, resolved: seq<Name>, path: seq<Name>, children: seq<Child>, n: nat, bound: nat)
    requires Ranked(p, resolved) && 0 < n <= |children| && KeysBelow(children[..n], resolved, bound)
      && KeysBelow(children[..n - 1], resolved, bound)
    requires children[n - 1].kind.Instance? ==> children[n - 1].kind.key in resolved
    ensures ChildEdges(p, resolved, path, children[..n], bound) ==
      ChildEdges(p, resolved, path, children[..n - 1], bound)
      + (if children[n - 1].kind.Instance?
         then InstanceEdges(p, resolved, path + [children[n - 1].name], children[n - 1].kind.key) else [])
  {
    hide InstanceEdges;
    assert children[..n][n - 1] == children[n - 1] && children[..n][..n - 1] == children[..n - 1];
  }

  lemma CoverOneMore(p: Process, path: seq<Name>, children: seq<Child>, before: seq<Occurrence>,
                     added: seq<Occurrence>)
    requires children != [] && CoversBelow(p, path, children[..|children| - 1], before)
      && CoversFrom(p, path + [children[|children| - 1].name], added)
    ensures CoversBelow(p, path, children, before + added)
  {
    hide Below, Occurs;
    forall o: Occurrence
      ensures var n := |children| - 1;
        Below(path, children, o.0) <==> Below(path, children[..n], o.0) || path + [children[n].name] <= o.0
    {
      BelowSplits(path, children, o.0);
    }
  }

  lemma {:induction false} InstanceTraces(p: Process, resolved: seq<Name>, here: seq<Name>, k: Name)
    returns (origin: seq<Occurrence>)
    requires Declared(p) && Ranked(p, resolved) && k in resolved && ScopeAt(p, here) == Some(Body(k))
    ensures Traces(p, InstanceEdges(p, resolved, here, k), origin) && CoversFrom(p, here, origin)
    decreases Rank(resolved, k)
  {
    var body := p.modules[k];
    assert body.children[..|body.children|] == body.children;
    var inner := ChildTraces(p, resolved, here, Body(k), |body.children|, Rank(resolved, k));
    ChildrenAreDistinct(p, here, Body(k));
    var own := OwnTraces(p, here, Body(k));
    origin := inner + own;
    InnerThenOwn(p, here, Body(k), ChildEdges(p, resolved, here, body.children, Rank(resolved, k)), inner, own);
  }

  /** Everything inside an instance, then its own edges. */
  lemma InnerThenOwn(p: Process, here: seq<Name>, s: Scope, edges: seq<Edge<FlatName>>, inner: seq<Occurrence>,
                     own: seq<Occurrence>)
    requires ScopeAt(p, here) == Some(s) && Distinct(Names(DefinitionOf(p, s)))
    requires Traces(p, edges, inner) && CoversBelow(p, here, DefinitionOf(p, s).children, inner)
    requires Traces(p, OwnEdges(DefinitionOf(p, s), here), own)
    requires (forall o :: o in own ==> o.0 == here) && forall o :: Occurs(p, o) && o.0 == here ==> o in own
    ensures Traces(p, edges + OwnEdges(DefinitionOf(p, s), here), inner + own) && CoversFrom(p, here, inner + own)
  {
    hide Traces, Below, Places, OwnEdges, NamesAt;
    forall o, q | o in inner && q in own ensures LexLess(EdgePlace(p, o), EdgePlace(p, q)) {
      InsidePlace(p, here, s, o.0, [|NamesAt(p, o.0)| + o.1]);
      var b := EdgePlace(p, q);
      assert b[..|here|] == Places(p, here);
      LessFrom(EdgePlace(p, o), b, |here|);
    }
    JoinTraces(p, edges, inner, OwnEdges(DefinitionOf(p, s), here), own);
    forall o: Occurrence | o in inner ensures here <= o.0 { BelowIsInside(here, DefinitionOf(p, s).children, o.0); }
    forall o: Occurrence | Occurs(p, o) && here <= o.0 ensures o in inner + own {
      if |o.0| > |here| {
        ScopedIsBelow(p, here, o.0);
      } else {
        assert o.0 == here;
      }
    }
  }

  lemma BelowIsInside(path: seq<Name>, children: seq<Child>, at: seq<Name>)
    requires Below(path, children, at)
    ensures path <= at
  {
  }

  // ------------------------------------------------------------------ the flat graph

  /** The flat graph lists its nodes in declaration order, instances where they are declared and from the outside in,
      and its edges instance by instance, from the inside out, each instance's in the document's order. */
  lemma FlatGraphIsOrdered(p: Process, resolved: seq<Name>)
    requires Declared(p) && Ranked(p, resolved) && KeysBelow(p.top.children, resolved, |resolved|)
    ensures NodesOrdered(p, FlatGraph(p, resolved).nodes) && EdgesOrdered(p, FlatGraph(p, resolved).edges)
  {
    assert p.top.children[..|p.top.children|] == p.top.children;
    ChildNodesOrdered(p, resolved, [], Top, |p.top.children|, |resolved|);
    var inner := ChildTraces(p, resolved, [], Top, |p.top.children|, |resolved|);
    ChildrenAreDistinct(p, [], Top);
    var own := OwnTraces(p, [], Top);
    InnerThenOwn(p, [], Top, ChildEdges(p, resolved, [], p.top.children, |resolved|), inner, own);
    AllAreCovered(p, inner + own);
  }

  lemma AllAreCovered(p: Process, origin: seq<Occurrence>)
    requires CoversFrom(p, [], origin)
    ensures forall o :: Occurs(p, o) ==> o in origin
  {
    assert forall o: Occurrence :: [] <= o.0;
  }
}
