/** The node and edge lists the inliner produces, as functions of the resolution order of the modules,
    and the proof that they are exactly the unfolded hierarchy. */
module Unfolding {
  import opened Graphs
  import opened Wrappers
  import opened Modules
  import opened FlatDependencies

  /** A resolution order: each module after every module it instantiates. */
  ghost predicate Ranked(p: Process, resolved: seq<Name>) {
    && Distinct(resolved)
    && forall i :: 0 <= i < |resolved| ==>
      resolved[i] in p.modules && KeysBelow(p.modules[resolved[i]].children, resolved, i)
  }

  ghost predicate KeysBelow(children: seq<Child>, resolved: seq<Name>, bound: nat) {
    bound <= |resolved| && forall c :: c in children && c.kind.Instance? ==> c.kind.key in resolved[..bound]
  }

  ghost function Rank(resolved: seq<Name>, k: Name): (i: nat)
    requires k in resolved
    ensures i < |resolved| && resolved[i] == k
  {
    var i :| 0 <= i < |resolved| && resolved[i] == k;
    i
  }

  lemma RankBelow(resolved: seq<Name>, k: Name, bound: nat)
    requires Distinct(resolved) && bound <= |resolved| && k in resolved[..bound]
    ensures Rank(resolved, k) < bound
  {
  }

  ghost function InstanceNodes(p: Process, resolved: seq<Name>, path: seq<Name>, k: Name): seq<FlatName>
    requires Ranked(p, resolved) && k in resolved
    decreases Rank(resolved, k)
  {
    [FlatName(path, Entrance), FlatName(path, Exit)]
    + ChildNodes(p, resolved, path, p.modules[k].children, Rank(resolved, k))
  }

  ghost function ChildNodes(p: Process, resolved: seq<Name>, path: seq<Name>, children: seq<Child>,
                            bound: nat): seq<FlatName>
    requires Ranked(p, resolved) && KeysBelow(children, resolved, bound)
    decreases bound, |children|
  {
    if children == [] then []
    else
      var c := children[|children| - 1];
      ChildNodes(p, resolved, path, children[..|children| - 1], bound) + NodesOfChild(p, resolved, path, c, bound)
  }

  ghost function NodesOfChild(p: Process, resolved: seq<Name>, path: seq<Name>, c: Child, bound: nat): seq<FlatName>
    requires Ranked(p, resolved) && bound <= |resolved| && (c.kind.Instance? ==> c.kind.key in resolved[..bound])
    decreases bound, 0
  {
    if c.kind.Instance? then
      RankBelow(resolved, c.kind.key, bound);
      InstanceNodes(p, resolved, path + [c.name], c.kind.key)
    else [FlatName(path + [c.name], Plain)]
  }

  ghost function EdgesOf(d: Definition, path: seq<Name>, n: nat): (r: seq<Edge<FlatName>>)
    requires n <= |d.edges|
    ensures |r| == n
    ensures forall i :: 0 <= i < n ==>
      r[i] == Edge(SourcePort(d, path, d.edges[i].source), TargetPort(d, path, d.edges[i].target))
  {
    seq(n, i requires 0 <= i < n =>
        Edge(SourcePort(d, path, d.edges[i].source), TargetPort(d, path, d.edges[i].target)))
  }

  ghost function OutputsOf(d: Definition, path: seq<Name>, n: nat): (r: seq<Edge<FlatName>>)
    requires n <= |d.outputs|
    ensures |r| == n
    ensures forall i :: 0 <= i < n ==> r[i] == Edge(SourcePort(d, path, d.outputs[i]), FlatName(path, Exit))
  {
    seq(n, i requires 0 <= i < n => Edge(SourcePort(d, path, d.outputs[i]), FlatName(path, Exit)))
  }

  ghost function OwnEdges(d: Definition, path: seq<Name>): seq<Edge<FlatName>> {
    EdgesOf(d, path, |d.edges|) + OutputsOf(d, path, |d.outputs|)
  }

  ghost function InstanceEdges(p: Process, resolved: seq<Name>, path: seq<Name>, k: Name): seq<Edge<FlatName>>
    requires Ranked(p, resolved) && k in resolved
    decreases Rank(resolved, k)
  {
    ChildEdges(p, resolved, path, p.modules[k].children, Rank(resolved, k)) + OwnEdges(p.modules[k], path)
  }

  ghost function ChildEdges(p: Process, resolved: seq<Name>, path: seq<Name>, children: seq<Child>,
                            bound: nat): seq<Edge<FlatName>>
    requires Ranked(p, resolved) && KeysBelow(children, resolved, bound)
    decreases bound, |children|
  {
    if children == [] then []
    else
      var c := children[|children| - 1];
      ChildEdges(p, resolved, path, children[..|children| - 1], bound)
      + (if c.kind.Instance? then
           RankBelow(resolved, c.kind.key, bound);
           InstanceEdges(p, resolved, path + [c.name], c.kind.key)
         else [])
  }

  ghost function FlatGraph(p: Process, resolved: seq<Name>): Graph<FlatName>
    requires Ranked(p, resolved) && KeysBelow(p.top.children, resolved, |resolved|)
  {
    Graph(ChildNodes(p, resolved, [], p.top.children, |resolved|),
          ChildEdges(p, resolved, [], p.top.children, |resolved|) + OwnEdges(p.top, []))
  }

  /** The lists do not depend on which resolution order is used. */
  lemma {:induction false} RankingIrrelevant(p: Process, r1: seq<Name>, r2: seq<Name>, path: seq<Name>,
                                             children: seq<Child>, b1: nat, b2: nat)
    requires Ranked(p, r1) && KeysBelow(children, r1, b1)
    requires Ranked(p, r2) && KeysBelow(children, r2, b2)
    ensures ChildNodes(p, r1, path, children, b1) == ChildNodes(p, r2, path, children, b2)
    ensures ChildEdges(p, r1, path, children, b1) == ChildEdges(p, r2, path, children, b2)
    decreases b1, |children|
  {
    if children == [] {
    } else {
      var c := children[|children| - 1];
      RankingIrrelevant(p, r1, r2, path, children[..|children| - 1], b1, b2);
      if c.kind.Instance? {
        var k := c.kind.key;
        RankBelow(r1, k, b1);
        RankBelow(r2, k, b2);
        var here := path + [c.name];
        RankingIrrelevant(p, r1, r2, here, p.modules[k].children, Rank(r1, k), Rank(r2, k));
        assert InstanceNodes(p, r1, here, k) == InstanceNodes(p, r2, here, k);
        assert InstanceEdges(p, r1, here, k) == InstanceEdges(p, r2, here, k);
      }
    }
  }

  // ------------------------------------------------------------------ membership

  /** v or an edge of the instance `at` belongs to one of the first n children of the instance at path. */
  ghost predicate Below(path: seq<Name>, children: seq<Child>, at: seq<Name>) {
    |path| < |at| && at[..|path|] == path && exists i :: 0 <= i < |children| && children[i].name == at[|path|]
  }

  lemma BelowSplits(path: seq<Name>, children: seq<Child>, at: seq<Name>)
    requires children != []
    ensures var n := |children| - 1;
      Below(path, children, at) <==> Below(path, children[..n], at) || path + [children[n].name] <= at
  {
    var n := |children| - 1;
    if Below(path, children, at) {
      var i :| 0 <= i < |children| && children[i].name == at[|path|];
      if i < n { assert children[..n][i].name == at[|path|]; }
      else { assert at[..|path| + 1] == path + [children[n].name]; }
    }
    if Below(path, children[..n], at) {
      var i :| 0 <= i < n && children[..n][i].name == at[|path|];
      assert children[i].name == at[|path|];
    }
    if path + [children[n].name] <= at {
      assert at[..|path|] == (path + [children[n].name])[..|path|] == path;
      assert at[|path|] == (path + [children[n].name])[|path|];
    }
  }

  /** A child that is not an instance has nothing below it. */
  lemma PlainChild(p: Process, path: seq<Name>, s: Scope, i: nat, at: seq<Name>)
    requires ScopeAt(p, path) == Some(s) && Distinct(Names(DefinitionOf(p, s))) && i < |DefinitionOf(p, s).children|
    requires var c := DefinitionOf(p, s).children[i]; !c.kind.Instance? && path + [c.name] <= at
    ensures ScopeAt(p, at).None?
  {
    var d := DefinitionOf(p, s);
    var x := d.children[i].name;
    assert forall j :: 0 <= j < |d.children| ==> Names(d)[j] == d.children[j].name;
    KindOfChild(d.children, i);
    assert (path + [x])[..|path|] == path;
    assert ScopeAt(p, path + [x]).None?;
    assert at[..|path| + 1] == path + [x];
    if ScopeAt(p, at).Some? {
      ScopeOfPrefix(p, at, |path| + 1);
    }
  }

  lemma InstanceChild(p: Process, path: seq<Name>, s: Scope, i: nat)
    requires ScopeAt(p, path) == Some(s) && Distinct(Names(DefinitionOf(p, s))) && i < |DefinitionOf(p, s).children|
    ensures var c := DefinitionOf(p, s).children[i];
      KindIn(DefinitionOf(p, s).children, c.name) == c.kind
      && (c.kind.Instance? ==> ScopeAt(p, path + [c.name]) == Some(Body(c.kind.key)))
  {
    var d := DefinitionOf(p, s);
    assert forall j :: 0 <= j < |d.children| ==> Names(d)[j] == d.children[j].name;
    KindOfChild(d.children, i);
    assert (path + [d.children[i].name])[..|path|] == path;
  }

  lemma {:induction false} ChildNodesAre(p: Process, resolved: seq<Name>, path: seq<Name>, s: Scope, n: nat, bound: nat)
    requires Declared(p) && Ranked(p, resolved) && ScopeAt(p, path) == Some(s)
    requires n <= |DefinitionOf(p, s).children| && KeysBelow(DefinitionOf(p, s).children[..n], resolved, bound)
    ensures NodesBelow(p, path, DefinitionOf(p, s).children[..n],
                       ChildNodes(p, resolved, path, DefinitionOf(p, s).children[..n], bound))
    decreases bound, n
  {
    if n == 0 {
      NothingBelowNobody(p, resolved, path, bound);
    } else {
      hide *;
      ChildrenAreDistinct(p, path, s);
      BelowOne(resolved, DefinitionOf(p, s).children, n, bound);
      ChildNodesAre(p, resolved, path, s, n - 1, bound);
      OneChildNodesAre(p, resolved, path, s, n - 1, bound);
      FewerNames(DefinitionOf(p, s).children, n);
      OneChildMoreNodes(p, resolved, path, DefinitionOf(p, s).children, n, bound);
    }
  }

  lemma NothingBelowNobody(p: Process, resolved: seq<Name>, path: seq<Name>, bound: nat)
    requires Ranked(p, resolved) && KeysBelow([], resolved, bound)
    ensures ChildNodes(p, resolved, path, [], bound) == [] && forall at :: !Below(path, [], at)
  {
  }

  lemma ChildrenAreDistinct(p: Process, path: seq<Name>, s: Scope)
    requires Declared(p) && ScopeAt(p, path) == Some(s)
    ensures var children := DefinitionOf(p, s).children;
      Distinct(Names(DefinitionOf(p, s))) && DistinctNames(children)
  {
    hide ScopeAt;
    ScopesInUse(p, path);
    var d := DefinitionOf(p, s);
    assert DeclaredGraph(p, d);
    assert forall j :: 0 <= j < |d.children| ==> Names(d)[j] == d.children[j].name;
  }

  lemma BelowOne(resolved: seq<Name>, children: seq<Child>, n: nat, bound: nat)
    requires 0 < n <= |children| && KeysBelow(children[..n], resolved, bound)
    ensures KeysBelow([children[n - 1]], resolved, bound) && KeysBelow(children[..n - 1], resolved, bound)
  {
    assert children[..n][n - 1] == children[n - 1];
    assert children[..n - 1] == children[..n][..n - 1];
  }

  ghost predicate DistinctNames(children: seq<Child>) {
    forall j, k :: 0 <= j < k < |children| ==> children[j].name != children[k].name
  }

  lemma FewerNames(children: seq<Child>, n: nat)
    requires DistinctNames(children) && n <= |children|
    ensures DistinctNames(children[..n])
  {
  }

  /** The nodes are those of the hierarchy below some children, each once. */
  ghost predicate NodesBelow(p: Process, path: seq<Name>, children: seq<Child>, nodes: seq<FlatName>) {
    Distinct(nodes) && forall v :: v in nodes <==> IsFlatNode(p, v) && Below(path, children, v.path)
  }

  /** The nodes are those of the hierarchy at or below one place, each once. */
  ghost predicate NodesFrom(p: Process, here: seq<Name>, nodes: seq<FlatName>) {
    Distinct(nodes) && forall v :: v in nodes <==> IsFlatNode(p, v) && here <= v.path
  }

  lemma OneChildMoreNodes(p: Process, resolved: seq<Name>, path: seq<Name>, children: seq<Child>, n: nat, bound: nat)
    requires Ranked(p, resolved) && 0 < n <= |children| && DistinctNames(children[..n])
      && KeysBelow(children[..n], resolved, bound)
    requires KeysBelow([children[n - 1]], resolved, bound) && KeysBelow(children[..n - 1], resolved, bound)
    requires NodesBelow(p, path, children[..n - 1], ChildNodes(p, resolved, path, children[..n - 1], bound))
    requires NodesFrom(p, path + [children[n - 1].name], NodesOfChild(p, resolved, path, children[n - 1], bound))
    ensures NodesBelow(p, path, children[..n], ChildNodes(p, resolved, path, children[..n], bound))
  {
    hide NodesBelow, NodesFrom, ChildNodes, NodesOfChild, Ranked, DistinctNames;
    var here := children[..n];
    assert here[n - 1] == children[n - 1] && here[..n - 1] == children[..n - 1];
    ChildNodesStep(p, resolved, path, here, bound);
    MergeNodes(p, path, here, ChildNodes(p, resolved, path, children[..n - 1], bound),
               NodesOfChild(p, resolved, path, children[n - 1], bound));
  }

  lemma ChildNodesStep(p: Process, resolved: seq<Name>, path: seq<Name>, children: seq<Child>, bound: nat)
    requires Ranked(p, resolved) && children != [] && KeysBelow(children, resolved, bound)
    ensures KeysBelow([children[|children| - 1]], resolved, bound)
      && KeysBelow(children[..|children| - 1], resolved, bound)
    ensures DistinctNames(children) ==> DistinctNames(children[..|children| - 1])
    ensures ChildNodes(p, resolved, path, children, bound)
         == ChildNodes(p, resolved, path, children[..|children| - 1], bound)
           + NodesOfChild(p, resolved, path, children[|children| - 1], bound)
  {
  }

  lemma {:induction false} OneChildNodesAre(p: Process, resolved: seq<Name>, path: seq<Name>, s: Scope, i: nat,
                                            bound: nat)
    requires Declared(p) && Ranked(p, resolved) && ScopeAt(p, path) == Some(s)
    requires Distinct(Names(DefinitionOf(p, s))) && i < |DefinitionOf(p, s).children|
    requires KeysBelow([DefinitionOf(p, s).children[i]], resolved, bound)
    ensures var c := DefinitionOf(p, s).children[i];
      NodesFrom(p, path + [c.name], NodesOfChild(p, resolved, path, c, bound))
    decreases bound, 0
  {
    hide IsFlatNode, ScopeAt, InstanceNodes;
    var c := DefinitionOf(p, s).children[i];
    if c.kind.Instance? {
      RankBelow(resolved, c.kind.key, bound);
      InstanceNodesAre(p, resolved, path, s, i);
    } else {
      PlainNodesAre(p, path, s, i);
    }
  }

  lemma MergeNodes(p: Process, path: seq<Name>, children: seq<Child>, before: seq<FlatName>, added: seq<FlatName>)
    requires children != [] && DistinctNames(children)
    requires NodesBelow(p, path, children[..|children| - 1], before)
    requires NodesFrom(p, path + [children[|children| - 1].name], added)
    ensures NodesBelow(p, path, children, before + added)
  {
    hide IsFlatNode, Below;
    forall v ensures v in before + added <==> IsFlatNode(p, v) && Below(path, children, v.path) {
      BelowSplits(path, children, v.path);
    }
    forall v | v in before ensures v !in added {
      NotBelowBoth(path, children, |children| - 1, v.path);
    }
    DistinctAppend(before, added);
  }

  lemma DistinctAppend<T(!new)>(a: seq<T>, b: seq<T>)
    requires Distinct(a) && Distinct(b) && forall v :: v in a ==> v !in b
    ensures Distinct(a + b)
  {
    forall i, j | 0 <= i < j < |a + b| ensures (a + b)[i] != (a + b)[j] {
      if j >= |a| { assert (a + b)[j] == b[j - |a|]; }
      if i < |a| { assert a[i] in a; }
    }
  }

  lemma HeadOfPrefix(path: seq<Name>, x: Name, at: seq<Name>)
    ensures path + [x] <= at ==> |at| > |path| && at[|path|] == x
  {
    if path + [x] <= at { assert at[|path|] == (path + [x])[|path|]; }
  }

  lemma NotBelowBoth(path: seq<Name>, children: seq<Child>, m: nat, at: seq<Name>)
    requires m < |children| && forall j, k :: 0 <= j < k < |children| ==> children[j].name != children[k].name
    requires Below(path, children[..m], at)
    ensures !(path + [children[m].name] <= at)
  {
    var i :| 0 <= i < m && children[..m][i].name == at[|path|];
    assert children[i].name != children[m].name;
    HeadOfPrefix(path, children[m].name, at);
  }

  lemma PlainNodesAre(p: Process, path: seq<Name>, s: Scope, i: nat)
    requires ScopeAt(p, path) == Some(s) && Distinct(Names(DefinitionOf(p, s))) && i < |DefinitionOf(p, s).children|
    requires !DefinitionOf(p, s).children[i].kind.Instance?
    ensures var here := path + [DefinitionOf(p, s).children[i].name];
      forall v :: v == FlatName(here, Plain) <==> IsFlatNode(p, v) && here <= v.path
  {
    var d := DefinitionOf(p, s);
    var here := path + [d.children[i].name];
    InstanceChild(p, path, s, i);
    assert here[..|here| - 1] == path && Names(d)[i] == d.children[i].name;
    forall v ensures v == FlatName(here, Plain) <==> IsFlatNode(p, v) && here <= v.path {
      if IsFlatNode(p, v) && here <= v.path {
        if |v.path| > |here| {
          PlainChild(p, path, s, i, v.path[..|v.path| - 1]);
          assert false;
        }
        assert v.path == here;
      }
    }
  }

  lemma {:induction false} InstanceNodesAre(p: Process, resolved: seq<Name>, path: seq<Name>, s: Scope, i: nat)
    requires Declared(p) && Ranked(p, resolved) && ScopeAt(p, path) == Some(s)
    requires Distinct(Names(DefinitionOf(p, s))) && i < |DefinitionOf(p, s).children|
    requires DefinitionOf(p, s).children[i].kind.Instance? && DefinitionOf(p, s).children[i].kind.key in resolved
    ensures var c := DefinitionOf(p, s).children[i];
      var here := path + [c.name];
      (forall v :: v in InstanceNodes(p, resolved, here, c.kind.key) <==> IsFlatNode(p, v) && here <= v.path)
      && Distinct(InstanceNodes(p, resolved, here, c.kind.key))
    decreases Rank(resolved, DefinitionOf(p, s).children[i].kind.key)
  {
    hide IsFlatNode, ScopeAt, Below;
    var d := DefinitionOf(p, s);
    var c := d.children[i];
    var here, k := path + [c.name], c.kind.key;
    InstanceChild(p, path, s, i);
    assert here[..|here| - 1] == path && Names(d)[i] == c.name;
    var body := p.modules[k];
    assert body.children[..|body.children|] == body.children;
    ChildNodesAre(p, resolved, here, Body(k), |body.children|, Rank(resolved, k));
    EndsAndInner(p, here, k, ChildNodes(p, resolved, here, body.children, Rank(resolved, k)));
  }

  lemma EndsAndInner(p: Process, here: seq<Name>, k: Name, inner: seq<FlatName>)
    requires ScopeAt(p, here) == Some(Body(k)) && here != []
    requires Distinct(inner) && forall v :: v in inner <==>
      IsFlatNode(p, v) && Below(here, DefinitionOf(p, Body(k)).children, v.path)
    ensures var ends := [FlatName(here, Entrance), FlatName(here, Exit)];
      (forall v :: v in ends + inner <==> IsFlatNode(p, v) && here <= v.path) && Distinct(ends + inner)
  {
    hide ScopeAt, IsFlatNode;
    var ends := [FlatName(here, Entrance), FlatName(here, Exit)];
    EndIsNode(p, here, Entrance);
    EndIsNode(p, here, Exit);
    forall v ensures v in ends + inner <==> IsFlatNode(p, v) && here <= v.path {
      if IsFlatNode(p, v) && here <= v.path {
        if |v.path| > |here| {
          InsideIsBelow(p, here, k, v);
        } else {
          assert v.path == here;
          InstanceHasNoPlain(p, here, v);
        }
      }
    }
    forall v | v in ends ensures v !in inner {}
    DistinctAppend(ends, inner);
  }

  lemma {:induction false} InstanceHasNoPlain(p: Process, here: seq<Name>, v: FlatName)
    requires ScopeAt(p, here).Some? && here != [] && IsFlatNode(p, v) && v.path == here
    ensures v.port != Plain
  {
  }

  /** A node inside an instance is, or is below, one of its children. */
  lemma InsideIsBelow(p: Process, path: seq<Name>, k: Name, v: FlatName)
    requires ScopeAt(p, path) == Some(Body(k)) && IsFlatNode(p, v) && Inside(path, v)
    ensures Below(path, DefinitionOf(p, Body(k)).children, v.path)
  {
    NextIsChild(p, path, v.path);
  }

  lemma NextIsChild(p: Process, path: seq<Name>, at: seq<Name>)
    requires ScopeAt(p, path).Some? && |path| < |at| && at[..|path|] == path
    requires ScopeAt(p, at[..|at| - 1]).Some?
      && at[|at| - 1] in Names(DefinitionOf(p, ScopeAt(p, at[..|at| - 1]).value))
    ensures Below(path, DefinitionOf(p, ScopeAt(p, path).value).children, at)
  {
    var d := DefinitionOf(p, ScopeAt(p, path).value);
    var m := |path|;
    if |at| > m + 1 {
      var outer := at[..|at| - 1];
      ScopeOfPrefix(p, outer, m + 1);
      assert outer[..m + 1][..m] == path && outer[..m + 1][m] == at[m];
      KindIsDeclared(d.children, at[m]);
    } else {
      assert at[..|at| - 1] == path;
      var i :| 0 <= i < |Names(d)| && Names(d)[i] == at[m];
      assert d.children[i].name == at[m];
    }
  }

  // ------------------------------------------------------------------ edges

  ghost predicate EdgeBelow(p: Process, path: seq<Name>, children: seq<Child>, e: Edge<FlatName>) {
    exists at :: Below(path, children, at) && IsEdgeOf(p, at, e)
  }

  ghost predicate EdgeWithin(p: Process, here: seq<Name>, e: Edge<FlatName>) {
    exists at :: here <= at && IsEdgeOf(p, at, e)
  }

  lemma OwnEdgesAre(p: Process, path: seq<Name>, s: Scope)
    requires ScopeAt(p, path) == Some(s)
    ensures forall e :: e in OwnEdges(DefinitionOf(p, s), path) <==> IsEdgeOf(p, path, e)
  {
    var d := DefinitionOf(p, s);
    var own, outs := EdgesOf(d, path, |d.edges|), OutputsOf(d, path, |d.outputs|);
    forall e ensures e in own + outs <==> IsEdgeOf(p, path, e) {
      if e in own {
        var i :| 0 <= i < |own| && own[i] == e;
        assert FromEdge(d, path, d.edges[i], e);
      }
      if e in outs {
        var i :| 0 <= i < |outs| && outs[i] == e;
        assert FromOutput(d, path, d.outputs[i], e);
      }
      if IsEdgeOf(p, path, e) {
        if le :| FromEdge(d, path, le, e) {
          var i :| 0 <= i < |d.edges| && d.edges[i] == le;
          assert own[i] == e;
        } else {
          var o :| FromOutput(d, path, o, e);
          var i :| 0 <= i < |d.outputs| && d.outputs[i] == o;
          assert outs[i] == e;
        }
      }
    }
  }

  lemma {:induction false} ChildEdgesAre(p: Process, resolved: seq<Name>, path: seq<Name>, s: Scope, n: nat, bound: nat)
    requires Declared(p) && Ranked(p, resolved) && ScopeAt(p, path) == Some(s)
    requires n <= |DefinitionOf(p, s).children| && KeysBelow(DefinitionOf(p, s).children[..n], resolved, bound)
    ensures forall e :: e in ChildEdges(p, resolved, path, DefinitionOf(p, s).children[..n], bound)
                   <==> EdgeBelow(p, path, DefinitionOf(p, s).children[..n], e)
    decreases bound, n
  {
    ScopesInUse(p, path);
    var d := DefinitionOf(p, s);
    assert DeclaredGraph(p, d);
    if n == 0 {
      forall e ensures !EdgeBelow(p, path, d.children[..n], e) {}
    } else {
      hide IsEdgeOf, ScopeAt, InstanceEdges, ChildEdges, EdgeWithin, EdgeBelow;
      var c, m := d.children[n - 1], n - 1;
      assert d.children[..n][m] == c && d.children[..n][..m] == d.children[..m];
      ChildEdgesAre(p, resolved, path, s, m, bound);
      if c.kind.Instance? {
        RankBelow(resolved, c.kind.key, bound);
        InstanceChild(p, path, s, m);
        InstanceEdgesAre(p, resolved, path + [c.name], c.kind.key);
      } else {
        PlainHasNoEdges(p, path, s, m);
      }
      OneChildMoreEdges(p, resolved, path, d.children[..n], m, bound);
    }
  }

  /** With the last child's edges added, the edges are those below the longer list of children. */
  lemma OneChildMoreEdges(p: Process, resolved: seq<Name>, path: seq<Name>, children: seq<Child>, n: nat, bound: nat)
    requires Ranked(p, resolved) && |children| == n + 1 && KeysBelow(children, resolved, bound)
      && KeysBelow(children[..n], resolved, bound)
    requires forall e :: e in ChildEdges(p, resolved, path, children[..n], bound) <==>
      EdgeBelow(p, path, children[..n], e)
    requires var c := children[n];
      if c.kind.Instance? then c.kind.key in resolved
        && forall e :: e in InstanceEdges(p, resolved, path + [c.name], c.kind.key) <==>
          EdgeWithin(p, path + [c.name], e)
      else forall e :: !EdgeWithin(p, path + [c.name], e)
    ensures forall e :: e in ChildEdges(p, resolved, path, children, bound) <==> EdgeBelow(p, path, children, e)
  {
    hide IsEdgeOf, InstanceEdges, EdgeWithin, EdgeBelow;
    var c, before := children[n], ChildEdges(p, resolved, path, children[..n], bound);
    var added := if c.kind.Instance? then InstanceEdges(p, resolved, path + [c.name], c.kind.key) else [];
    assert ChildEdges(p, resolved, path, children, bound) == before + added;
    forall e ensures e in before + added <==> EdgeBelow(p, path, children, e) {
      EdgeBelowSplits(p, path, children, e);
    }
  }

  lemma PlainHasNoEdges(p: Process, path: seq<Name>, s: Scope, i: nat)
    requires ScopeAt(p, path) == Some(s) && Distinct(Names(DefinitionOf(p, s))) && i < |DefinitionOf(p, s).children|
    requires !DefinitionOf(p, s).children[i].kind.Instance?
    ensures forall e :: !EdgeWithin(p, path + [DefinitionOf(p, s).children[i].name], e)
  {
    forall at, e | path + [DefinitionOf(p, s).children[i].name] <= at ensures !IsEdgeOf(p, at, e) {
      PlainChild(p, path, s, i, at);
    }
  }

  lemma EdgeBelowSplits(p: Process, path: seq<Name>, children: seq<Child>, e: Edge<FlatName>)
    requires children != []
    ensures var n := |children| - 1;
      EdgeBelow(p, path, children, e) <==>
        EdgeBelow(p, path, children[..n], e) || EdgeWithin(p, path + [children[n].name], e)
  {
    hide IsEdgeOf, Below;
    var n := |children| - 1;
    forall at ensures Below(path, children, at) <==> Below(path, children[..n], at) || path + [children[n].name] <= at {
      BelowSplits(path, children, at);
    }
    if at :| Below(path, children, at) && IsEdgeOf(p, at, e) {
    }
  }

  lemma {:induction false} InstanceEdgesAre(p: Process, resolved: seq<Name>, here: seq<Name>, k: Name)
    requires Declared(p) && Ranked(p, resolved) && k in resolved && ScopeAt(p, here) == Some(Body(k))
    ensures forall e :: e in InstanceEdges(p, resolved, here, k) <==> EdgeWithin(p, here, e)
    decreases Rank(resolved, k)
  {
    var body := p.modules[k];
    assert body.children[..|body.children|] == body.children;
    ChildEdgesAre(p, resolved, here, Body(k), |body.children|, Rank(resolved, k));
    OwnEdgesAre(p, here, Body(k));
    forall e ensures EdgeWithin(p, here, e) <==> EdgeBelow(p, here, body.children, e) || IsEdgeOf(p, here, e) {
      WithinSplits(p, here, Body(k), e);
    }
  }

  /** An edge of the subtree at `here` is the instance's own or belongs to one of its children's subtrees. */
  lemma WithinSplits(p: Process, here: seq<Name>, s: Scope, e: Edge<FlatName>)
    requires ScopeAt(p, here) == Some(s)
    ensures EdgeWithin(p, here, e) <==> EdgeBelow(p, here, DefinitionOf(p, s).children, e) || IsEdgeOf(p, here, e)
  {
    if at :| here <= at && IsEdgeOf(p, at, e) {
      if |at| > |here| {
        ScopedIsBelow(p, here, at);
      } else {
        assert at == here;
      }
    }
    if at :| Below(here, DefinitionOf(p, s).children, at) && IsEdgeOf(p, at, e) {
      assert here <= at;
    }
    if IsEdgeOf(p, here, e) { assert here <= here; }
  }

  lemma ScopedIsBelow(p: Process, path: seq<Name>, at: seq<Name>)
    requires ScopeAt(p, path).Some? && ScopeAt(p, at).Some? && path <= at && |path| < |at|
    ensures Below(path, DefinitionOf(p, ScopeAt(p, path).value).children, at)
  {
    var outer := DefinitionOf(p, ScopeAt(p, at[..|at| - 1]).value);
    KindIsDeclared(outer.children, at[|at| - 1]);
    var i :| 0 <= i < |outer.children| && outer.children[i].name == at[|at| - 1];
    assert Names(outer)[i] == at[|at| - 1];
    NextIsChild(p, path, at);
  }

  /** The flat graph has exactly the nodes and edges of the unfolded hierarchy, and no name twice. */
  lemma FlatGraphUnfolds(p: Process, resolved: seq<Name>)
    requires Declared(p) && Ranked(p, resolved) && KeysBelow(p.top.children, resolved, |resolved|)
    ensures Unfolds(p, FlatGraph(p, resolved))
  {
    assert p.top.children[..|p.top.children|] == p.top.children;
    ChildNodesAre(p, resolved, [], Top, |p.top.children|, |resolved|);
    ChildEdgesAre(p, resolved, [], Top, |p.top.children|, |resolved|);
    OwnEdgesAre(p, [], Top);
    forall v | IsFlatNode(p, v) ensures Below([], p.top.children, v.path) {
      NextIsChild(p, [], v.path);
    }
    forall e ensures IsFlatEdge(p, e) <==> EdgeWithin(p, [], e) {
      if at :| IsEdgeOf(p, at, e) { assert [] <= at; }
    }
    forall e ensures IsFlatEdge(p, e) <==> EdgeBelow(p, [], p.top.children, e) || IsEdgeOf(p, [], e) {
      WithinSplits(p, [], Top, e);
    }
  }

  /** Every flat edge joins two flat nodes: no lookup in the node dictionary can fail. */
  lemma UnfoldingIsWellFormed(p: Process, g: Graph<FlatName>)
    requires Declared(p) && Validated(p) && Unfolds(p, g)
    ensures WellFormed(g)
  {
    forall e | e in g.edges ensures e.source in g.nodes && e.target in g.nodes {
      var at :| IsEdgeOf(p, at, e);
      EndsAreNodes(p, at, e);
    }
  }

  lemma EndsAreNodes(p: Process, at: seq<Name>, e: Edge<FlatName>)
    requires Declared(p) && Validated(p) && IsEdgeOf(p, at, e)
    ensures IsFlatNode(p, e.source) && IsFlatNode(p, e.target)
  {
    var s := ScopeAt(p, at).value;
    ScopesInUse(p, at);
    var d := DefinitionOf(p, s);
    assert Resolved(d);
    if le :| FromEdge(d, at, le, e) {
      ChildPortIsNode(p, at, s, le.target);
      PortIsNode(p, at, s, le.source);
    } else {
      var o :| FromOutput(d, at, o, e);
      PortIsNode(p, at, s, o);
      EndIsNode(p, at, Exit);
    }
  }

  lemma ChildPortIsNode(p: Process, at: seq<Name>, s: Scope, x: Name)
    requires ScopeAt(p, at) == Some(s) && x in Names(DefinitionOf(p, s))
    ensures IsFlatNode(p, SourcePort(DefinitionOf(p, s), at, Local(x)))
    ensures IsFlatNode(p, TargetPort(DefinitionOf(p, s), at, x))
  {
    assert (at + [x])[..|at|] == at;
  }

  lemma EndIsNode(p: Process, at: seq<Name>, port: Port)
    requires ScopeAt(p, at).Some? && at != [] && port != Plain
    ensures IsFlatNode(p, FlatName(at, port))
  {
    var outer := DefinitionOf(p, ScopeAt(p, at[..|at| - 1]).value);
    KindIsDeclared(outer.children, at[|at| - 1]);
    var i :| 0 <= i < |outer.children| && outer.children[i].name == at[|at| - 1];
    assert Names(outer)[i] == at[|at| - 1];
  }

  lemma PortIsNode(p: Process, at: seq<Name>, s: Scope, o: Source)
    requires Declared(p) && Validated(p) && ScopeAt(p, at) == Some(s)
    requires o.Local? ==> o.name in Names(DefinitionOf(p, s))
    requires o in DefinitionOf(p, s).outputs || exists le :: le in DefinitionOf(p, s).edges && le.source == o
    ensures IsFlatNode(p, SourcePort(DefinitionOf(p, s), at, o))
  {
    match o
    case Local(x) => ChildPortIsNode(p, at, s, x);
    case Input => EndIsNode(p, at, Entrance);
  }
}
