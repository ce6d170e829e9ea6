/** What can be wrong with a process document, one defect at a time, and the two facts that follow for compiling:
    a document compiles exactly if it has none of them, and every node of a compiled process that is not the end
    of a module instance has a declared primitive type. */
module Defects {
  import opened Graphs
  import opened Modules
  import opened FlatDependencies

  // ------------------------------------------------------------------ the defects

  ghost predicate Declares(d: Definition, x: Name) {
    exists c :: c in d.children && c.name == x
  }

  /** A node whose type is neither a declared node type nor a declared module. */
  ghost predicate HasUnknownType(d: Definition) {
    exists c :: c in d.children && c.kind.Unknown?
  }

  ghost predicate Dangles(d: Definition, e: LocalEdge) {
    !Declares(d, e.target) || (e.source.Local? && !Declares(d, e.source.name))
  }

  ghost predicate HasDanglingEdge(d: Definition) {
    exists e :: e in d.edges && Dangles(d, e)
  }

  ghost predicate HasDanglingOutput(d: Definition) {
    exists o :: o in d.outputs && o.Local? && !Declares(d, o.name)
  }

  /** The edges lead from each name to the next. */
  ghost predicate Leads(d: Definition, w: seq<Name>) {
    forall i :: 0 <= i < |w| - 1 ==> LocalEdge(Local(w[i]), w[i + 1]) in d.edges
  }

  ghost predicate HasLoop(d: Definition) {
    exists w :: |w| >= 2 && Leads(d, w) && w[0] == w[|w| - 1]
  }

  ghost predicate IsDefective(d: Definition) {
    HasUnknownType(d) || HasDanglingEdge(d) || HasDanglingOutput(d) || HasLoop(d)
  }

  /** Module k has a node whose type is module m. */
  ghost predicate Instantiates(p: Process, k: Name, m: Name) {
    k in p.modules && exists c :: c in p.modules[k].children && c.kind == Instance(m)
  }

  ghost predicate Chains(p: Process, w: seq<Name>) {
    forall i :: 0 <= i < |w| - 1 ==> Instantiates(p, w[i], w[i + 1])
  }

  ghost predicate HasCircularModules(p: Process) {
    exists w :: |w| >= 2 && Chains(p, w) && w[0] == w[|w| - 1]
  }

  ghost predicate HasBadTrigger(p: Process) {
    !Declares(p.top, p.trigger) || exists e :: e in p.top.edges && e.target == p.trigger
  }

  ghost predicate UsesInputOutside(p: Process) {
    exists e :: e in p.top.edges && e.source == Input
  }

  ghost predicate HasDefect(p: Process) {
    || IsDefective(p.top)
    || (exists k :: k in p.modules && IsDefective(p.modules[k]))
    || HasCircularModules(p)
    || HasBadTrigger(p)
    || UsesInputOutside(p)
  }

  // ------------------------------------------------------------------ validation finds each of them

  lemma DeclaredNames(d: Definition, x: Name)
    ensures x in Names(d) <==> Declares(d, x)
  {
    assert forall i :: 0 <= i < |d.children| ==> d.children[i].name == Names(d)[i] && d.children[i] in d.children;
    if Declares(d, x) {
      var c :| c in d.children && c.name == x;
      var i :| 0 <= i < |d.children| && d.children[i] == c;
      assert Names(d)[i] == x;
    }
  }

  lemma ReferencesAre(d: Definition)
    ensures Resolved(d) <==> !HasUnknownType(d) && !HasDanglingEdge(d) && !HasDanglingOutput(d)
  {
    forall x ensures x in Names(d) <==> Declares(d, x) { DeclaredNames(d, x); }
    hide Names, Declares;
  }

  lemma LoopsAre(d: Definition)
    ensures Acyclic(LocalGraph(d)) <==> !HasLoop(d)
  {
    NodeEdgesAre(d.edges);
    forall w ensures IsWalk(LocalGraph(d), w) <==> Leads(d, w) { WalksAre(d, w); }
    hide IsWalk, Leads, LocalGraph;
  }

  lemma WalksAre(d: Definition, w: seq<Name>)
    ensures IsWalk(LocalGraph(d), w) <==> Leads(d, w)
  {
    NodeEdgesAre(d.edges);
    forall i | 0 <= i < |w| - 1
      ensures HasEdge(LocalGraph(d), w[i], w[i + 1]) <==> LocalEdge(Local(w[i]), w[i + 1]) in d.edges
    {
    }
  }

  lemma UsesAre(p: Process, k: Name, m: Name)
    requires Declared(p)
    ensures HasEdge(DependencyGraph(p), k, m) <==> Instantiates(p, k, m)
  {
    DependenciesAre(p);
    hide DependencyGraph, Declared;
    if k in p.modules {
      var children := p.modules[k].children;
      assert forall i :: 0 <= i < |children| ==> children[i] in children;
      if Instantiates(p, k, m) {
        var c :| c in children && c.kind == Instance(m);
        var i :| 0 <= i < |children| && children[i] == c;
        assert Uses(p.modules[k], m);
      }
    }
  }

  lemma CirclesAre(p: Process)
    requires Declared(p)
    ensures Acyclic(DependencyGraph(p)) <==> !HasCircularModules(p)
  {
    forall w ensures IsWalk(DependencyGraph(p), w) <==> Chains(p, w) { ChainsAre(p, w); }
    hide IsWalk, Chains, DependencyGraph, Declared;
  }

  lemma ChainsAre(p: Process, w: seq<Name>)
    requires Declared(p)
    ensures IsWalk(DependencyGraph(p), w) <==> Chains(p, w)
  {
    forall i | 0 <= i < |w| - 1
      ensures HasEdge(DependencyGraph(p), w[i], w[i + 1]) <==> Instantiates(p, w[i], w[i + 1])
    {
      UsesAre(p, w[i], w[i + 1]);
    }
    hide DependencyGraph, HasEdge, Instantiates, Declared;
  }

  lemma GraphIs(d: Definition)
    ensures Resolved(d) && Acyclic(LocalGraph(d)) <==> !IsDefective(d)
  {
    ReferencesAre(d);
    LoopsAre(d);
    hide Resolved, Acyclic, LocalGraph, HasUnknownType, HasDanglingEdge, HasDanglingOutput, HasLoop;
  }

  /** Validation accepts a document if and only if nothing is wrong with it. */
  lemma ValidationIsExact(p: Process)
    requires Declared(p)
    ensures Validated(p) <==> !HasDefect(p)
  {
    GraphIs(p.top);
    forall k | k in p.modules
      ensures Resolved(p.modules[k]) && Acyclic(LocalGraph(p.modules[k])) <==> !IsDefective(p.modules[k])
    {
      GraphIs(p.modules[k]);
    }
    CirclesAre(p);
    DeclaredNames(p.top, p.trigger);
    hide Resolved, Acyclic, LocalGraph, DependencyGraph, IsDefective, HasCircularModules, Declares, Names, Declared;
  }

  // ------------------------------------------------------------------ nodes have declared types

  /** v stands for a node that its own graph declares with a primitive type. */
  ghost predicate IsPrimitive(p: Process, v: FlatName) {
    v.path != []
    && var n := |v.path| - 1;
    var s := ScopeAt(p, v.path[..n]);
    s.Some? && Child(v.path[n], Primitive) in DefinitionOf(p, s.value).children
  }

  lemma PlainNodesArePrimitive(p: Process, v: FlatName)
    requires Declared(p) && !HasDefect(p) && IsFlatNode(p, v) && v.port == Plain
    ensures IsPrimitive(p, v)
  {
    var n := |v.path| - 1;
    var s := ScopeAt(p, v.path[..n]).value;
    ScopesInUse(p, v.path[..n]);
    var d := DefinitionOf(p, s);
    assert !IsDefective(d) && DeclaredGraph(p, d);
    var i :| 0 <= i < |Names(d)| && Names(d)[i] == v.path[n];
    KindOfChild(d.children, i);
    assert d.children[i] in d.children;
    assert d.children[i] == Child(v.path[n], Primitive);
  }
}
