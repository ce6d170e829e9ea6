/** Documents that say the same compile to the same flat graph in the same order. */
module CanonicalCompile {
  import opened Wrappers
  import opened Sorting
  import opened Normalize
  import Modules
  import Compiler
  import Graphs
  import TopologicalSort

  /** b is a with its list of edges reordered, and mapping keys in any order at any depth. */
  ghost predicate Variant(a: Entries, b: Entries) {
    && WellFormed(Dict(a)) && WellFormed(Dict(b))
    && exists items, other :: Reordered(a, b, items, other)
  }

  ghost predicate Reordered(a: Entries, b: Entries, items: seq<Doc>, other: seq<Doc>) {
    && Lookup(a, "edges") == Some(List(items)) && multiset(other) == multiset(items)
    && Same(Dict(Put(a, "edges", List(other))), Dict(b))
  }

  /** What the compiler reads besides edges. */
  function Rest(d: Doc): Doc {
    if d.Dict? then SortMapping(Dict(Put(d.entries, "edges", List([])))) else d
  }

  /** The source, target, condition and mapping of each edge, in the document's order; other fields of an edge
      have no part in the graph. */
  function EdgeKeys(d: Doc, dumps: Dumps): seq<Key> {
    if d.Dict? && Lookup(d.entries, "edges").Some? && Lookup(d.entries, "edges").value.List?
    then Sorting.Mapped(EdgeKey(dumps), EdgesAmong(Lookup(d.entries, "edges").value.items)) else []
  }

  lemma NormalEntries(raw: Entries, dumps: Dumps, q: string)
    requires WellFormed(Dict(raw))
    ensures var d := Normalized(raw, dumps);
      d.Dict? && WellFormed(d) && Lookup(d.entries, q) == NormalValue(q, Value(raw, q), dumps)
        && Value(d.entries, q) == Lookup(d.entries, q)
  {
    hide SortMapping, Canonical, NormalValue, WithEdges, WithSections, Lookup, Value;
    var final := WithEdges(WithSections(raw, SECTIONS), dumps);
    FinalValues(raw, dumps, q);
    SortedDict(final);
    CanonicalFacts(final, q);
  }

  /** The normal form lists the edges of `items` in the order of their keys. */
  lemma NormalEdgeKeys(raw: Entries, items: seq<Doc>, dumps: Dumps)
    requires WellFormed(Dict(raw)) && Lookup(raw, "edges") == Some(List(items))
    ensures EdgeKeys(Normalized(raw, dumps), dumps)
      == Sorting.Mapped(EdgeKey(dumps), SortBy(EdgeKey(dumps), EdgesAmong(items)))
  {
    hide SortMapping, Canonical, SortBy, EdgesAmong, EdgeKey, Normalized, EdgesValue, WellFormed;
    LookupIsWellFormed(raw, "edges");
    NormalEntries(raw, dumps, "edges");
    EdgesValueIs(items, dumps);
    SortedEdgesStay(items, dumps);
  }

  /** Apart from edges, reordering edges leaves the normal form alone. */
  lemma RestIsKept(raw: Entries, items: seq<Doc>, other: seq<Doc>, dumps: Dumps)
    requires WellFormed(Dict(raw)) && Lookup(raw, "edges") == Some(List(items)) && multiset(other) == multiset(items)
    ensures WellFormed(Dict(Put(raw, "edges", List(other))))
    ensures Rest(Normalized(Put(raw, "edges", List(other)), dumps)) == Rest(Normalized(raw, dumps))
  {
    hide SortMapping, Canonical, Normalized, NormalValue, EdgesValue, SectionValue, WellFormed;
    LookupIsWellFormed(raw, "edges");
    PermutedItems(items, other);
    var changed := Put(raw, "edges", List(other));
    PutIsWellFormed(raw, "edges", List(other));
    NormalEntries(raw, dumps, "");
    NormalEntries(changed, dumps, "");
    var x, y := Normalized(raw, dumps).entries, Normalized(changed, dumps).entries;
    forall q ensures Value(Put(x, "edges", List([])), q) == Value(Put(y, "edges", List([])), q) {
      PutLookup(raw, "edges", List(other), q);
      PutLookup(x, "edges", List([]), q);
      PutLookup(y, "edges", List([]), q);
      NormalEntries(raw, dumps, q);
      NormalEntries(changed, dumps, q);
    }
    PutIsWellFormed(x, "edges", List([]));
    PutIsWellFormed(y, "edges", List([]));
    CanonicalIffValues(Put(x, "edges", List([])), Put(y, "edges", List([])));
    SortedDict(Put(x, "edges", List([])));
    SortedDict(Put(y, "edges", List([])));
  }

  /** Everything the compiler reads is the same for all variants of a document, even where their normal forms differ. */
  lemma VariantsReadAlike(a: Entries, b: Entries, dumps: Dumps)
    requires Variant(a, b)
    ensures Rest(Normalized(a, dumps)) == Rest(Normalized(b, dumps))
      && EdgeKeys(Normalized(a, dumps), dumps) == EdgeKeys(Normalized(b, dumps), dumps)
  {
    hide Canonical, SortBy, EdgesAmong, EdgeKey, Normalized, WellFormed, Same, Rest, EdgeKeys, Lookup, Put;
    var items, other :| Reordered(a, b, items, other);
    var changed := Put(a, "edges", List(other));
    RestIsKept(a, items, other, dumps);
    KeyOrderIsIrrelevant(changed, b, dumps);
    PutLookup(a, "edges", List(other), "edges");
    NormalEdgeKeys(a, items, dumps);
    NormalEdgeKeys(changed, other, dumps);
    EdgesAmongPermuted(items, other);
    SortedKeysAlike(EdgeKey(dumps), EdgesAmong(items), EdgesAmong(other));
  }

  /** What compile_process returns for a process. */
  ghost predicate CompilesTo(p: Modules.Process, c: Compiler.Compiled) {
    && Compiler.IsFlatGraph(p, c.graph) && Graphs.TopologicalOrder(c.graph, c.order)
    && TopologicalSort.FirstReadyFirst(c.graph, c.order)
  }

  /** Reordering a document's edges and mapping keys changes neither the flat graph nor its execution order. This
      holds for every way of reading a process off the normal form that looks at edges' sort keys only, so also
      for edges that their keys do not tell apart. */
  lemma VariantsCompileAlike(a: Entries, b: Entries, dumps: Dumps, read: (Doc, seq<Key>) -> Modules.Process,
                             x: Compiler.Compiled, y: Compiler.Compiled)
    requires Variant(a, b)
    requires CompilesTo(read(Rest(Normalized(a, dumps)), EdgeKeys(Normalized(a, dumps), dumps)), x)
    requires CompilesTo(read(Rest(Normalized(b, dumps)), EdgeKeys(Normalized(b, dumps), dumps)), y)
    ensures x == y
  {
    hide *;
    VariantsReadAlike(a, b, dumps);
    SameCompile(read(Rest(Normalized(a, dumps)), EdgeKeys(Normalized(a, dumps), dumps)), x, y);
  }

  lemma SameCompile(p: Modules.Process, x: Compiler.Compiled, y: Compiler.Compiled)
    requires CompilesTo(p, x) && CompilesTo(p, y)
    ensures x == y
  {
    hide Compiler.IsFlatGraph, Graphs.TopologicalOrder, TopologicalSort.FirstReadyFirst;
    Compiler.CompilationIsDetermined(p, x, y);
  }

  /** When the keys tell the edges apart the normal forms are the same document, so whatever is read off them is
      the same, too. */
  lemma VariantsNormalizeAlike(a: Entries, b: Entries, items: seq<Doc>, other: seq<Doc>, dumps: Dumps)
    requires WellFormed(Dict(a)) && WellFormed(Dict(b)) && Reordered(a, b, items, other)
    requires KeysDetermine(EdgeKey(dumps), EdgesAmong(items))
    ensures Normalized(a, dumps) == Normalized(b, dumps)
  {
    hide Canonical, SortBy, EdgesAmong, EdgeKey, Normalized, WellFormed, Same, KeysDetermine, Lookup, Put;
    RestIsKept(a, items, other, dumps);
    EdgeListOrder(a, items, dumps);
    KeyOrderIsIrrelevant(Put(a, "edges", List(other)), b, dumps);
  }
}
