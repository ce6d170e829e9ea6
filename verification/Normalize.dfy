/** Canonical ordering of process documents: mapping keys sorted everywhere, edges sorted by their endpoints. */
module Normalize {
  import opened Wrappers
  import opened Sorting

  /** A dictionary's entries are in insertion order. */
  datatype Doc = Nothing | Flag(b: bool) | Number(n: real) | Text(s: string) | List(items: seq<Doc>)
    | Dict(entries: Entries)

  type Entries = seq<(string, Doc)>

  ghost predicate DistinctKeys(es: Entries) {
    forall i, j :: 0 <= i < j < |es| ==> es[i].0 != es[j].0
  }

  /** No dictionary has a key twice. */
  ghost predicate WellFormed(d: Doc) {
    match d
    case List(items) => forall i :: 0 <= i < |items| ==> WellFormed(items[i])
    case Dict(es) => DistinctKeys(es) && forall i :: 0 <= i < |es| ==> WellFormed(es[i].1)
    case _ => true
  }

  function EntryKey(e: (string, Doc)): Key { [e.0] }

  /** _sort_mapping. */
  function SortMapping(d: Doc): Doc {
    match d
    case List(items) => List(seq(|items|, i requires 0 <= i < |items| => SortMapping(items[i])))
    case Dict(es) => Dict(SortBy(EntryKey, seq(|es|, i requires 0 <= i < |es| => (es[i].0, SortMapping(es[i].1)))))
    case _ => d
  }

  function Inner(es: Entries): (r: Entries)
    ensures |r| == |es| && forall i :: 0 <= i < |es| ==> r[i] == (es[i].0, SortMapping(es[i].1))
  {
    seq(|es|, i requires 0 <= i < |es| => (es[i].0, SortMapping(es[i].1)))
  }

  function Canonical(es: Entries): Entries { SortBy(EntryKey, Inner(es)) }

  lemma SortedDict(es: Entries)
    ensures SortMapping(Dict(es)) == Dict(Canonical(es))
  {
    assert Inner(es) == seq(|es|, i requires 0 <= i < |es| => (es[i].0, SortMapping(es[i].1)));
  }

  function Lookup(es: Entries, k: string): Option<Doc> {
    if es == [] then None else if es[0].0 == k then Some(es[0].1) else Lookup(es[1..], k)
  }

  /** A key's value, canonically ordered. */
  function Value(es: Entries, k: string): Option<Doc> {
    match Lookup(es, k) case None => None case Some(v) => Some(SortMapping(v))
  }

  // ------------------------------------------------------------------ lookups

  lemma {:induction false} LookupIsEntry(es: Entries, k: string, v: Doc)
    requires DistinctKeys(es)
    ensures Lookup(es, k) == Some(v) <==> (k, v) in es
  {
    if es == [] {
    } else {
      assert es == [es[0]] + es[1..];
      assert DistinctKeys(es[1..]);
      LookupIsEntry(es[1..], k, v);
      forall j | 0 <= j < |es[1..]| ensures es[1..][j].0 != es[0].0 { assert es[1..][j] == es[j + 1]; }
    }
  }

  lemma {:induction false} LookupInner(es: Entries, k: string)
    ensures Lookup(Inner(es), k) == Value(es, k)
  {
    if es == [] {
    } else {
      assert Inner(es)[1..] == Inner(es[1..]);
      LookupInner(es[1..], k);
    }
  }

  lemma {:induction false} Multiplicity(es: Entries, x: (string, Doc))
    requires DistinctKeys(es)
    ensures multiset(es)[x] == if x in es then 1 else 0
  {
    if es == [] {
    } else {
      var n := |es| - 1;
      assert es == es[..n] + [es[n]];
      Multiplicity(es[..n], x);
      if x == es[n] { assert x !in es[..n]; }
    }
  }

  lemma PermutedKeys(a: Entries, b: Entries)
    requires DistinctKeys(a) && multiset(a) == multiset(b)
    ensures DistinctKeys(b)
  {
    forall i, j | 0 <= i < j < |b| ensures b[i].0 != b[j].0 {
      Member(b, a, b[i]);
      Member(b, a, b[j]);
      Multiplicity(a, b[i]);
      if b[i] == b[j] { TwoCopies(b, i, j); }
    }
  }

  lemma TwoCopies(b: Entries, i: nat, j: nat)
    requires i < j < |b| && b[i] == b[j]
    ensures multiset(b)[b[i]] >= 2
  {
    assert b == b[..j] + [b[j]] + b[j + 1..];
    assert b[i] in b[..j];
  }

  /** Reordering entries does not change what keys lead to. */
  lemma PermutedLookup(a: Entries, b: Entries, k: string)
    requires DistinctKeys(a) && multiset(a) == multiset(b)
    ensures DistinctKeys(b) && Lookup(a, k) == Lookup(b, k)
  {
    PermutedKeys(a, b);
    if Lookup(a, k).Some? {
      LookupIsEntry(a, k, Lookup(a, k).value);
      Member(a, b, (k, Lookup(a, k).value));
      LookupIsEntry(b, k, Lookup(a, k).value);
    } else if Lookup(b, k).Some? {
      LookupIsEntry(b, k, Lookup(b, k).value);
      Member(b, a, (k, Lookup(b, k).value));
      LookupIsEntry(a, k, Lookup(b, k).value);
    }
  }

  lemma InnerKeys(es: Entries)
    requires DistinctKeys(es)
    ensures DistinctKeys(Inner(es)) && KeysDetermine(EntryKey, Inner(es))
  {
    var r := Inner(es);
    forall x, y | x in r && y in r && EntryKey(x) == EntryKey(y) ensures x == y {
      var i, j :| 0 <= i < |r| && 0 <= j < |r| && r[i] == x && r[j] == y;
      assert [x.0][0] == [y.0][0];
    }
  }

  lemma SameEntriesPermute(a: Entries, b: Entries)
    requires DistinctKeys(a) && DistinctKeys(b) && forall x :: x in a <==> x in b
    ensures multiset(a) == multiset(b)
  {
    forall x ensures multiset(a)[x] == multiset(b)[x] {
      Multiplicity(a, x);
      Multiplicity(b, x);
    }
  }

  /** The canonical form of a dictionary is determined by, and determines, the canonical values of its keys. */
  lemma CanonicalIffValues(a: Entries, b: Entries)
    requires DistinctKeys(a) && DistinctKeys(b)
    ensures Canonical(a) == Canonical(b) <==> forall k :: Value(a, k) == Value(b, k)
  {
    InnerKeys(a);
    InnerKeys(b);
    if Canonical(a) == Canonical(b) {
      forall k ensures Value(a, k) == Value(b, k) {
        PermutedLookup(Inner(a), Inner(b), k);
        LookupInner(a, k);
        LookupInner(b, k);
      }
    }
    if forall k :: Value(a, k) == Value(b, k) {
      forall x ensures x in Inner(a) <==> x in Inner(b) {
        LookupInner(a, x.0);
        LookupInner(b, x.0);
        LookupIsEntry(Inner(a), x.0, x.1);
        LookupIsEntry(Inner(b), x.0, x.1);
        assert x == (x.0, x.1);
      }
      SameEntriesPermute(Inner(a), Inner(b));
      PermutationsSortAlike(EntryKey, Inner(a), Inner(b));
    }
  }

  lemma CanonicalKeys(es: Entries, k: string)
    requires DistinctKeys(es)
    ensures DistinctKeys(Canonical(es)) && Lookup(Canonical(es), k) == Value(es, k)
  {
    InnerKeys(es);
    PermutedLookup(Inner(es), Canonical(es), k);
    LookupInner(es, k);
  }

  /** Equal but for the order of dictionary keys, at any depth. */
  ghost predicate Same(a: Doc, b: Doc) {
    match (a, b)
    case (List(x), List(y)) => |x| == |y| && forall i :: 0 <= i < |x| ==> Same(x[i], y[i])
    case (Dict(x), Dict(y)) =>
      && (forall k :: Lookup(x, k).Some? <==> Lookup(y, k).Some?)
      && forall i, j :: 0 <= i < |x| && 0 <= j < |y| && x[i].0 == y[j].0 ==> Same(x[i].1, y[j].1)
    case _ => a == b
  }

  /** Two documents have the same canonical form exactly if they differ in key order only. */
  lemma {:induction false} CanonicalForm(a: Doc, b: Doc)
    requires WellFormed(a) && WellFormed(b)
    ensures Same(a, b) <==> SortMapping(a) == SortMapping(b)
    decreases a
  {
    match (a, b)
    case (List(x), List(y)) =>
      var s, t := SortMapping(a).items, SortMapping(b).items;
      if |x| == |y| {
        forall i | 0 <= i < |x| ensures Same(x[i], y[i]) <==> s[i] == t[i] { CanonicalForm(x[i], y[i]); }
        if Same(a, b) { assert s == t; }
      }
    case (Dict(x), Dict(y)) =>
      forall i, j | 0 <= i < |x| && 0 <= j < |y|
        ensures Same(x[i].1, y[j].1) <==> SortMapping(x[i].1) == SortMapping(y[j].1)
      {
        CanonicalForm(x[i].1, y[j].1);
      }
      SortedDict(x);
      SortedDict(y);
      CanonicalIffValues(x, y);
      DictSame(x, y);
    case _ =>
  }

  lemma DictSame(x: Entries, y: Entries)
    requires DistinctKeys(x) && DistinctKeys(y)
    requires forall i, j :: 0 <= i < |x| && 0 <= j < |y| ==>
      (Same(x[i].1, y[j].1) <==> SortMapping(x[i].1) == SortMapping(y[j].1))
    ensures Same(Dict(x), Dict(y)) <==> forall k :: Value(x, k) == Value(y, k)
  {
    if Same(Dict(x), Dict(y)) {
      forall k ensures Value(x, k) == Value(y, k) {
        if Lookup(x, k).Some? {
          var i, j := Index(x, k), Index(y, k);
          assert Same(x[i].1, y[j].1);
        }
      }
    }
    if forall k :: Value(x, k) == Value(y, k) {
      forall k ensures Lookup(x, k).Some? <==> Lookup(y, k).Some? { assert Value(x, k) == Value(y, k); }
      forall i, j | 0 <= i < |x| && 0 <= j < |y| && x[i].0 == y[j].0 ensures Same(x[i].1, y[j].1) {
        var k := x[i].0;
        LookupIsEntry(x, k, x[i].1);
        LookupIsEntry(y, k, y[j].1);
        assert x[i] == (k, x[i].1) && y[j] == (k, y[j].1);
        assert Value(x, k) == Value(y, k);
      }
    }
  }

  ghost function Index(es: Entries, k: string): (i: nat)
    requires Lookup(es, k).Some?
    ensures i < |es| && es[i].0 == k && es[i].1 == Lookup(es, k).value
  {
    if es[0].0 == k then 0 else Index(es[1..], k) + 1
  }

  /** Sorting a document again changes nothing. */
  lemma {:induction false} SortMappingIsIdempotent(d: Doc)
    requires WellFormed(d)
    ensures WellFormed(SortMapping(d)) && SortMapping(SortMapping(d)) == SortMapping(d)
  {
    match d
    case List(items) =>
      var s := SortMapping(d).items;
      forall i | 0 <= i < |items| ensures WellFormed(s[i]) && SortMapping(s[i]) == s[i] {
        SortMappingIsIdempotent(items[i]);
      }
      assert SortMapping(List(s)).items == s;
    case Dict(es) =>
      forall i | 0 <= i < |es|
        ensures WellFormed(SortMapping(es[i].1)) && SortMapping(SortMapping(es[i].1)) == SortMapping(es[i].1)
      {
        SortMappingIsIdempotent(es[i].1);
      }
      CanonicalIsIdempotent(es);
    case _ =>
  }

  lemma CanonicalIsIdempotent(es: Entries)
    requires DistinctKeys(es)
    requires forall i :: 0 <= i < |es| ==>
      WellFormed(SortMapping(es[i].1)) && SortMapping(SortMapping(es[i].1)) == SortMapping(es[i].1)
    ensures DistinctKeys(Canonical(es)) && Canonical(Canonical(es)) == Canonical(es)
    ensures WellFormed(SortMapping(Dict(es))) && SortMapping(SortMapping(Dict(es))) == SortMapping(Dict(es))
  {
    var c := Canonical(es);
    InnerKeys(es);
    PermutedKeys(Inner(es), c);
    forall i | 0 <= i < |c| ensures WellFormed(c[i].1) && SortMapping(c[i].1) == c[i].1 {
      Member(c, Inner(es), c[i]);
    }
    assert Inner(c) == c;
    SortBySorts(EntryKey, Inner(es));
    SortedIsFixed(EntryKey, c);
    SortedDict(es);
    SortedDict(c);
  }

  // ------------------------------------------------------------------ a process document

  const SECTIONS := ["types", "node_types", "modules", "nodes"]

  /** json.dumps with sorted keys: a text of the canonical form. */
  type Dumps = Doc -> string

  /** d[k] = v: in place when the key is there, else at the end. */
  function Put(es: Entries, k: string, v: Doc): Entries {
    if es == [] then [(k, v)] else if es[0].0 == k then [(k, v)] + es[1..] else [es[0]] + Put(es[1..], k, v)
  }

  predicate Truthy(d: Doc) {
    match d
    case Nothing => false
    case Flag(b) => b
    case Number(n) => n != 0.0
    case Text(s) => s != ""
    case List(items) => items != []
    case Dict(es) => es != []
  }

  /** `d.get(k) or default`. */
  function Or(v: Option<Doc>, default: Doc): Doc {
    if v.Some? && Truthy(v.value) then v.value else default
  }

  function TextOr(v: Option<Doc>): string {
    if v.Some? && v.value.Text? then v.value.s else ""
  }

  function WithSection(es: Entries, name: string): Entries {
    var content := Or(Lookup(es, name), Dict([]));
    if content.Dict? then Put(es, name, Dict(SortBy(EntryKey, content.entries))) else es
  }

  function WithSections(es: Entries, names: seq<string>): Entries {
    if names == [] then es else WithSection(WithSections(es, names[..|names| - 1]), names[|names| - 1])
  }

  /** An edge with the keys of its mapping in order. */
  function CanonEdge(edge: Entries): Entries {
    var mapping := Lookup(edge, "with");
    if mapping.Some? && mapping.value.Dict?
    then Put(edge, "with", Dict(SortBy(EntryKey, mapping.value.entries)))
    else edge
  }

  function CanonEdges(items: seq<Doc>): seq<Entries> {
    if items == [] then []
    else
      var last := items[|items| - 1];
      CanonEdges(items[..|items| - 1]) + (if last.Dict? then [CanonEdge(last.entries)] else [])
  }

  function KeyOfEdge(dumps: Dumps, edge: Entries): Key {
    [TextOr(Lookup(edge, "from")), TextOr(Lookup(edge, "to")), TextOr(Lookup(edge, "when")),
     dumps(SortMapping(Or(Lookup(edge, "with"), Dict([]))))]
  }

  function EdgeKey(dumps: Dumps): Entries -> Key {
    e => KeyOfEdge(dumps, e)
  }

  function AsDict(es: Entries): Doc { Dict(es) }

  function WithEdges(es: Entries, dumps: Dumps): Entries {
    var edges := Or(Lookup(es, "edges"), List([]));
    if edges.List? then Put(es, "edges", List(Mapped(AsDict, SortBy(EdgeKey(dumps), CanonEdges(edges.items))))) else es
  }

  /** normalize_process_dict. */
  function Normalized(raw: Entries, dumps: Dumps): Doc {
    SortMapping(Dict(WithEdges(WithSections(raw, SECTIONS), dumps)))
  }

  /** In a document that comes from a process model, edge endpoints and conditions are texts. */
  ghost predicate EdgesTyped(raw: Entries) {
    match Lookup(raw, "edges")
    case Some(List(items)) => forall i :: 0 <= i < |items| && items[i].Dict? ==> EdgeTyped(items[i].entries)
    case _ => true
  }

  predicate EdgeTyped(edge: Entries) {
    && (Lookup(edge, "from").Some? ==> Lookup(edge, "from").value.Text?)
    && (Lookup(edge, "to").Some? ==> Lookup(edge, "to").value.Text?)
    && (Lookup(edge, "when").Some? && Truthy(Lookup(edge, "when").value) ==> Lookup(edge, "when").value.Text?)
  }

  method NormalizeProcessDict(raw: Entries, dumps: Dumps) returns (r: Doc)
    requires WellFormed(Dict(raw)) && EdgesTyped(raw)
    ensures r == Normalized(raw, dumps)
  {
    var normalized := raw;
    for i := 0 to |SECTIONS|
      invariant normalized == WithSections(raw, SECTIONS[..i])
    {
      assert SECTIONS[..i + 1][..i] == SECTIONS[..i];
      var content := Or(Lookup(normalized, SECTIONS[i]), Dict([]));
      if content.Dict? {
        normalized := Put(normalized, SECTIONS[i], Dict(SortBy(EntryKey, content.entries)));
      }
    }
    assert SECTIONS[..|SECTIONS|] == SECTIONS;
    var edges := Or(Lookup(normalized, "edges"), List([]));
    if edges.List? {
      var canonEdges: seq<Entries> := [];
      for i := 0 to |edges.items|
        invariant canonEdges == CanonEdges(edges.items[..i])
      {
        assert edges.items[..i + 1][..i] == edges.items[..i];
        if !edges.items[i].Dict? {
          continue;
        }
        var edge := edges.items[i].entries;
        var mapping := Lookup(edge, "with");
        if mapping.Some? && mapping.value.Dict? {
          edge := Put(edge, "with", Dict(SortBy(EntryKey, mapping.value.entries)));
        }
        canonEdges := canonEdges + [edge];
      }
      assert edges.items[..|edges.items|] == edges.items;
      normalized := Put(normalized, "edges", List(Mapped(AsDict, SortBy(EdgeKey(dumps), canonEdges))));
    }
    return SortMapping(Dict(normalized));
  }

  // ------------------------------------------------------------------ what normalization does to each key

  lemma {:induction false} PutLookup(es: Entries, k: string, v: Doc, q: string)
    ensures Lookup(Put(es, k, v), q) == if q == k then Some(v) else Lookup(es, q)
  {
    if es != [] && es[0].0 != k { PutLookup(es[1..], k, v, q); }
  }

  lemma {:induction false} PutKeys(es: Entries, k: string, v: Doc)
    requires DistinctKeys(es)
    ensures DistinctKeys(Put(es, k, v))
    ensures forall x :: x in Put(es, k, v) ==> x == (k, v) || x in es
  {
    if es != [] && es[0].0 != k {
      PutKeys(es[1..], k, v);
      var r := Put(es[1..], k, v);
      forall j | 0 <= j < |r| ensures r[j].0 != es[0].0 {
        assert r[j] in r;
        if r[j] in es[1..] { var i :| 0 <= i < |es[1..]| && es[1..][i] == r[j]; assert es[i + 1].0 != es[0].0; }
      }
    }
  }

  /** What normalization makes of a section, seen canonically. */
  function SectionValue(v: Option<Doc>): Option<Doc> {
    if v.Some? && Truthy(v.value) then v else Some(Dict([]))
  }

  /** The canonical edges among a list's items. */
  function EdgesAmong(items: seq<Doc>): seq<Entries> {
    if items == [] then []
    else
      var last := items[|items| - 1];
      EdgesAmong(items[..|items| - 1]) + (if last.Dict? then [Canonical(last.entries)] else [])
  }

  function EdgesValue(v: Option<Doc>, dumps: Dumps): Option<Doc> {
    var edges := Or(v, List([]));
    if edges.List? then Some(List(Mapped(AsDict, SortBy(EdgeKey(dumps), EdgesAmong(edges.items))))) else v
  }

  function NormalValue(q: string, v: Option<Doc>, dumps: Dumps): Option<Doc> {
    if q == "edges" then EdgesValue(v, dumps) else if q in SECTIONS then SectionValue(v) else v
  }

  lemma SortedSameValues(es: Entries)
    requires WellFormed(Dict(es))
    ensures WellFormed(Dict(SortBy(EntryKey, es))) && SortMapping(Dict(SortBy(EntryKey, es))) == SortMapping(Dict(es))
  {
    var t := SortBy(EntryKey, es);
    PermutedKeys(es, t);
    forall i | 0 <= i < |t| ensures WellFormed(t[i].1) { Member(t, es, t[i]); }
    forall k ensures Value(es, k) == Value(t, k) { PermutedLookup(es, t, k); }
    CanonicalIffValues(es, t);
    SortedDict(es);
    SortedDict(t);
  }

  lemma ShapeIsKept(d: Doc)
    ensures Truthy(SortMapping(d)) == Truthy(d) && (SortMapping(d).Dict? <==> d.Dict?)
      && (SortMapping(d).List? <==> d.List?)
    ensures !d.Dict? && !d.List? ==> SortMapping(d) == d
  {
    if d.Dict? {
      SortedDict(d.entries);
      SameLength(Inner(d.entries), Canonical(d.entries));
    }
  }

  lemma SameLength(a: Entries, b: Entries)
    requires multiset(a) == multiset(b)
    ensures |a| == |b|
  {
    assert |multiset(a)| == |a| && |multiset(b)| == |b|;
  }

  lemma LookupIsWellFormed(es: Entries, k: string)
    requires WellFormed(Dict(es)) && Lookup(es, k).Some?
    ensures WellFormed(Lookup(es, k).value)
  {
    var i := Index(es, k);
  }

  lemma PutIsWellFormed(es: Entries, k: string, v: Doc)
    requires WellFormed(Dict(es)) && WellFormed(v)
    ensures WellFormed(Dict(Put(es, k, v)))
  {
    PutKeys(es, k, v);
    var r := Put(es, k, v);
    forall i | 0 <= i < |r| ensures WellFormed(r[i].1) { assert r[i] in r; }
  }

  /** `get(k) or default`, seen canonically. */
  lemma OrIsCanonical(es: Entries, k: string, default: Doc)
    requires WellFormed(Dict(es)) && WellFormed(default) && SortMapping(default) == default
    ensures WellFormed(Or(Lookup(es, k), default))
    ensures SortMapping(Or(Lookup(es, k), default)) == Or(Value(es, k), default)
  {
    hide SortMapping;
    if Lookup(es, k).Some? {
      LookupIsWellFormed(es, k);
      ShapeIsKept(Lookup(es, k).value);
    }
  }

  lemma EmptyDocs()
    ensures WellFormed(Dict([])) && WellFormed(List([])) && SortMapping(Dict([])) == Dict([])
      && SortMapping(List([])) == List([])
  {
    SortedDict([]);
  }

  lemma SectionStep(es: Entries, name: string, q: string)
    requires WellFormed(Dict(es))
    ensures WellFormed(Dict(WithSection(es, name)))
    ensures Value(WithSection(es, name), q) == if q == name then SectionValue(Value(es, q)) else Value(es, q)
  {
    hide SortMapping, WellFormed, Truthy, SortBy;
    var content := Or(Lookup(es, name), Dict([]));
    EmptyDocs();
    OrIsCanonical(es, name, Dict([]));
    ShapeIsKept(content);
    if content.Dict? {
      SortedSameValues(content.entries);
      PutIsWellFormed(es, name, Dict(SortBy(EntryKey, content.entries)));
      PutLookup(es, name, Dict(SortBy(EntryKey, content.entries)), q);
    }
  }

  lemma {:induction false} SectionsStep(es: Entries, names: seq<string>, q: string)
    requires WellFormed(Dict(es))
    ensures WellFormed(Dict(WithSections(es, names)))
    ensures Value(WithSections(es, names), q) == if q in names then SectionValue(Value(es, q)) else Value(es, q)
  {
    if names == [] {
    } else {
      var n := |names| - 1;
      assert names == names[..n] + [names[n]];
      SectionsStep(es, names[..n], q);
      SectionStep(WithSections(es, names[..n]), names[n], q);
    }
  }

  lemma CanonicalFacts(es: Entries, k: string)
    requires WellFormed(Dict(es))
    ensures WellFormed(Dict(Canonical(es))) && Canonical(Canonical(es)) == Canonical(es)
    ensures Lookup(Canonical(es), k) == Value(es, k) && Value(Canonical(es), k) == Value(es, k)
  {
    SortedDict(es);
    SortMappingIsIdempotent(Dict(es));
    SortedDict(Canonical(es));
    CanonicalKeys(es, k);
    if Lookup(es, k).Some? {
      LookupIsWellFormed(es, k);
      SortMappingIsIdempotent(Lookup(es, k).value);
    }
  }

  /** An edge's sort key does not depend on the order of its keys. */
  lemma KeyIsCanonical(dumps: Dumps, edge: Entries)
    requires WellFormed(Dict(edge))
    ensures KeyOfEdge(dumps, Canonical(edge)) == KeyOfEdge(dumps, edge)
  {
    TextIsCanonical(edge, "from");
    TextIsCanonical(edge, "to");
    TextIsCanonical(edge, "when");
    CanonicalFacts(edge, "with");
    if Lookup(edge, "with").Some? {
      var v := Lookup(edge, "with").value;
      LookupIsWellFormed(edge, "with");
      ShapeIsKept(v);
      SortMappingIsIdempotent(v);
    }
  }

  lemma TextIsCanonical(edge: Entries, k: string)
    requires WellFormed(Dict(edge))
    ensures TextOr(Lookup(Canonical(edge), k)) == TextOr(Lookup(edge, k))
  {
    CanonicalFacts(edge, k);
    if Lookup(edge, k).Some? { ShapeIsKept(Lookup(edge, k).value); }
  }

  lemma CanonEdgeIsSame(edge: Entries)
    requires WellFormed(Dict(edge))
    ensures WellFormed(Dict(CanonEdge(edge))) && Canonical(CanonEdge(edge)) == Canonical(edge)
  {
    var mapping := Lookup(edge, "with");
    if mapping.Some? && mapping.value.Dict? {
      LookupIsWellFormed(edge, "with");
      var sorted := Dict(SortBy(EntryKey, mapping.value.entries));
      SortedSameValues(mapping.value.entries);
      PutIsWellFormed(edge, "with", sorted);
      forall k ensures Value(CanonEdge(edge), k) == Value(edge, k) { PutLookup(edge, "with", sorted, k); }
      CanonicalIffValues(CanonEdge(edge), edge);
    }
  }

  lemma {:induction false} CanonEdgesAre(items: seq<Doc>)
    requires WellFormed(List(items))
    ensures Mapped(Canonical, CanonEdges(items)) == EdgesAmong(items)
    ensures forall e :: e in CanonEdges(items) ==> WellFormed(Dict(e))
  {
    hide Canonical, SortMapping, SortBy, CanonEdge, DistinctKeys;
    if items == [] {
    } else {
      var n := |items| - 1;
      CanonEdgesAre(items[..n]);
      if items[n].Dict? {
        CanonEdgeIsSame(items[n].entries);
        assert Mapped(Canonical, CanonEdges(items))
          == Mapped(Canonical, CanonEdges(items[..n])) + [Canonical(items[n].entries)];
      }
    }
  }

  lemma {:induction false} EdgesAmongCanonical(items: seq<Doc>)
    requires WellFormed(List(items))
    ensures EdgesAmong(SortMapping(List(items)).items) == EdgesAmong(items)
  {
    if items == [] {
    } else {
      var n := |items| - 1;
      EdgesAmongCanonical(items[..n]);
      assert SortMapping(List(items)).items[..n] == SortMapping(List(items[..n])).items;
      ShapeIsKept(items[n]);
      if items[n].Dict? {
        SortedDict(items[n].entries);
        CanonicalFacts(items[n].entries, "");
      }
    }
  }

  lemma {:induction false} DictsAreSorted(edges: seq<Entries>)
    ensures SortMapping(List(Mapped(AsDict, edges))) == List(Mapped(AsDict, Mapped(Canonical, edges)))
  {
    var s := SortMapping(List(Mapped(AsDict, edges))).items;
    forall i | 0 <= i < |edges| ensures s[i] == AsDict(Canonical(edges[i])) { SortedDict(edges[i]); }
    assert s == Mapped(AsDict, Mapped(Canonical, edges));
  }

  /** Sorting edges and then canonicalizing them gives the sorted canonical edges. */
  lemma EdgesStep(items: seq<Doc>, dumps: Dumps)
    requires WellFormed(List(items))
    ensures var sorted := List(Mapped(AsDict, SortBy(EdgeKey(dumps), CanonEdges(items))));
      WellFormed(sorted) && SortMapping(sorted) == List(Mapped(AsDict, SortBy(EdgeKey(dumps), EdgesAmong(items))))
  {
    hide SortMapping, Canonical, SortBy, CanonEdges, EdgesAmong, KeyOfEdge, DistinctKeys;
    var edges := CanonEdges(items);
    var sorted := SortBy(EdgeKey(dumps), edges);
    CanonEdgesAre(items);
    forall e | e in edges ensures EdgeKey(dumps)(Canonical(e)) == EdgeKey(dumps)(e) { KeyIsCanonical(dumps, e); }
    SortCommutes(EdgeKey(dumps), Canonical, EdgeKey(dumps), edges);
    forall i | 0 <= i < |sorted| ensures WellFormed(AsDict(sorted[i])) { Member(sorted, edges, sorted[i]); }
    DictsAreSorted(sorted);
  }

  lemma EdgesValueStep(es: Entries, dumps: Dumps, q: string)
    requires WellFormed(Dict(es))
    ensures WellFormed(Dict(WithEdges(es, dumps)))
    ensures Value(WithEdges(es, dumps), q) == if q == "edges" then EdgesValue(Value(es, q), dumps) else Value(es, q)
  {
    hide SortMapping, WellFormed, Truthy, SortBy, CanonEdges, EdgesAmong;
    var edges := Or(Lookup(es, "edges"), List([]));
    EmptyDocs();
    OrIsCanonical(es, "edges", List([]));
    ShapeIsKept(edges);
    if edges.List? {
      EdgesStep(edges.items, dumps);
      EdgesAmongCanonical(edges.items);
      var sorted := List(Mapped(AsDict, SortBy(EdgeKey(dumps), CanonEdges(edges.items))));
      PutIsWellFormed(es, "edges", sorted);
      PutLookup(es, "edges", sorted, q);
    }
  }

  lemma FinalValues(raw: Entries, dumps: Dumps, q: string)
    requires WellFormed(Dict(raw))
    ensures var final := WithEdges(WithSections(raw, SECTIONS), dumps);
      WellFormed(Dict(final)) && Value(final, q) == NormalValue(q, Value(raw, q), dumps)
  {
    SectionsStep(raw, SECTIONS, q);
    EdgesValueStep(WithSections(raw, SECTIONS), dumps, q);
  }

  // ------------------------------------------------------------------ canonical form

  /** Documents that differ only in the order of mapping keys normalize to the same document. */
  lemma KeyOrderIsIrrelevant(a: Entries, b: Entries, dumps: Dumps)
    requires WellFormed(Dict(a)) && WellFormed(Dict(b)) && Same(Dict(a), Dict(b))
    ensures Normalized(a, dumps) == Normalized(b, dumps)
  {
    CanonicalForm(Dict(a), Dict(b));
    SortedDict(a);
    SortedDict(b);
    CanonicalIffValues(a, b);
    NormalizedIffValues(a, b, dumps);
  }

  lemma NormalizedIffValues(a: Entries, b: Entries, dumps: Dumps)
    requires WellFormed(Dict(a)) && WellFormed(Dict(b))
    ensures Normalized(a, dumps) == Normalized(b, dumps) <==>
      forall q :: NormalValue(q, Value(a, q), dumps) == NormalValue(q, Value(b, q), dumps)
  {
    hide SortMapping, NormalValue, Value, WithEdges, WithSections, Canonical;
    var x, y := WithEdges(WithSections(a, SECTIONS), dumps), WithEdges(WithSections(b, SECTIONS), dumps);
    forall q ensures Value(x, q) == NormalValue(q, Value(a, q), dumps)
      && Value(y, q) == NormalValue(q, Value(b, q), dumps)
    {
      FinalValues(a, dumps, q);
      FinalValues(b, dumps, q);
    }
    FinalValues(a, dumps, "");
    FinalValues(b, dumps, "");
    CanonicalIffValues(x, y);
    SortedDict(x);
    SortedDict(y);
  }

  /** Normalizing a normalized document gives it back. */
  lemma NormalizationIsIdempotent(raw: Entries, dumps: Dumps)
    requires WellFormed(Dict(raw))
    ensures Normalized(raw, dumps).Dict? && WellFormed(Normalized(raw, dumps))
    ensures Normalized(Normalized(raw, dumps).entries, dumps) == Normalized(raw, dumps)
  {
    var final := WithEdges(WithSections(raw, SECTIONS), dumps);
    FinalValues(raw, dumps, "");
    SortedDict(final);
    var once := Canonical(final);
    CanonicalFacts(final, "");
    var again := WithEdges(WithSections(once, SECTIONS), dumps);
    forall q ensures Value(again, q) == Value(once, q) {
      FinalValues(raw, dumps, q);
      CanonicalFacts(final, q);
      FinalValues(once, dumps, q);
      if Value(raw, q).Some? { ValueIsWellFormed(raw, q); }
      NormalValueTwice(q, Value(raw, q), dumps);
    }
    FinalValues(once, dumps, "");
    CanonicalIffValues(again, once);
    SortedDict(again);
  }

  lemma {:induction false} EdgesAmongAreCanonical(items: seq<Doc>)
    requires WellFormed(List(items))
    ensures forall e :: e in EdgesAmong(items) ==> Canonical(e) == e
  {
    if items == [] {
    } else {
      var n := |items| - 1;
      EdgesAmongAreCanonical(items[..n]);
      if items[n].Dict? { CanonicalFacts(items[n].entries, ""); }
    }
  }

  lemma {:induction false} EdgesAmongDicts(edges: seq<Entries>)
    requires forall e :: e in edges ==> Canonical(e) == e
    ensures EdgesAmong(Mapped(AsDict, edges)) == edges
  {
    hide Canonical, SortMapping, SortBy;
    if edges == [] {
    } else {
      var n := |edges| - 1;
      EdgesAmongDicts(edges[..n]);
      assert Mapped(AsDict, edges)[..n] == Mapped(AsDict, edges[..n]);
      assert edges[n] in edges;
    }
  }

  lemma SortedEdgesStay(items: seq<Doc>, dumps: Dumps)
    requires WellFormed(List(items))
    ensures var sorted := SortBy(EdgeKey(dumps), EdgesAmong(items));
      EdgesAmong(Mapped(AsDict, sorted)) == sorted && SortBy(EdgeKey(dumps), sorted) == sorted
  {
    var sorted := SortBy(EdgeKey(dumps), EdgesAmong(items));
    EdgesAmongAreCanonical(items);
    forall e | e in sorted ensures Canonical(e) == e { Member(sorted, EdgesAmong(items), e); }
    EdgesAmongDicts(sorted);
    SortBySorts(EdgeKey(dumps), EdgesAmong(items));
    SortedIsFixed(EdgeKey(dumps), sorted);
  }

  lemma NormalValueTwice(q: string, v: Option<Doc>, dumps: Dumps)
    requires v.Some? ==> WellFormed(v.value)
    ensures NormalValue(q, NormalValue(q, v, dumps), dumps) == NormalValue(q, v, dumps)
  {
    hide Canonical, SortBy, EdgesAmong;
    var edges := Or(v, List([]));
    if q == "edges" && edges.List? {
      SortedEdgesStay(edges.items, dumps);
      EmptyEdges(dumps);
      var sorted := SortBy(EdgeKey(dumps), EdgesAmong(edges.items));
      assert EdgesValue(v, dumps) == Some(List(Mapped(AsDict, sorted)));
      if sorted == [] { assert Mapped(AsDict, sorted) == []; }
    }
  }

  lemma EmptyEdges(dumps: Dumps)
    ensures EdgesAmong([]) == [] && SortBy(EdgeKey(dumps), []) == []
  {
  }

  lemma ValueIsWellFormed(es: Entries, k: string)
    requires WellFormed(Dict(es)) && Value(es, k).Some?
    ensures WellFormed(Value(es, k).value)
  {
    LookupIsWellFormed(es, k);
    SortMappingIsIdempotent(Lookup(es, k).value);
  }

  // ------------------------------------------------------------------ the order of edges

  lemma {:induction false} EdgesAmongConcat(a: seq<Doc>, b: seq<Doc>)
    ensures EdgesAmong(a + b) == EdgesAmong(a) + EdgesAmong(b)
    decreases |b|
  {
    hide Canonical;
    if b == [] {
      assert a + b == a;
    } else {
      var n := |b| - 1;
      EdgesAmongConcat(a, b[..n]);
      assert (a + b)[..|a| + n] == a + b[..n];
    }
  }

  /** Permuting the items permutes the canonical edges. */
  lemma {:induction false} EdgesAmongPermuted(a: seq<Doc>, b: seq<Doc>)
    requires multiset(a) == multiset(b)
    ensures multiset(EdgesAmong(a)) == multiset(EdgesAmong(b))
    decreases |a|
  {
    hide Canonical;
    assert |multiset(a)| == |a| && |multiset(b)| == |b|;
    if a == [] {
    } else {
      var n := |a| - 1;
      Member(a, b, a[n]);
      var j :| 0 <= j < |b| && b[j] == a[n];
      var rest := b[..j] + b[j + 1..];
      DropLast(a);
      RemoveAt(b, j);
      EdgesAmongPermuted(a[..n], rest);
      SplitEdges(a, n);
      assert a[n + 1..] == [];
      SplitEdges(b, j);
      EdgesAmongConcat(b[..j], b[j + 1..]);
    }
  }

  function OneEdge(d: Doc): seq<Entries> {
    if d.Dict? then [Canonical(d.entries)] else []
  }

  lemma SplitEdges(items: seq<Doc>, j: nat)
    requires j < |items|
    ensures EdgesAmong(items) == EdgesAmong(items[..j]) + OneEdge(items[j]) + EdgesAmong(items[j + 1..])
  {
    hide EdgesAmong, OneEdge;
    JoinEdges(items[..j], items[j], items[j + 1..]);
    SplitAt(items, j);
  }

  lemma SplitAt<T>(s: seq<T>, j: nat)
    requires j < |s|
    ensures s == s[..j] + [s[j]] + s[j + 1..]
  {
  }

  lemma JoinEdges(a: seq<Doc>, x: Doc, c: seq<Doc>)
    ensures EdgesAmong(a + [x] + c) == EdgesAmong(a) + OneEdge(x) + EdgesAmong(c)
  {
    hide EdgesAmong, OneEdge;
    EdgesAmongConcat(a + [x], c);
    OneMoreEdge(a, x);
  }

  lemma OneMoreEdge(items: seq<Doc>, d: Doc)
    ensures EdgesAmong(items + [d]) == EdgesAmong(items) + OneEdge(d)
  {
    hide Canonical;
    assert (items + [d])[..|items|] == items;
  }

  /** Two different canonical edges with the same sort key, swapped, stay swapped. */
  lemma SwapShows(a: seq<Doc>, x: Doc, b: seq<Doc>, y: Doc, c: seq<Doc>, dumps: Dumps)
    requires x.Dict? && y.Dict? && Canonical(x.entries) != Canonical(y.entries)
    requires KeyOfEdge(dumps, Canonical(x.entries)) == KeyOfEdge(dumps, Canonical(y.entries))
    ensures SortBy(EdgeKey(dumps), EdgesAmong(a + [x] + b + [y] + c))
      != SortBy(EdgeKey(dumps), EdgesAmong(a + [y] + b + [x] + c))
  {
    hide Canonical, SortBy, KeyOfEdge, EdgesAmong;
    var k := KeyOfEdge(dumps, Canonical(x.entries));
    KeyedFrom(a, x, b + [y] + c, dumps, k);
    KeyedFrom(a, y, b + [x] + c, dumps, k);
    assert a + [x] + (b + [y] + c) == a + [x] + b + [y] + c;
    assert a + [y] + (b + [x] + c) == a + [y] + b + [x] + c;
    SortIsStable(EdgeKey(dumps), EdgesAmong(a + [x] + b + [y] + c), k);
    SortIsStable(EdgeKey(dumps), EdgesAmong(a + [y] + b + [x] + c), k);
  }

  lemma KeyedFrom(a: seq<Doc>, x: Doc, rest: seq<Doc>, dumps: Dumps, k: Key)
    requires x.Dict? && KeyOfEdge(dumps, Canonical(x.entries)) == k
    ensures
      var before := WithKey(EdgeKey(dumps), EdgesAmong(a), k);
      var all := WithKey(EdgeKey(dumps), EdgesAmong(a + [x] + rest), k);
      |before| < |all| && all[|before|] == Canonical(x.entries)
  {
    hide Canonical, KeyOfEdge;
    JoinEdges(a, x, rest);
    var one := OneEdge(x);
    WithKeyConcat(EdgeKey(dumps), EdgesAmong(a) + one, EdgesAmong(rest), k);
    WithKeyConcat(EdgeKey(dumps), EdgesAmong(a), one, k);
    assert one[..0] == [] && WithKey(EdgeKey(dumps), one, k) == one;
  }

  ghost predicate AlwaysSortsAlike(items: seq<Doc>, dumps: Dumps) {
    forall other :: multiset(other) == multiset(items) ==>
      SortBy(EdgeKey(dumps), EdgesAmong(other)) == SortBy(EdgeKey(dumps), EdgesAmong(items))
  }

  lemma {:induction false} EdgeOrigin(items: seq<Doc>, e: Entries) returns (i: nat)
    requires e in EdgesAmong(items)
    ensures i < |items| && items[i].Dict? && Canonical(items[i].entries) == e
  {
    hide Canonical;
    var n := |items| - 1;
    if e in EdgesAmong(items[..n]) {
      i := EdgeOrigin(items[..n], e);
    } else {
      i := n;
    }
  }

  /** The order in which edges are listed is irrelevant exactly if no two different edges (key order aside)
      share source, target, condition and mapping. */
  lemma EdgeOrderIsIrrelevantIff(items: seq<Doc>, dumps: Dumps)
    ensures AlwaysSortsAlike(items, dumps) <==> KeysDetermine(EdgeKey(dumps), EdgesAmong(items))
  {
    var edges := EdgesAmong(items);
    if KeysDetermine(EdgeKey(dumps), edges) {
      forall other | multiset(other) == multiset(items)
        ensures SortBy(EdgeKey(dumps), EdgesAmong(other)) == SortBy(EdgeKey(dumps), edges)
      {
        EdgesAmongPermuted(items, other);
        PermutationsSortAlike(EdgeKey(dumps), edges, EdgesAmong(other));
      }
    }
    if AlwaysSortsAlike(items, dumps) {
      forall x, y | x in edges && y in edges && EdgeKey(dumps)(x) == EdgeKey(dumps)(y) ensures x == y {
        EqualKeysEqualEdges(items, dumps, x, y);
      }
    }
  }

  lemma Swapped(a: seq<Doc>, x: Doc, b: seq<Doc>, y: Doc, c: seq<Doc>)
    ensures multiset(a + [x] + b + [y] + c) == multiset(a + [y] + b + [x] + c)
  {
  }

  lemma NotAlike(items: seq<Doc>, i: nat, j: nat, dumps: Dumps)
    requires i < j < |items| && items[i].Dict? && items[j].Dict?
    requires Canonical(items[i].entries) != Canonical(items[j].entries)
    requires KeyOfEdge(dumps, Canonical(items[i].entries)) == KeyOfEdge(dumps, Canonical(items[j].entries))
    ensures !AlwaysSortsAlike(items, dumps)
  {
    hide Canonical, SortBy, KeyOfEdge, EdgesAmong, EdgeKey;
    var a, b, c := items[..i], items[i + 1..j], items[j + 1..];
    var p, q := items[i], items[j];
    assert items == a + [p] + b + [q] + c;
    Swapped(a, p, b, q, c);
    SwapShows(a, p, b, q, c, dumps);
  }

  lemma EqualKeysEqualEdges(items: seq<Doc>, dumps: Dumps, x: Entries, y: Entries)
    requires AlwaysSortsAlike(items, dumps) && x in EdgesAmong(items) && y in EdgesAmong(items)
    requires KeyOfEdge(dumps, x) == KeyOfEdge(dumps, y)
    ensures x == y
  {
    hide Canonical, KeyOfEdge, EdgesAmong, AlwaysSortsAlike;
    var i := EdgeOrigin(items, x);
    var j := EdgeOrigin(items, y);
    if x != y && i < j {
      NotAlike(items, i, j, dumps);
    } else if x != y && j < i {
      NotAlike(items, j, i, dumps);
    }
  }

  /** The same for whole documents: reordering the edge list of a document never changes what it normalizes to,
      exactly if its edges are determined by their sort keys. */
  lemma EdgeListOrder(raw: Entries, items: seq<Doc>, dumps: Dumps)
    requires WellFormed(Dict(raw)) && Lookup(raw, "edges") == Some(List(items))
    ensures (forall other :: multiset(other) == multiset(items) ==>
             Normalized(Put(raw, "edges", List(other)), dumps) == Normalized(raw, dumps))
       <==> KeysDetermine(EdgeKey(dumps), EdgesAmong(items))
  {
    hide Normalized, KeysDetermine, EdgesAmong, SortBy, WellFormed;
    forall other | multiset(other) == multiset(items)
      ensures Normalized(Put(raw, "edges", List(other)), dumps) == Normalized(raw, dumps)
         <==> SortBy(EdgeKey(dumps), EdgesAmong(other)) == SortBy(EdgeKey(dumps), EdgesAmong(items))
    {
      ReorderedEdges(raw, items, other, dumps);
    }
    EdgeOrderIsIrrelevantIff(items, dumps);
  }

  lemma EdgesValueIs(items: seq<Doc>, dumps: Dumps)
    requires WellFormed(List(items))
    ensures EdgesValue(Some(SortMapping(List(items))), dumps)
      == Some(List(Mapped(AsDict, SortBy(EdgeKey(dumps), EdgesAmong(items)))))
  {
    EdgesAmongCanonical(items);
  }

  lemma SameDicts(a: seq<Entries>, b: seq<Entries>)
    ensures Mapped(AsDict, a) == Mapped(AsDict, b) <==> a == b
  {
    if Mapped(AsDict, a) == Mapped(AsDict, b) {
      forall i | 0 <= i < |a| ensures a[i] == b[i] { assert Mapped(AsDict, a)[i] == Mapped(AsDict, b)[i]; }
    }
  }

  lemma PermutedItems(items: seq<Doc>, other: seq<Doc>)
    requires WellFormed(List(items)) && multiset(other) == multiset(items)
    ensures WellFormed(List(other))
  {
    forall i | 0 <= i < |other| ensures WellFormed(other[i]) { Member(other, items, other[i]); }
  }

  lemma ReorderedEdges(raw: Entries, items: seq<Doc>, other: seq<Doc>, dumps: Dumps)
    requires WellFormed(Dict(raw)) && Lookup(raw, "edges") == Some(List(items)) && multiset(other) == multiset(items)
    ensures Normalized(Put(raw, "edges", List(other)), dumps) == Normalized(raw, dumps)
       <==> SortBy(EdgeKey(dumps), EdgesAmong(other)) == SortBy(EdgeKey(dumps), EdgesAmong(items))
  {
    hide SortMapping, Canonical, SortBy, EdgesAmong, Normalized, Mapped, EdgesValue, SectionValue, WellFormed, EdgeKey;
    LookupIsWellFormed(raw, "edges");
    PermutedItems(items, other);
    var changed := Put(raw, "edges", List(other));
    PutIsWellFormed(raw, "edges", List(other));
    EdgesValueIs(items, dumps);
    EdgesValueIs(other, dumps);
    SameDicts(SortBy(EdgeKey(dumps), EdgesAmong(other)), SortBy(EdgeKey(dumps), EdgesAmong(items)));
    forall q ensures Value(changed, q) == if q == "edges" then Some(SortMapping(List(other))) else Value(raw, q) {
      PutLookup(raw, "edges", List(other), q);
    }
    NormalizedIffValues(changed, raw, dumps);
    assert NormalValue("edges", Value(changed, "edges"), dumps) == EdgesValue(Some(SortMapping(List(other))), dumps);
    assert NormalValue("edges", Value(raw, "edges"), dumps) == EdgesValue(Some(SortMapping(List(items))), dumps);
  }

  // ------------------------------------------------------------------ two edges in either order

  function TimedEdge(timeout: string): Entries {
    [("from", Text("a")), ("to", Text("b")), ("timeout", Text(timeout))]
  }

  function TwoEdges(first: string, second: string): Entries {
    [("edges", List([Dict(TimedEdge(first)), Dict(TimedEdge(second))]))]
  }

  lemma TimedEdgeFields(timeout: string, k: string)
    ensures Lookup(TimedEdge(timeout), k) ==
      if k == "from" then Some(Text("a"))
      else if k == "to" then Some(Text("b"))
      else if k == "timeout" then Some(Text(timeout)) else None
  {
    var e := TimedEdge(timeout);
    assert e[1..][0] == e[1] && e[1..][1..] == [e[2]] && [e[2]][1..] == [];
    assert Lookup([e[2]], k) == if k == "timeout" then Some(Text(timeout)) else None;
  }

  lemma TimedEdgeFacts(timeout: string, dumps: Dumps)
    ensures var e := TimedEdge(timeout);
      && WellFormed(Dict(e)) && DistinctKeys(e) && Value(e, "timeout") == Some(Text(timeout))
      && KeyOfEdge(dumps, Canonical(e)) == ["a", "b", "", dumps(SortMapping(Dict([])))]
  {
    hide Canonical, SortBy, Lookup;
    var e := TimedEdge(timeout);
    TimedEdgeFields(timeout, "from");
    TimedEdgeFields(timeout, "to");
    TimedEdgeFields(timeout, "when");
    TimedEdgeFields(timeout, "with");
    TimedEdgeFields(timeout, "timeout");
    KeyIsCanonical(dumps, e);
  }

  lemma TwoEdgesFacts(first: string, second: string)
    requires WellFormed(Dict(TimedEdge(first))) && WellFormed(Dict(TimedEdge(second)))
    ensures var raw, items := TwoEdges(first, second), [Dict(TimedEdge(first)), Dict(TimedEdge(second))];
      WellFormed(Dict(raw)) && Lookup(raw, "edges") == Some(List(items))
    ensures forall v :: Put(TwoEdges(first, second), "edges", v) == [("edges", v)]
  {
    hide TimedEdge;
    var items := [Dict(TimedEdge(first)), Dict(TimedEdge(second))];
    assert WellFormed(List(items));
  }

  /** Two edges that differ in nothing but their timeout normalize to two different documents in the two orders. */
  lemma EdgeOrderCanShow(first: string, second: string, dumps: Dumps)
    requires first != second
    ensures WellFormed(Dict(TwoEdges(first, second))) && WellFormed(Dict(TwoEdges(second, first)))
    ensures Normalized(TwoEdges(first, second), dumps) != Normalized(TwoEdges(second, first), dumps)
  {
    hide SortMapping, Canonical, SortBy, KeyOfEdge, EdgesAmong, Normalized, TimedEdge, EdgeKey, Value, WellFormed,
      Lookup, Put;
    var x, y := Dict(TimedEdge(first)), Dict(TimedEdge(second));
    TimedEdgeFacts(first, dumps);
    TimedEdgeFacts(second, dumps);
    TwoEdgesFacts(first, second);
    TwoEdgesFacts(second, first);
    CanonicalIffValues(x.entries, y.entries);
    SwapShows([], x, [], y, [], dumps);
    assert [] + [x] + [] + [y] + [] == [x, y] && [] + [y] + [] + [x] + [] == [y, x];
    ReorderedEdges(TwoEdges(first, second), [x, y], [y, x], dumps);
  }
}
