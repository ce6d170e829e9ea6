/** What a normal form is, read off the document it came from: the same content, with the keys of every mapping in
    ascending order, the four sections present, and the edges sorted. */
module NormalForm {
  import opened Wrappers
  import opened Strings
  import opened Sorting
  import opened Normalize

  /** The keys of every dictionary ascend, at any depth. */
  ghost predicate KeysAscend(d: Doc) {
    match d
    case List(items) => forall i :: 0 <= i < |items| ==> KeysAscend(items[i])
    case Dict(es) =>
      && (forall i, j :: 0 <= i < j < |es| ==> Precedes(es[i].0, es[j].0))
      && forall i :: 0 <= i < |es| ==> KeysAscend(es[i].1)
    case _ => true
  }

  /** What counts as missing: no value, or an empty one. */
  predicate Missing(v: Option<Doc>) {
    v.None? || v.value in [Nothing, Flag(false), Number(0.0), Text(""), List([]), Dict([])]
  }

  function FieldText(edge: Entries, k: string): string {
    match Lookup(edge, k) case Some(Text(s)) => s case _ => ""
  }

  function MappingText(dumps: Dumps, edge: Entries): string {
    dumps(if Missing(Lookup(edge, "with")) then Dict([]) else Lookup(edge, "with").value)
  }

  /** By source, then target, then condition, then mapping. */
  ghost predicate EdgePrecedes(dumps: Dumps, a: Entries, b: Entries) {
    || Precedes(FieldText(a, "from"), FieldText(b, "from"))
    || (&& FieldText(a, "from") == FieldText(b, "from")
        && (|| Precedes(FieldText(a, "to"), FieldText(b, "to"))
            || (&& FieldText(a, "to") == FieldText(b, "to")
                && (|| Precedes(FieldText(a, "when"), FieldText(b, "when"))
                    || (&& FieldText(a, "when") == FieldText(b, "when")
                        && Precedes(MappingText(dumps, a), MappingText(dumps, b)))))))
  }

  ghost predicate EdgesAscend(dumps: Dumps, edges: seq<Doc>) {
    && (forall i :: 0 <= i < |edges| ==> edges[i].Dict?)
    && forall i, j :: 0 <= i < j < |edges| ==> !EdgePrecedes(dumps, edges[j].entries, edges[i].entries)
  }

  ghost predicate IsPermutation(perm: seq<nat>, n: nat) {
    && |perm| == n && (forall i :: 0 <= i < n ==> perm[i] < n)
    && (forall i, j :: 0 <= i < j < n ==> perm[i] != perm[j]) && forall m: nat :: m < n ==> m in perm
  }

  /** The edges are the items' dictionaries, each once, rearranged and with their keys rearranged. */
  ghost predicate Rearranges(items: seq<Doc>, edges: seq<Doc>, origin: seq<nat>) {
    && |origin| == |edges| && (forall i, j :: 0 <= i < j < |origin| ==> origin[i] != origin[j])
    && (forall i :: 0 <= i < |edges| ==>
          origin[i] < |items| && items[origin[i]].Dict? && edges[i].Dict? && Same(items[origin[i]], edges[i]))
    && forall k: nat :: k < |items| && items[k].Dict? ==> k in origin
  }

  ghost predicate EdgesAre(dumps: Dumps, was: Option<Doc>, now: Option<Doc>) {
    if Missing(was) then now == Some(List([]))
    else if !was.value.List? then now.Some? && Same(was.value, now.value)
    else now.Some? && now.value.List? && EdgesAscend(dumps, now.value.items)
         && exists origin :: Rearranges(was.value.items, now.value.items, origin)
  }

  /** What a key of the document leads to, and what it leads to in the normal form. */
  ghost predicate FieldIs(dumps: Dumps, key: string, was: Option<Doc>, now: Option<Doc>) {
    if key == "edges" then EdgesAre(dumps, was, now)
    else if key in ["types", "node_types", "modules", "nodes"] && Missing(was) then now == Some(Dict([]))
    else if was.None? then now.None?
    else now.Some? && Same(was.value, now.value)
  }

  // ------------------------------------------------------------------ keys ascend, content stays

  lemma OneKey(a: string, b: string)
    requires a != b && !TupleLess([b], [a])
    ensures Precedes(a, b)
  {
    LessIsTotal(a, b);
    LessIsPrecedes(a, b);
    assert TupleLess([b], [a]) <==> Less(b, a);
  }

  lemma {:induction false} SortedKeysAscend(d: Doc)
    requires WellFormed(d)
    ensures KeysAscend(SortMapping(d))
  {
    match d
    case List(items) =>
      forall i | 0 <= i < |items| ensures KeysAscend(SortMapping(items[i])) { SortedKeysAscend(items[i]); }
    case Dict(es) =>
      forall i | 0 <= i < |es| ensures KeysAscend(SortMapping(es[i].1)) { SortedKeysAscend(es[i].1); }
      SortedDict(es);
      CanonicalAscends(es);
    case _ =>
  }

  lemma CanonicalAscends(es: Entries)
    requires DistinctKeys(es) && forall i :: 0 <= i < |es| ==> KeysAscend(SortMapping(es[i].1))
    ensures KeysAscend(Dict(Canonical(es)))
  {
    var c := Canonical(es);
    InnerKeys(es);
    PermutedKeys(Inner(es), c);
    SortBySorts(EntryKey, Inner(es));
    hide SortMapping, SortBy, TupleLess, Precedes;
    forall i, j | 0 <= i < j < |c| ensures Precedes(c[i].0, c[j].0) {
      assert !TupleLess(EntryKey(c[j]), EntryKey(c[i]));
      OneKey(c[i].0, c[j].0);
    }
    forall i | 0 <= i < |c| ensures KeysAscend(c[i].1) { Member(c, Inner(es), c[i]); }
  }

  lemma SortingKeepsContent(d: Doc)
    requires WellFormed(d)
    ensures Same(d, SortMapping(d))
  {
    hide SortMapping, Same, WellFormed;
    SortMappingIsIdempotent(d);
    CanonicalForm(d, SortMapping(d));
  }

  lemma MissingIsFalsy(v: Option<Doc>)
    ensures Missing(v) <==> v.None? || !Truthy(v.value)
  {
  }

  // ------------------------------------------------------------------ edges

  /** One element taken out of both. */
  lemma TakeLast<T>(s: seq<T>, t: seq<T>) returns (j: nat)
    requires multiset(s) == multiset(t) && s != []
    ensures |s| == |t| && j < |t| && t[j] == s[|s| - 1]
    ensures multiset(s[..|s| - 1]) == multiset(t[..j] + t[j + 1..])
  {
    assert |multiset(s)| == |s| && |multiset(t)| == |t|;
    Member(s, t, s[|s| - 1]);
    j :| 0 <= j < |t| && t[j] == s[|s| - 1];
    DropLast(s);
    RemoveAt(t, j);
  }

  /** Position by position, s is t rearranged. */
  ghost predicate Picks<T(!new)>(s: seq<T>, t: seq<T>, perm: seq<nat>) {
    IsPermutation(perm, |t|) && |s| == |t| && forall i :: 0 <= i < |s| ==> s[i] == t[perm[i]]
  }

  /** Sequences with the same elements are rearrangements of each other. */
  lemma {:induction false} Rearranged<T(!new)>(s: seq<T>, t: seq<T>) returns (perm: seq<nat>)
    requires multiset(s) == multiset(t)
    ensures Picks(s, t, perm)
  {
    if s == [] {
      assert multiset(t) == multiset{};
      perm := [];
    } else {
      var j := TakeLast(s, t);
      var before := Rearranged(s[..|s| - 1], t[..j] + t[j + 1..]);
      perm := PicksMore(s, t, j, before);
    }
  }

  lemma PicksMore<T(!new)>(s: seq<T>, t: seq<T>, j: nat, before: seq<nat>) returns (perm: seq<nat>)
    requires s != [] && |s| == |t| && j < |t| && t[j] == s[|s| - 1]
    requires Picks(s[..|s| - 1], t[..j] + t[j + 1..], before)
    ensures Picks(s, t, perm)
  {
    var n := |s| - 1;
    perm := Widened(before, n, j);
    forall i | 0 <= i < n ensures perm[i] < |t| && s[i] == t[perm[i]] {
      WidenedAt(t, j, before, n, i);
      assert s[..n][i] == s[i];
    }
  }

  lemma WidenedAt<T>(t: seq<T>, j: nat, perm: seq<nat>, n: nat, i: nat)
    requires j < |t| && n == |t| - 1 && IsPermutation(perm, n) && i < n
    ensures var m := if perm[i] < j then perm[i] else perm[i] + 1;
      m < |t| && t[m] == (t[..j] + t[j + 1..])[perm[i]]
  {
  }

  /** The positions in a sequence without its element j, as positions in the whole, and then j. */
  lemma Widened(perm: seq<nat>, n: nat, j: nat) returns (wider: seq<nat>)
    requires IsPermutation(perm, n) && j <= n
    ensures IsPermutation(wider, n + 1) && wider[n] == j
    ensures forall i :: 0 <= i < n ==> wider[i] == if perm[i] < j then perm[i] else perm[i] + 1
  {
    var shifted := seq(n, i requires 0 <= i < n => if perm[i] < j then perm[i] else perm[i] + 1);
    wider := shifted + [j];
    forall m: nat | m < n + 1 ensures m in wider {
      if m == j {
        assert wider[n] == m;
      } else {
        var inner := if m < j then m else m - 1;
        assert inner in perm;
        var i :| 0 <= i < n && perm[i] == inner;
        assert wider[i] == m;
      }
    }
  }

  /** The edges are the dictionaries among the first n items, in order. */
  ghost predicate ItemsFrom(items: seq<Doc>, edges: seq<Entries>, origin: seq<nat>, n: nat) {
    && |origin| == |edges| && n <= |items| && (forall i, j :: 0 <= i < j < |origin| ==> origin[i] < origin[j])
    && (forall i :: 0 <= i < |origin| ==>
          origin[i] < n && items[origin[i]].Dict? && edges[i] == Canonical(items[origin[i]].entries))
    && forall k: nat :: k < n && items[k].Dict? ==> k in origin
  }

  lemma NoOrigins()
    ensures ItemsFrom([], [], [], 0)
  {
  }

  lemma OriginsOfPrefix(items: seq<Doc>, edges: seq<Entries>, origin: seq<nat>, n: nat)
    requires n <= |items| && ItemsFrom(items[..n], edges, origin, n)
    ensures ItemsFrom(items, edges, origin, n)
  {
    hide Canonical;
    var some := items[..n];
    forall i | 0 <= i < |origin|
      ensures origin[i] < n && items[origin[i]].Dict? && edges[i] == Canonical(items[origin[i]].entries)
    {
      assert some[origin[i]] == items[origin[i]];
    }
    forall k: nat | k < n && items[k].Dict? ensures k in origin { assert some[k] == items[k]; }
  }

  lemma OneMoreOrigin(items: seq<Doc>, edges: seq<Entries>, origin: seq<nat>, n: nat)
    requires n < |items| && ItemsFrom(items, edges, origin, n) && items[n].Dict?
    ensures ItemsFrom(items, edges + [Canonical(items[n].entries)], origin + [n], n + 1)
  {
    hide Canonical;
    var longer, more := origin + [n], edges + [Canonical(items[n].entries)];
    forall i | 0 <= i < |longer|
      ensures longer[i] < n + 1 && items[longer[i]].Dict? && more[i] == Canonical(items[longer[i]].entries)
    {
      if i < |origin| { assert longer[i] == origin[i]; }
    }
    forall k: nat | k < n + 1 && items[k].Dict? ensures k in longer {
      if k < n {
        assert k in origin;
        var i :| 0 <= i < |origin| && origin[i] == k;
        assert longer[i] == k;
      } else {
        assert longer[|origin|] == k;
      }
    }
  }

  lemma NoMoreOrigins(items: seq<Doc>, edges: seq<Entries>, origin: seq<nat>, n: nat)
    requires n < |items| && ItemsFrom(items, edges, origin, n) && !items[n].Dict?
    ensures ItemsFrom(items, edges, origin, n + 1)
  {
    hide Canonical;
  }

  /** Where the canonical edges among the items come from, in order. */
  lemma {:induction false} EdgeOrigins(items: seq<Doc>) returns (origin: seq<nat>)
    ensures ItemsFrom(items, EdgesAmong(items), origin, |items|)
  {
    hide Canonical, ItemsFrom;
    if items == [] {
      origin := [];
      NoOrigins();
      assert EdgesAmong(items) == [];
    } else {
      var n := |items| - 1;
      var before := EdgeOrigins(items[..n]);
      OriginsOfPrefix(items, EdgesAmong(items[..n]), before, n);
      if items[n].Dict? {
        origin := before + [n];
        OneMoreOrigin(items, EdgesAmong(items[..n]), before, n);
      } else {
        origin := before;
        assert EdgesAmong(items) == EdgesAmong(items[..n]);
        NoMoreOrigins(items, EdgesAmong(items[..n]), before, n);
      }
    }
  }

  /** The dictionaries among the items, sorted by some key, are the items rearranged. */
  lemma SortedEdgesRearrange(items: seq<Doc>, sorted: seq<Entries>) returns (origin: seq<nat>)
    requires WellFormed(List(items)) && multiset(sorted) == multiset(EdgesAmong(items))
    ensures Rearranges(items, Mapped(AsDict, sorted), origin)
  {
    hide Canonical, EdgesAmong, Same, WellFormed;
    var from := EdgeOrigins(items);
    var perm := Rearranged(sorted, EdgesAmong(items));
    origin := seq(|perm|, i requires 0 <= i < |perm| => from[perm[i]]);
    forall i | 0 <= i < |sorted|
      ensures origin[i] < |items| && items[origin[i]].Dict? && Same(items[origin[i]], AsDict(sorted[i]))
    {
      ItemIsSame(items, from[perm[i]]);
      assert sorted[i] == EdgesAmong(items)[perm[i]];
    }
    forall k: nat | k < |items| && items[k].Dict? ensures k in origin {
      var m: nat :| m < |from| && from[m] == k;
      assert m in perm;
      var i :| 0 <= i < |perm| && perm[i] == m;
      assert origin[i] == k;
    }
    OriginsDiffer(from, perm, origin);
  }

  lemma OriginsDiffer(from: seq<nat>, perm: seq<nat>, origin: seq<nat>)
    requires IsPermutation(perm, |from|) && |origin| == |perm|
    requires forall i, j :: 0 <= i < j < |from| ==> from[i] < from[j]
    requires forall i :: 0 <= i < |perm| ==> origin[i] == from[perm[i]]
    ensures forall i, j :: 0 <= i < j < |origin| ==> origin[i] != origin[j]
  {
  }

  lemma ItemIsSame(items: seq<Doc>, k: nat)
    requires WellFormed(List(items)) && k < |items| && items[k].Dict?
    ensures Same(items[k], AsDict(Canonical(items[k].entries)))
  {
    SortedDict(items[k].entries);
    SortingKeepsContent(items[k]);
  }

  lemma FourParts(a: string, b: string, c: string, d: string, w: string, x: string, y: string, z: string)
    ensures TupleLess([a, b, c, d], [w, x, y, z]) <==>
      || Precedes(a, w)
        || (a == w && (|| Precedes(b, x) || (b == x && (|| Precedes(c, y) || (c == y && Precedes(d, z))))))
  {
    LessIsPrecedes(a, w);
    LessIsPrecedes(b, x);
    LessIsPrecedes(c, y);
    LessIsPrecedes(d, z);
    hide Less, Precedes;
    TupleStep(a, [b, c, d], w, [x, y, z]);
    TupleStep(b, [c, d], x, [y, z]);
    TupleStep(c, [d], y, [z]);
    TupleStep(d, [], z, []);
  }

  lemma TupleStep(a: string, s: Key, b: string, t: Key)
    ensures TupleLess([a] + s, [b] + t) <==> Less(a, b) || (a == b && TupleLess(s, t))
    ensures !TupleLess([], [])
  {
    hide Less;
    assert ([a] + s)[1..] == s && ([b] + t)[1..] == t;
  }

  /** A canonical edge's sort key is made of its own texts. */
  lemma KeyOfCanonical(dumps: Dumps, es: Entries)
    requires WellFormed(Dict(es))
    ensures var e := Canonical(es);
      KeyOfEdge(dumps, e) == [FieldText(e, "from"), FieldText(e, "to"), FieldText(e, "when"), MappingText(dumps, e)]
  {
    hide Canonical, SortMapping;
    var e := Canonical(es);
    CanonicalFacts(es, "with");
    MissingIsFalsy(Lookup(e, "with"));
    EmptyDocs();
    if Lookup(es, "with").Some? {
      LookupIsWellFormed(es, "with");
      SortMappingIsIdempotent(Lookup(es, "with").value);
    }
  }

  lemma SortedEdgesAscend(items: seq<Doc>, dumps: Dumps)
    requires WellFormed(List(items))
    ensures EdgesAscend(dumps, Mapped(AsDict, SortBy(EdgeKey(dumps), EdgesAmong(items))))
  {
    var sorted := SortBy(EdgeKey(dumps), EdgesAmong(items));
    SortBySorts(EdgeKey(dumps), EdgesAmong(items));
    hide Canonical, EdgesAmong, SortBy, WellFormed, KeyOfEdge, EdgePrecedes, TupleLess;
    forall i, j | 0 <= i < j < |sorted| ensures !EdgePrecedes(dumps, sorted[j], sorted[i]) {
      assert !TupleLess(EdgeKey(dumps)(sorted[j]), EdgeKey(dumps)(sorted[i]));
      KeyOfSorted(items, dumps, sorted, i);
      KeyOfSorted(items, dumps, sorted, j);
      PrecedesIsLess(dumps, sorted[j], sorted[i]);
    }
  }

  lemma KeyOfSorted(items: seq<Doc>, dumps: Dumps, sorted: seq<Entries>, i: nat)
    requires WellFormed(List(items)) && multiset(sorted) == multiset(EdgesAmong(items)) && i < |sorted|
    ensures var e := sorted[i];
      KeyOfEdge(dumps, e) == [FieldText(e, "from"), FieldText(e, "to"), FieldText(e, "when"), MappingText(dumps, e)]
  {
    hide Canonical, EdgesAmong, KeyOfEdge;
    Member(sorted, EdgesAmong(items), sorted[i]);
    var k := EdgeOrigin(items, sorted[i]);
    KeyOfCanonical(dumps, items[k].entries);
  }

  lemma PrecedesIsLess(dumps: Dumps, a: Entries, b: Entries)
    ensures EdgePrecedes(dumps, a, b) <==>
      TupleLess([FieldText(a, "from"), FieldText(a, "to"), FieldText(a, "when"), MappingText(dumps, a)],
                [FieldText(b, "from"), FieldText(b, "to"), FieldText(b, "when"), MappingText(dumps, b)])
  {
    FourParts(FieldText(a, "from"), FieldText(a, "to"), FieldText(a, "when"), MappingText(dumps, a),
              FieldText(b, "from"), FieldText(b, "to"), FieldText(b, "when"), MappingText(dumps, b));
    hide FieldText, MappingText, Precedes, TupleLess;
  }

  lemma EdgesValueMeans(raw: Entries, dumps: Dumps)
    requires WellFormed(Dict(raw))
    ensures EdgesAre(dumps, Lookup(raw, "edges"), EdgesValue(Value(raw, "edges"), dumps))
  {
    hide SortMapping, Canonical, SortBy, EdgesAmong, Same, EdgesAscend;
    var was := Lookup(raw, "edges");
    MissingIsFalsy(was);
    if was.Some? {
      LookupIsWellFormed(raw, "edges");
      ShapeIsKept(was.value);
    }
    if Missing(was) {
      EmptyEdges(dumps);
      assert Mapped(AsDict, []) == [];
    } else if was.value.List? {
      var items := was.value.items;
      EdgesAmongCanonical(items);
      SortedEdgesAscend(items, dumps);
      var origin := SortedEdgesRearrange(items, SortBy(EdgeKey(dumps), EdgesAmong(items)));
    } else {
      SortingKeepsContent(was.value);
    }
  }

  // ------------------------------------------------------------------ the normal form

  lemma FieldMeans(raw: Entries, dumps: Dumps, key: string)
    requires WellFormed(Dict(raw))
    ensures FieldIs(dumps, key, Lookup(raw, key), NormalValue(key, Value(raw, key), dumps))
  {
    hide SortMapping, EdgesValue, EdgesAre, Same, WellFormed;
    if key == "edges" {
      EdgesValueMeans(raw, dumps);
    } else if Lookup(raw, key).Some? {
      var v := Lookup(raw, key).value;
      LookupIsWellFormed(raw, key);
      SortingKeepsContent(v);
      ShapeIsKept(v);
      MissingIsFalsy(Some(v));
    }
  }

  /** The normal form of a document: the keys of all its mappings ascend; a missing section is an empty one; the edges
      are the document's, each once, sorted by source, target, condition and mapping; everything else is there
      unchanged, and nothing else is. */
  lemma NormalFormMeans(raw: Entries, dumps: Dumps)
    requires WellFormed(Dict(raw))
    ensures var n := Normalized(raw, dumps);
      n.Dict? && WellFormed(n) && KeysAscend(n)
      && forall key :: FieldIs(dumps, key, Lookup(raw, key), Lookup(n.entries, key))
  {
    hide FieldIs, SortMapping, WithEdges, WithSections, NormalValue, KeysAscend, Canonical;
    var final := WithEdges(WithSections(raw, SECTIONS), dumps);
    FinalValues(raw, dumps, "");
    SortedDict(final);
    CanonicalFacts(final, "");
    SortedKeysAscend(Dict(final));
    forall key ensures FieldIs(dumps, key, Lookup(raw, key), Lookup(Canonical(final), key)) {
      FinalValues(raw, dumps, key);
      CanonicalFacts(final, key);
      FieldMeans(raw, dumps, key);
    }
  }
}
