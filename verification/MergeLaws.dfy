/** What the merged input of a node holds, entry by entry of the mappings it is merged from. */
module MergeLaws {
  import opened Wrappers
  import opened Json
  import opened WhenValues
  import opened OrchestratorSpec

  type Entries = seq<(string, Mapped)>

  /** A mapping value stands for itself, a reference for what its path resolves to. */
  predicate StandsFor(m: Mapped, view: Snapshot, trigger: Node, v: Json) {
    match m
    case Constant(c) => v == c
    case Reference(path) => ResolvePath(path, view, trigger) == Some(v)
  }

  ghost predicate HasValue(m: Mapped, view: Snapshot, trigger: Node) {
    exists v :: StandsFor(m, view, trigger, v)
  }

  ghost predicate Resolvable(entries: Entries, view: Snapshot, trigger: Node) {
    forall i :: 0 <= i < |entries| ==> HasValue(entries[i].1, view, trigger)
  }

  /** Two entries for one field stand for unequal values. */
  ghost predicate Clash(entries: Entries, view: Snapshot, trigger: Node) {
    exists i, j, u, v ::
      && 0 <= i < j < |entries| && entries[i].0 == entries[j].0 && !PyEq(u, v)
      && StandsFor(entries[i].1, view, trigger, u) && StandsFor(entries[j].1, view, trigger, v)
  }

  /** Some pair has the key. */
  ghost predicate HasKey<T>(pairs: seq<(string, T)>, k: string) {
    exists i :: 0 <= i < |pairs| && pairs[i].0 == k
  }

  ghost predicate IsLast(entries: Entries, i: nat) {
    i < |entries| && forall j :: i < j < |entries| ==> entries[j].0 != entries[i].0
  }

  /** The payload has a value for exactly the fields the entries map; all entries for a field agree with it, and it
      is the last one's. */
  ghost predicate MergesTo(entries: Entries, view: Snapshot, trigger: Node, p: Payload) {
    && (forall k :: k in p <==> HasKey(entries, k))
    && (forall i, v :: 0 <= i < |entries| && StandsFor(entries[i].1, view, trigger, v) ==> PyEq(p[entries[i].0], v))
    && (forall i: nat :: IsLast(entries, i) ==> StandsFor(entries[i].1, view, trigger, p[entries[i].0]))
  }

  /** The mappings of several edges, one after the other. */
  function AllEntries(edges: seq<InEdge>): Entries {
    if edges == [] then [] else AllEntries(edges[..|edges| - 1]) + edges[|edges| - 1].mapping
  }

  // ------------------------------------------------------------------ values

  type Values = seq<(string, Json)>

  /** The values of the entries. */
  ghost predicate ValuesOf(entries: Entries, view: Snapshot, trigger: Node, vs: Values) {
    && |vs| == |entries|
    && forall i :: 0 <= i < |vs| ==> vs[i].0 == entries[i].0 && StandsFor(entries[i].1, view, trigger, vs[i].1)
  }

  ghost predicate Agreeing(vs: Values) {
    forall i, j :: 0 <= i < j < |vs| && vs[i].0 == vs[j].0 ==> PyEq(vs[i].1, vs[j].1)
  }

  ghost predicate IsLastValue(vs: Values, i: nat) {
    i < |vs| && forall j :: i < j < |vs| ==> vs[j].0 != vs[i].0
  }

  ghost predicate Holding(vs: Values, p: Payload) {
    && (forall k :: k in p <==> HasKey(vs, k))
    && (forall i :: 0 <= i < |vs| ==> PyEq(p[vs[i].0], vs[i].1))
    && (forall i: nat :: IsLastValue(vs, i) ==> p[vs[i].0] == vs[i].1)
  }

  /** The last value for a field. */
  lemma LastOf(vs: Values, k: string) returns (i: nat)
    requires HasKey(vs, k)
    ensures IsLastValue(vs, i) && vs[i].0 == k
  {
    i := |vs| - 1;
    while vs[i].0 != k
      invariant i < |vs| && forall j :: i < j < |vs| ==> vs[j].0 != k
      decreases i
    {
      i := i - 1;
    }
  }

  lemma OneMoreValue(vs: Values, p: Payload, x: (string, Json))
    requires Holding(vs, p) && Agreeing(vs) && (x.0 in p ==> PyEq(p[x.0], x.1))
    ensures Holding(vs + [x], p[x.0 := x.1]) && Agreeing(vs + [x])
  {
    hide PyEq, IsLastValue;
    assert x.0 in p <==> HasKey(vs, x.0);
    forall i | 0 <= i < |vs| && vs[i].0 == x.0 ensures PyEq(x.1, vs[i].1) && PyEq(vs[i].1, x.1) {
      PyEqSymmetric(p[x.0], x.1);
      PyEqTransitive(x.1, p[x.0], vs[i].1);
      PyEqSymmetric(x.1, vs[i].1);
    }
    PyEqReflexive(x.1);
    KeysGrow(vs, p, x);
    LastsGrow(vs, p, x);
  }

  lemma KeysGrow(vs: Values, p: Payload, x: (string, Json))
    requires forall k :: k in p <==> HasKey(vs, k)
    ensures forall k :: k in p[x.0 := x.1] <==> HasKey(vs + [x], k)
  {
    var ws := vs + [x];
    assert ws[|vs|] == x;
    forall k ensures k in p[x.0 := x.1] <==> HasKey(ws, k) {
      if k in p { var i :| 0 <= i < |vs| && vs[i].0 == k; assert ws[i].0 == k; }
    }
  }

  lemma LastsGrow(vs: Values, p: Payload, x: (string, Json))
    requires Holding(vs, p)
    ensures forall i: nat :: IsLastValue(vs + [x], i) ==>
      (vs + [x])[i].0 in p[x.0 := x.1] && p[x.0 := x.1][(vs + [x])[i].0] == (vs + [x])[i].1
  {
    var ws := vs + [x];
    forall i: nat | IsLastValue(ws, i) ensures ws[i].0 in p[x.0 := x.1] && p[x.0 := x.1][ws[i].0] == ws[i].1 {
      if i < |vs| {
        assert ws[|vs|].0 != ws[i].0 && ws[i] == vs[i] && HasKey(vs, vs[i].0);
        assert forall j :: i < j < |vs| ==> ws[j] == vs[j];
        assert IsLastValue(vs, i);
      }
    }
  }

  lemma ClashingValue(vs: Values, p: Payload, x: (string, Json))
    requires Holding(vs, p) && x.0 in p && !PyEq(p[x.0], x.1)
    ensures !Agreeing(vs + [x])
  {
    var i := LastOf(vs, x.0);
    var ws := vs + [x];
    assert ws[i] == vs[i] && ws[|vs|] == x;
  }

  lemma {:induction false} PutIs(vs: Values, p: Payload, more: Values)
    requires Holding(vs, p) && Agreeing(vs)
    ensures match Put(Merged(p), more)
      case Merged(q) => Holding(vs + more, q) && Agreeing(vs + more)
      case Conflict => !Agreeing(vs + more)
      case MergeRaises => false
    decreases |more|
  {
    hide Holding, Agreeing;
    if more == [] {
      assert vs + more == vs;
    } else {
      var n := |more| - 1;
      PutIs(vs, p, more[..n]);
      assert vs + more == vs + more[..n] + [more[n]];
      match Put(Merged(p), more[..n])
      case Merged(q) =>
        if more[n].0 in q && !PyEq(q[more[n].0], more[n].1) {
          ClashingValue(vs + more[..n], q, more[n]);
        } else {
          OneMoreValue(vs + more[..n], q, more[n]);
        }
      case Conflict => StillClashing(vs + more[..n], [more[n]]);
      case MergeRaises =>
    }
  }

  lemma StillClashing(vs: Values, more: Values)
    requires !Agreeing(vs)
    ensures !Agreeing(vs + more)
  {
    var i, j :| 0 <= i < j < |vs| && vs[i].0 == vs[j].0 && !PyEq(vs[i].1, vs[j].1);
    assert (vs + more)[i] == vs[i] && (vs + more)[j] == vs[j];
  }

  // ------------------------------------------------------------------ entries

  lemma {:induction false} ResolveAllIs(mapping: Entries, view: Snapshot, trigger: Node)
    ensures match ResolveAll(mapping, view, trigger)
      case Some(vs) => ValuesOf(mapping, view, trigger, vs)
      case None => !Resolvable(mapping, view, trigger)
  {
    if mapping == [] {
    } else {
      var n := |mapping| - 1;
      ResolveAllIs(mapping[..n], view, trigger);
      if ResolveAll(mapping, view, trigger).None? {
        UnresolvableEntry(mapping, view, trigger);
      }
    }
  }

  lemma UnresolvableEntry(mapping: Entries, view: Snapshot, trigger: Node)
    requires mapping != []
    requires !Resolvable(mapping[..|mapping| - 1], view, trigger)
      || MappedValue(mapping[|mapping| - 1].1, view, trigger) == None
    ensures !Resolvable(mapping, view, trigger)
  {
    var n := |mapping| - 1;
    if !Resolvable(mapping[..n], view, trigger) {
      var i :| 0 <= i < n && !HasValue(mapping[..n][i].1, view, trigger);
      assert mapping[i] == mapping[..n][i];
    } else {
      assert !HasValue(mapping[n].1, view, trigger);
    }
  }

  lemma ValuesMean(entries: Entries, view: Snapshot, trigger: Node, vs: Values)
    requires ValuesOf(entries, view, trigger, vs)
    ensures Resolvable(entries, view, trigger)
    ensures Agreeing(vs) <==> !Clash(entries, view, trigger)
    ensures forall p :: Holding(vs, p) ==> MergesTo(entries, view, trigger, p)
  {
    if !Agreeing(vs) {
      var i, j :| 0 <= i < j < |vs| && vs[i].0 == vs[j].0 && !PyEq(vs[i].1, vs[j].1);
      assert StandsFor(entries[i].1, view, trigger, vs[i].1) && StandsFor(entries[j].1, view, trigger, vs[j].1);
    }
    forall i | 0 <= i < |entries| ensures HasValue(entries[i].1, view, trigger) {
      assert vs[i].0 == entries[i].0;
      assert StandsFor(entries[i].1, view, trigger, vs[i].1);
    }
    forall p | Holding(vs, p) ensures MergesTo(entries, view, trigger, p) {
      HoldingMerges(entries, view, trigger, vs, p);
    }
  }

  lemma SameKeys(entries: Entries, view: Snapshot, trigger: Node, vs: Values, k: string)
    requires ValuesOf(entries, view, trigger, vs)
    ensures HasKey(vs, k) <==> HasKey(entries, k)
  {
    hide StandsFor;
    if HasKey(vs, k) { var i :| 0 <= i < |vs| && vs[i].0 == k; assert entries[i].0 == k; }
    if HasKey(entries, k) { var i :| 0 <= i < |entries| && entries[i].0 == k; assert vs[i].0 == k; }
  }

  lemma HoldingMerges(entries: Entries, view: Snapshot, trigger: Node, vs: Values, p: Payload)
    requires ValuesOf(entries, view, trigger, vs) && Holding(vs, p)
    ensures MergesTo(entries, view, trigger, p)
  {
    forall k ensures k in p <==> HasKey(entries, k) { SameKeys(entries, view, trigger, vs, k); }
    forall i, v | 0 <= i < |entries| && StandsFor(entries[i].1, view, trigger, v) ensures PyEq(p[entries[i].0], v) {
      assert vs[i].0 == entries[i].0 && vs[i].1 == v;
    }
    hide PyEq, StandsFor, HasKey;
    forall i: nat | IsLast(entries, i) ensures StandsFor(entries[i].1, view, trigger, p[entries[i].0]) {
      assert forall j :: i < j < |vs| ==> vs[j].0 == entries[j].0;
      assert IsLastValue(vs, i);
    }
  }

  lemma ValuesJoin(a: Entries, b: Entries, view: Snapshot, trigger: Node, vs: Values, ws: Values)
    requires ValuesOf(a, view, trigger, vs) && ValuesOf(b, view, trigger, ws)
    ensures ValuesOf(a + b, view, trigger, vs + ws)
  {
  }

  // ------------------------------------------------------------------ edges

  /** The merge stopped at edge j because of its mapping. */
  ghost predicate ClashesAt(edges: seq<InEdge>, view: Snapshot, trigger: Node, j: nat) {
    && j < |edges| && Resolvable(AllEntries(edges[..j + 1]), view, trigger)
    && !Clash(AllEntries(edges[..j]), view, trigger) && Clash(AllEntries(edges[..j + 1]), view, trigger)
  }

  ghost predicate RaisesAt(edges: seq<InEdge>, view: Snapshot, trigger: Node, j: nat) {
    && j < |edges| && Resolvable(AllEntries(edges[..j]), view, trigger) && !Clash(AllEntries(edges[..j]), view, trigger)
    && !Resolvable(edges[j].mapping, view, trigger)
  }

  lemma {:induction false} MergeValues(edges: seq<InEdge>, view: Snapshot, trigger: Node) returns (vs: Values)
    ensures match MergeEdges(edges, view, trigger)
      case Merged(p) => ValuesOf(AllEntries(edges), view, trigger, vs) && Holding(vs, p) && Agreeing(vs)
      case Conflict => exists j: nat :: ClashesAt(edges, view, trigger, j)
      case MergeRaises => exists j: nat :: RaisesAt(edges, view, trigger, j)
  {
    hide Put, Holding, Agreeing, ValuesOf, Resolvable, Clash, ResolveAll;
    if edges == [] {
      vs := [];
      NothingMerged(view, trigger);
    } else {
      var n := |edges| - 1;
      vs := MergeValues(edges[..n], view, trigger);
      match MergeEdges(edges[..n], view, trigger)
      case Merged(p) =>
        vs := NextEdge(edges, view, trigger, p, vs);
      case Conflict =>
        var j: nat :| ClashesAt(edges[..n], view, trigger, j);
        assert edges[..n][..j + 1] == edges[..j + 1] && edges[..n][..j] == edges[..j];
        assert ClashesAt(edges, view, trigger, j);
      case MergeRaises =>
        var j: nat :| RaisesAt(edges[..n], view, trigger, j);
        assert edges[..n][..j] == edges[..j] && edges[..n][j] == edges[j];
        assert RaisesAt(edges, view, trigger, j);
    }
  }

  lemma NothingMerged(view: Snapshot, trigger: Node)
    ensures ValuesOf([], view, trigger, []) && Holding([], map[]) && Agreeing([])
  {
  }

  lemma NextEdge(edges: seq<InEdge>, view: Snapshot, trigger: Node, p: Payload, vs: Values) returns (ws: Values)
    requires edges != [] && MergeEdges(edges[..|edges| - 1], view, trigger) == Merged(p)
    requires ValuesOf(AllEntries(edges[..|edges| - 1]), view, trigger, vs) && Holding(vs, p) && Agreeing(vs)
    ensures match MergeEdges(edges, view, trigger)
      case Merged(q) => ValuesOf(AllEntries(edges), view, trigger, ws) && Holding(ws, q) && Agreeing(ws)
      case Conflict => exists j: nat :: ClashesAt(edges, view, trigger, j)
      case MergeRaises => exists j: nat :: RaisesAt(edges, view, trigger, j)
  {
    hide Put, Holding, Agreeing, ValuesOf, Resolvable, Clash, ResolveAll;
    var n := |edges| - 1;
    ws := vs;
    ResolveAllIs(edges[n].mapping, view, trigger);
    ValuesMean(AllEntries(edges[..n]), view, trigger, vs);
    match ResolveAll(edges[n].mapping, view, trigger)
    case None =>
      assert RaisesAt(edges, view, trigger, n);
    case Some(more) =>
      PutIs(vs, p, more);
      ws := vs + more;
      ValuesJoin(AllEntries(edges[..n]), edges[n].mapping, view, trigger, vs, more);
      assert edges[..n + 1] == edges;
      ValuesMean(AllEntries(edges), view, trigger, ws);
      if MergeEdges(edges, view, trigger).Conflict? { assert ClashesAt(edges, view, trigger, n); }
  }

  /** Merging succeeds if and only if all entries resolve and no two for one field clash, and then gives each mapped
      field, and no other, the value of the last entry for it. Otherwise it reports what it met first, edge by
      edge: an entry that does not resolve, or a clash. */
  lemma MergeMeans(edges: seq<InEdge>, view: Snapshot, trigger: Node)
    ensures match MergeEdges(edges, view, trigger)
      case Merged(p) =>
        && Resolvable(AllEntries(edges), view, trigger) && !Clash(AllEntries(edges), view, trigger)
        && MergesTo(AllEntries(edges), view, trigger, p)
      case Conflict => exists j: nat :: ClashesAt(edges, view, trigger, j)
      case MergeRaises => exists j: nat :: RaisesAt(edges, view, trigger, j)
  {
    hide Holding, Agreeing, ValuesOf, Resolvable, Clash, MergesTo;
    var vs := MergeValues(edges, view, trigger);
    if MergeEdges(edges, view, trigger).Merged? {
      ValuesMean(AllEntries(edges), view, trigger, vs);
    }
  }

  /** Entries that do not clash do not clash in a prefix either. */
  lemma NoClashInside(edges: seq<InEdge>, view: Snapshot, trigger: Node, j: nat)
    requires !Clash(AllEntries(edges), view, trigger)
    ensures !ClashesAt(edges, view, trigger, j)
  {
    hide StandsFor, PyEq;
    if j < |edges| {
      EntriesOfPrefix(edges, j + 1);
      var all, some := AllEntries(edges), AllEntries(edges[..j + 1]);
      assert forall i :: 0 <= i < |some| ==> some[i] == all[i];
    }
  }

  lemma {:induction false} EntriesOfPrefix(edges: seq<InEdge>, j: nat)
    requires j <= |edges|
    ensures AllEntries(edges[..j]) <= AllEntries(edges)
    decreases |edges|
  {
    if j == |edges| {
      assert edges[..j] == edges;
    } else {
      var n := |edges| - 1;
      assert edges[..n][..j] == edges[..j];
      EntriesOfPrefix(edges[..n], j);
    }
  }

  /** Something of edge m's mapping does not resolve, so it does not in all of them together. */
  lemma UnresolvedInside(edges: seq<InEdge>, view: Snapshot, trigger: Node, m: nat)
    requires m < |edges| && !Resolvable(edges[m].mapping, view, trigger)
    ensures !Resolvable(AllEntries(edges), view, trigger)
  {
    hide HasValue;
    EntriesOfPrefix(edges, m + 1);
    assert edges[..m + 1][..m] == edges[..m];
    var all, some := AllEntries(edges), AllEntries(edges[..m + 1]);
    var own := edges[m].mapping;
    assert some == AllEntries(edges[..m]) + own;
    var i :| 0 <= i < |own| && !HasValue(own[i].1, view, trigger);
    assert all[|AllEntries(edges[..m])| + i] == own[i];
  }

  /** What stops the merge at one edge leaves no room for the other kind of failure. */
  lemma RaiseExcludesClash(edges: seq<InEdge>, view: Snapshot, trigger: Node, m: nat, j: nat)
    requires RaisesAt(edges, view, trigger, m)
    ensures !ClashesAt(edges, view, trigger, j)
  {
    hide Resolvable, Clash;
    if j < |edges| {
      if m <= j {
        assert edges[..j + 1][m] == edges[m];
        UnresolvedInside(edges[..j + 1], view, trigger, m);
      } else {
        NoClashInside(edges[..m], view, trigger, j);
        assert edges[..m][..j + 1] == edges[..j + 1] && edges[..m][..j] == edges[..j];
      }
    }
  }

  /** The merge reports a conflict if and only if, edge by edge, it meets a clash first; it raises if and only if it
      meets an entry that does not resolve first. */
  lemma MergeFailsIff(edges: seq<InEdge>, view: Snapshot, trigger: Node)
    ensures MergeEdges(edges, view, trigger).Conflict? <==> exists j: nat :: ClashesAt(edges, view, trigger, j)
    ensures MergeEdges(edges, view, trigger).MergeRaises? <==> exists j: nat :: RaisesAt(edges, view, trigger, j)
  {
    hide MergeEdges, ClashesAt, RaisesAt, Resolvable, Clash, MergesTo;
    MergeMeans(edges, view, trigger);
    if m: nat :| RaisesAt(edges, view, trigger, m) {
      RaisedIsUnresolved(edges, view, trigger, m);
      forall j: nat ensures !ClashesAt(edges, view, trigger, j) { RaiseExcludesClash(edges, view, trigger, m, j); }
    }
    if !Clash(AllEntries(edges), view, trigger) {
      forall j: nat ensures !ClashesAt(edges, view, trigger, j) { NoClashInside(edges, view, trigger, j); }
    }
  }

  lemma RaisedIsUnresolved(edges: seq<InEdge>, view: Snapshot, trigger: Node, m: nat)
    requires RaisesAt(edges, view, trigger, m)
    ensures !Resolvable(AllEntries(edges), view, trigger)
  {
    UnresolvedInside(edges, view, trigger, m);
  }
}
