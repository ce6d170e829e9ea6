/** The hash chain of one run's audit rows: verification, what a head hash binds, checkpoints. */
module AuditChain {
  import opened Wrappers
  import opened Json

  /** The digest of a canonical JSON document; all that is ever assumed of it is that it does not collide on
      the documents two given chains hash. */
  type Digest = Json -> string

  ghost predicate CollisionFree(sha: Digest, docs: set<Json>) {
    forall x, y :: x in docs && y in docs && sha(x) == sha(y) ==> x == y
  }

  /** The hashed columns that only describe the event. */
  datatype Details = Details(eventType: string, occurredAt: string, runId: string, processName: string,
                             processVersion: Option<string>, processHash: Option<string>,
                             nodeId: Option<string>, nodeType: Option<string>, actorId: Option<string>,
                             policyId: Option<string>, correlationId: Option<string>, externalRef: Option<string>,
                             traceId: Option<string>, spanId: Option<string>)

  /** A stored row. The actor's type is a column but not among the hashed fields. */
  datatype Row = Row(sequenceId: int, chainScope: string, chainId: string, eventId: string, details: Details,
                     actorType: Option<string>, payload: Json, payloadSha: string,
                     previousHash: Option<string>, eventHash: string)

  function Nullable(s: Option<string>): Json {
    match s case None => Null case Some(x) => Str(x)
  }

  /** compute_audit_event_hash: the document whose digest is the row's hash. */
  function HashedFields(r: Row): Json {
    Obj(ChainFields(r) + EventFields(r.details) + ContextFields(r.details))
  }

  function ChainFields(r: Row): map<string, Json> {
    map[
      "previous_hash" := Nullable(r.previousHash),
      "chain_scope" := Str(r.chainScope),
      "chain_id" := Str(r.chainId),
      "sequence_id" := Num(r.sequenceId as real),
      "event_id" := Str(r.eventId),
      "payload_sha256" := Str(r.payloadSha)
    ]
  }

  function EventFields(d: Details): map<string, Json> {
    map[
      "event_type" := Str(d.eventType),
      "occurred_at" := Str(d.occurredAt),
      "run_id" := Str(d.runId),
      "process_name" := Str(d.processName),
      "process_version" := Nullable(d.processVersion),
      "process_hash" := Nullable(d.processHash),
      "node_id" := Nullable(d.nodeId)
    ]
  }

  function ContextFields(d: Details): map<string, Json> {
    map[
      "node_type" := Nullable(d.nodeType),
      "actor_id" := Nullable(d.actorId),
      "policy_id" := Nullable(d.policyId),
      "correlation_id" := Nullable(d.correlationId),
      "external_ref" := Nullable(d.externalRef),
      "trace_id" := Nullable(d.traceId),
      "span_id" := Nullable(d.spanId)
    ]
  }

  /** Every document digested for some row. */
  ghost function Documents(rows: seq<Row>): set<Json> {
    (set r | r in rows :: HashedFields(r)) + (set r | r in rows :: OrEmpty(r.payload))
  }

  lemma PrefixDocuments(rows: seq<Row>, n: nat)
    requires n <= |rows|
    ensures Documents(rows[..n]) <= Documents(rows)
  {
    forall d | d in Documents(rows[..n]) ensures d in Documents(rows) {
      var r :| r in rows[..n] && (d == HashedFields(r) || d == OrEmpty(r.payload));
      assert r in rows;
    }
  }

  lemma MemberDocuments(rows: seq<Row>, i: nat)
    requires i < |rows|
    ensures Documents([rows[i]]) <= Documents(rows)
  {
    forall d | d in Documents([rows[i]]) ensures d in Documents(rows) {
      var r :| r in [rows[i]] && (d == HashedFields(r) || d == OrEmpty(r.payload));
      assert r in rows;
    }
  }

  /** Agreement on every hashed column. */
  predicate SameHashed(a: Row, b: Row) {
    && a.previousHash == b.previousHash && a.chainScope == b.chainScope && a.chainId == b.chainId
    && a.sequenceId == b.sequenceId && a.eventId == b.eventId && a.details == b.details && a.payloadSha == b.payloadSha
  }

  lemma ChainFieldsDetermine(a: Row, b: Row)
    requires ChainFields(a) == ChainFields(b)
    ensures a.previousHash == b.previousHash && a.chainScope == b.chainScope && a.chainId == b.chainId
    ensures a.sequenceId == b.sequenceId && a.eventId == b.eventId && a.payloadSha == b.payloadSha
  {
    var x, y := ChainFields(a), ChainFields(b);
    assert x["previous_hash"] == y["previous_hash"];
    assert x["chain_scope"] == y["chain_scope"];
    assert x["chain_id"] == y["chain_id"];
    assert x["sequence_id"] == y["sequence_id"];
    assert x["event_id"] == y["event_id"];
    assert x["payload_sha256"] == y["payload_sha256"];
  }

  lemma EventFieldsDetermine(d: Details, e: Details)
    requires EventFields(d) == EventFields(e)
    ensures d.eventType == e.eventType && d.occurredAt == e.occurredAt && d.runId == e.runId
      && d.processName == e.processName
    ensures d.processVersion == e.processVersion && d.processHash == e.processHash && d.nodeId == e.nodeId
  {
    var x, y := EventFields(d), EventFields(e);
    assert x["event_type"] == y["event_type"];
    assert x["occurred_at"] == y["occurred_at"];
    assert x["run_id"] == y["run_id"];
    assert x["process_name"] == y["process_name"];
    assert x["process_version"] == y["process_version"];
    assert x["process_hash"] == y["process_hash"];
    assert x["node_id"] == y["node_id"];
  }

  lemma ContextFieldsDetermine(d: Details, e: Details)
    requires ContextFields(d) == ContextFields(e)
    ensures d.nodeType == e.nodeType && d.actorId == e.actorId && d.policyId == e.policyId
    ensures d.correlationId == e.correlationId && d.externalRef == e.externalRef && d.traceId == e.traceId
      && d.spanId == e.spanId
  {
    var x, y := ContextFields(d), ContextFields(e);
    assert x["node_type"] == y["node_type"];
    assert x["actor_id"] == y["actor_id"];
    assert x["policy_id"] == y["policy_id"];
    assert x["correlation_id"] == y["correlation_id"];
    assert x["external_ref"] == y["external_ref"];
    assert x["trace_id"] == y["trace_id"];
    assert x["span_id"] == y["span_id"];
  }

  lemma JoinedMaps(a1: map<string, Json>, b1: map<string, Json>, a2: map<string, Json>, b2: map<string, Json>)
    requires a1.Keys == a2.Keys && b1.Keys == b2.Keys && a1.Keys !! b1.Keys && a1 + b1 == a2 + b2
    ensures a1 == a2 && b1 == b2
  {
    forall k | k in a1 ensures a1[k] == a2[k] { assert (a1 + b1)[k] == (a2 + b2)[k]; }
    forall k | k in b1 ensures b1[k] == b2[k] { assert (a1 + b1)[k] == (a2 + b2)[k]; }
  }

  lemma FieldNames(r: Row, d: Details)
    ensures ChainFields(r).Keys
      == {"previous_hash", "chain_scope", "chain_id", "sequence_id", "event_id", "payload_sha256"}
    ensures EventFields(d).Keys
      == {"event_type", "occurred_at", "run_id", "process_name", "process_version", "process_hash", "node_id"}
    ensures ContextFields(d).Keys
      == {"node_type", "actor_id", "policy_id", "correlation_id", "external_ref", "trace_id", "span_id"}
  {
  }

  lemma FieldNamesDiffer()
    ensures {"previous_hash", "chain_scope", "chain_id", "sequence_id", "event_id", "payload_sha256"}
         !! {"event_type", "occurred_at", "run_id", "process_name", "process_version", "process_hash", "node_id"}
         !! {"node_type", "actor_id", "policy_id", "correlation_id", "external_ref", "trace_id", "span_id"}
  {
  }

  /** The hashed document determines every hashed column. */
  lemma HashedFieldsDetermine(a: Row, b: Row)
    ensures HashedFields(a) == HashedFields(b) <==> SameHashed(a, b)
  {
    hide ChainFields, EventFields, ContextFields;
    if HashedFields(a) == HashedFields(b) {
      FieldNames(a, a.details);
      FieldNames(b, b.details);
      FieldNamesDiffer();
      var d, e := a.details, b.details;
      JoinedMaps(ChainFields(a) + EventFields(d), ContextFields(d), ChainFields(b) + EventFields(e), ContextFields(e));
      JoinedMaps(ChainFields(a), EventFields(d), ChainFields(b), EventFields(e));
      ChainFieldsDetermine(a, b);
      EventFieldsDetermine(d, e);
      ContextFieldsDetermine(d, e);
    }
    if SameHashed(a, b) {
      SameColumnsSameFields(a, b);
    }
  }

  lemma SameColumnsSameFields(a: Row, b: Row)
    requires SameHashed(a, b)
    ensures HashedFields(a) == HashedFields(b)
  {
    hide EventFields, ContextFields;
    assert ChainFields(a) == ChainFields(b);
  }

  /** `payload or {}`. */
  function OrEmpty(payload: Json): Json {
    if Truthy(payload) then payload else Obj(map[])
  }

  // ------------------------------------------------------------------ one row, one chain

  datatype Fault = MixedChains | WrongPrevious | WrongPayload | WrongHash

  /** The first check a row fails after a row with hash prev, if any. */
  function FaultOf(sha: Digest, r: Row, prev: Option<string>, scope: string, id: string): Option<Fault> {
    if r.chainScope != scope || r.chainId != id then Some(MixedChains)
    else if r.previousHash != prev then Some(WrongPrevious)
    else if r.payloadSha != sha(OrEmpty(r.payload)) then Some(WrongPayload)
    else if r.eventHash != sha(HashedFields(r)) then Some(WrongHash)
    else None
  }

  /** What row i must name as its predecessor's hash. */
  function PreviousOf(rows: seq<Row>, prev: Option<string>, i: nat): Option<string>
    requires i <= |rows|
  {
    if i == 0 then prev else Some(rows[i - 1].eventHash)
  }

  /** The rows are intact and each names its predecessor's hash, the first one prev. */
  ghost predicate Links(sha: Digest, rows: seq<Row>, prev: Option<string>, scope: string, id: string) {
    forall i :: 0 <= i < |rows| ==> FaultOf(sha, rows[i], PreviousOf(rows, prev, i), scope, id).None?
  }

  /** The rows before i are intact and linked, row i is not, for this reason first. */
  ghost predicate BreaksAt(sha: Digest, rows: seq<Row>, prev: Option<string>, scope: string, id: string, i: nat,
                           fault: Fault)
  {
    && i < |rows| && Links(sha, rows[..i], prev, scope, id)
    && FaultOf(sha, rows[i], PreviousOf(rows, prev, i), scope, id) == Some(fault)
  }

  ghost predicate Ascending(rows: seq<Row>) {
    forall i, j :: 0 <= i < j < |rows| ==> rows[i].sequenceId < rows[j].sequenceId
  }

  function Insert(r: Row, rows: seq<Row>): seq<Row> {
    if rows == [] || rows[|rows| - 1].sequenceId <= r.sequenceId then rows + [r]
    else Insert(r, rows[..|rows| - 1]) + [rows[|rows| - 1]]
  }

  lemma {:induction false} InsertKeeps(r: Row, rows: seq<Row>)
    ensures multiset(Insert(r, rows)) == multiset(rows) + multiset{r}
  {
    if rows != [] && rows[|rows| - 1].sequenceId > r.sequenceId {
      var n := |rows| - 1;
      InsertKeeps(r, rows[..n]);
      assert rows == rows[..n] + [rows[n]];
    }
  }

  /** sorted(rows, key=sequence_id), a stable sort. */
  function BySequence(rows: seq<Row>): seq<Row> {
    if rows == [] then [] else Insert(rows[|rows| - 1], BySequence(rows[..|rows| - 1]))
  }

  lemma {:induction false} SortKeeps(rows: seq<Row>)
    ensures multiset(BySequence(rows)) == multiset(rows)
  {
    hide Insert;
    if rows == [] {
    } else {
      var n := |rows| - 1;
      SortKeeps(rows[..n]);
      InsertKeeps(rows[n], BySequence(rows[..n]));
      assert rows == rows[..n] + [rows[n]];
    }
  }

  lemma AscendingPrefix(rows: seq<Row>)
    requires Ascending(rows) && rows != []
    ensures Ascending(rows[..|rows| - 1]) && (|rows| > 1 ==> rows[|rows| - 2].sequenceId <= rows[|rows| - 1].sequenceId)
  {
  }

  lemma {:induction false} SortedIsUnchanged(rows: seq<Row>)
    requires Ascending(rows)
    ensures BySequence(rows) == rows
  {
    if rows == [] {
    } else {
      hide Insert, Ascending;
      var n := |rows| - 1;
      AscendingPrefix(rows);
      SortedIsUnchanged(rows[..n]);
      InsertLast(rows[n], rows[..n]);
      assert rows == rows[..n] + [rows[n]];
    }
  }

  lemma InsertLast(r: Row, rows: seq<Row>)
    requires rows == [] || rows[|rows| - 1].sequenceId <= r.sequenceId
    ensures Insert(r, rows) == rows + [r]
  {
  }

  ghost predicate DistinctIds(rows: seq<Row>) {
    forall i, j :: 0 <= i < j < |rows| ==> rows[i].sequenceId != rows[j].sequenceId
  }

  lemma SameMembers(s: seq<Row>, t: seq<Row>)
    requires multiset(s) == multiset(t)
    ensures |s| == |t| && forall x :: x in s <==> x in t
  {
    assert |multiset(s)| == |multiset(t)|;
    assert forall x :: x in s <==> x in multiset(s);
    assert forall x :: x in t <==> x in multiset(t);
  }

  lemma SortKeepsSize(rows: seq<Row>)
    ensures |BySequence(rows)| == |rows|
  {
    SortKeeps(rows);
    SameMembers(BySequence(rows), rows);
  }

  lemma AppendAscends(rows: seq<Row>, r: Row)
    requires Ascending(rows) && (rows != [] ==> rows[|rows| - 1].sequenceId < r.sequenceId)
    ensures Ascending(rows + [r])
  {
  }

  lemma {:induction false} InsertAscends(r: Row, rows: seq<Row>)
    requires Ascending(rows) && forall i :: 0 <= i < |rows| ==> rows[i].sequenceId != r.sequenceId
    ensures Ascending(Insert(r, rows))
  {
    if rows == [] || rows[|rows| - 1].sequenceId <= r.sequenceId {
      AppendAscends(rows, r);
    } else {
      var n := |rows| - 1;
      InsertAscends(r, rows[..n]);
      InsertedAreBelow(r, rows);
      var s := Insert(r, rows[..n]);
      if s != [] { assert s[|s| - 1] in s; }
      hide Ascending;
      AppendAscends(s, rows[n]);
    }
  }

  lemma InsertedAreBelow(r: Row, rows: seq<Row>)
    requires Ascending(rows) && rows != [] && r.sequenceId < rows[|rows| - 1].sequenceId
    ensures forall x :: x in Insert(r, rows[..|rows| - 1]) ==> x.sequenceId < rows[|rows| - 1].sequenceId
  {
    hide Insert;
    var n := |rows| - 1;
    var s := Insert(r, rows[..n]);
    InsertKeeps(r, rows[..n]);
    SameMembers(s, rows[..n] + [r]);
    forall x | x in s ensures x.sequenceId < rows[n].sequenceId { assert x in rows[..n] + [r]; }
  }

  /** With distinct sequence ids the sort is strictly ascending and keeps exactly the given rows. */
  lemma {:induction false} SortAscends(rows: seq<Row>)
    requires DistinctIds(rows)
    ensures Ascending(BySequence(rows)) && |BySequence(rows)| == |rows|
    ensures forall x :: x in BySequence(rows) <==> x in rows
  {
    hide Insert;
    SortKeeps(rows);
    SameMembers(BySequence(rows), rows);
    if rows == [] {
    } else {
      var n := |rows| - 1;
      SortAscends(rows[..n]);
      OthersDiffer(rows, BySequence(rows[..n]));
      InsertAscends(rows[n], BySequence(rows[..n]));
    }
  }

  lemma OthersDiffer(rows: seq<Row>, others: seq<Row>)
    requires DistinctIds(rows) && rows != []
    requires forall x :: x in others <==> x in rows[..|rows| - 1]
    ensures forall i :: 0 <= i < |others| ==> others[i].sequenceId != rows[|rows| - 1].sequenceId
  {
    var n := |rows| - 1;
    forall i | 0 <= i < |others| ensures others[i].sequenceId != rows[n].sequenceId {
      assert others[i] in others;
      assert others[i] in rows[..n];
      var j :| 0 <= j < n && rows[..n][j] == others[i];
      assert rows[j].sequenceId != rows[n].sequenceId;
    }
  }

  // ------------------------------------------------------------------ verification

  datatype Checkpoint = Checkpoint(scope: string, lastSequenceId: int, chainHeadHash: string,
                                   anchoredRef: Option<string>)

  /** An empty reference anchors nothing. */
  predicate IsAnchor(ref: Option<string>) { ref.Some? && ref.value != "" }

  datatype Message = NoRows | SignatureMismatch | AnchorMissing | Verified | VerifiedFromCheckpoint
    | Broken(fault: Fault)

  datatype Verification = Verification(ok: bool, checked: nat, mismatch: Option<int>, message: Message)

  function After(rows: seq<Row>, last: int): seq<Row> {
    if rows == [] then []
    else
      After(rows[..|rows| - 1], last) + (if rows[|rows| - 1].sequenceId > last then [rows[|rows| - 1]] else [])
  }

  /** What verification is to decide about a set of rows, optionally from a checkpoint onwards. */
  ghost predicate Verifies(sha: Digest, rows: seq<Row>, checkpoint: Option<Checkpoint>, signed: bool,
                           requireAnchor: bool)
  {
    var ordered := BySequence(rows);
    ordered == []
    || match checkpoint
       case None => Links(sha, ordered, None, ordered[0].chainScope, ordered[0].chainId)
       case Some(c) =>
         signed && (requireAnchor ==> IsAnchor(c.anchoredRef))
         && Links(sha, After(ordered, c.lastSequenceId), Some(c.chainHeadHash), ordered[0].chainScope,
                  ordered[0].chainId)
  }

  lemma LinksSoFar(sha: Digest, rows: seq<Row>, prev: Option<string>, scope: string, id: string, n: nat)
    requires n <= |rows| && forall k :: 0 <= k < n ==> FaultOf(sha, rows[k], PreviousOf(rows, prev, k), scope, id).None?
    ensures Links(sha, rows[..n], prev, scope, id)
  {
    hide FaultOf;
    forall k | 0 <= k < n ensures PreviousOf(rows[..n], prev, k) == PreviousOf(rows, prev, k) {}
  }

  /** verify_audit_chain. `signed` is the outcome of the checkpoint's signature check. A checkpoint that is not
      signed, or lacks a required anchor, is refused before any row is looked at; otherwise a failure names the
      first row that does not verify and the first check it fails. */
  method VerifyChain(sha: Digest, rows: seq<Row>, checkpoint: Option<Checkpoint>, signed: bool, requireAnchor: bool)
    returns (v: Verification)
    ensures v.ok <==> Verifies(sha, rows, checkpoint, signed, requireAnchor)
    ensures rows == [] ==> v == Verification(true, 0, None, NoRows)
    ensures v.message == SignatureMismatch <==> rows != [] && checkpoint.Some? && !signed
    ensures v.message == AnchorMissing <==>
      rows != [] && checkpoint.Some? && signed && requireAnchor && !IsAnchor(checkpoint.value.anchoredRef)
    ensures v.ok <==> v.message.NoRows? || v.message.Verified? || v.message.VerifiedFromCheckpoint?
    ensures v.message == Verified ==> checkpoint.None? && v.checked == |rows|
    ensures v.message == VerifiedFromCheckpoint ==>
      checkpoint.Some? && v.checked == |After(BySequence(rows), checkpoint.value.lastSequenceId)|
    ensures v.message.Broken? ==>
      var all := BySequence(rows);
      var chain := if checkpoint.None? then all else After(all, checkpoint.value.lastSequenceId);
      var prev := if checkpoint.None? then None else Some(checkpoint.value.chainHeadHash);
      && BreaksAt(sha, chain, prev, all[0].chainScope, all[0].chainId, v.checked, v.message.fault)
      && v.mismatch == Some(chain[v.checked].sequenceId)
  {
    SortKeepsSize(rows);
    hide FaultOf, BySequence, After;
    var ordered := BySequence(rows);
    if ordered == [] {
      return Verification(true, 0, None, NoRows);
    }
    var scope, id := ordered[0].chainScope, ordered[0].chainId;
    var previous: Option<string> := None;
    var success := Verified;
    if checkpoint.Some? {
      if !signed {
        return Verification(false, 0, None, SignatureMismatch);
      }
      if requireAnchor && !IsAnchor(checkpoint.value.anchoredRef) {
        return Verification(false, 0, None, AnchorMissing);
      }
      previous, success := Some(checkpoint.value.chainHeadHash), VerifiedFromCheckpoint;
      ordered := After(ordered, checkpoint.value.lastSequenceId);
    }
    ghost var prev := previous;
    for i := 0 to |ordered|
      invariant previous == PreviousOf(ordered, prev, i)
      invariant forall k :: 0 <= k < i ==> FaultOf(sha, ordered[k], PreviousOf(ordered, prev, k), scope, id).None?
    {
      var fault := FaultOf(sha, ordered[i], previous, scope, id);
      if fault.Some? {
        LinksSoFar(sha, ordered, prev, scope, id, i);
        return Verification(false, i, Some(ordered[i].sequenceId), Broken(fault.value));
      }
      previous := Some(ordered[i].eventHash);
    }
    return Verification(true, |ordered|, None, success);
  }

  // ------------------------------------------------------------------ what the head hash binds

  ghost predicate LinksFromStart(sha: Digest, rows: seq<Row>) {
    rows != [] && Links(sha, rows, None, rows[0].chainScope, rows[0].chainId)
  }

  /** Agreement on the hashed columns, the hash itself and the payload (null and empty payloads count as
      the same). */
  predicate SameRow(a: Row, b: Row) {
    SameHashed(a, b) && OrEmpty(a.payload) == OrEmpty(b.payload) && a.eventHash == b.eventHash
  }

  ghost predicate SameLedger(a: seq<Row>, b: seq<Row>) {
    |a| == |b| && forall i :: 0 <= i < |a| ==> SameRow(a[i], b[i])
  }

  lemma LinksPrefix(sha: Digest, rows: seq<Row>, prev: Option<string>, scope: string, id: string, n: nat)
    requires Links(sha, rows, prev, scope, id) && n <= |rows|
    ensures Links(sha, rows[..n], prev, scope, id)
  {
    forall i | 0 <= i < n ensures FaultOf(sha, rows[..n][i], PreviousOf(rows[..n], prev, i), scope, id).None? {
      assert FaultOf(sha, rows[i], PreviousOf(rows, prev, i), scope, id).None?;
    }
  }

  /** Intact rows with equal hashes have equal content. */
  lemma HashBindsRow(sha: Digest, a: Row, b: Row, p: Option<string>, q: Option<string>, s: string, t: string,
                     i: string, j: string)
    requires CollisionFree(sha, Documents([a]) + Documents([b]))
    requires FaultOf(sha, a, p, s, i).None? && FaultOf(sha, b, q, t, j).None? && a.eventHash == b.eventHash
    ensures SameRow(a, b) && p == q
  {
    hide HashedFields, OrEmpty;
    assert a in [a] && b in [b];
    HashedFieldsDetermine(a, b);
  }

  lemma FewerDocuments(sha: Digest, small: set<Json>, docs: set<Json>)
    requires CollisionFree(sha, docs) && small <= docs
    ensures CollisionFree(sha, small)
  {
  }

  lemma LastRowsAgree(sha: Digest, a: seq<Row>, b: seq<Row>)
    requires CollisionFree(sha, Documents(a) + Documents(b)) && LinksFromStart(sha, a) && LinksFromStart(sha, b)
    requires a[|a| - 1].eventHash == b[|b| - 1].eventHash
    ensures SameRow(a[|a| - 1], b[|b| - 1]) && PreviousOf(a, None, |a| - 1) == PreviousOf(b, None, |b| - 1)
  {
    hide FaultOf, SameRow, Documents, CollisionFree;
    var m, n := |a| - 1, |b| - 1;
    MemberDocuments(a, m);
    MemberDocuments(b, n);
    FewerDocuments(sha, Documents([a[m]]) + Documents([b[n]]), Documents(a) + Documents(b));
    HashBindsRow(sha, a[m], b[n], PreviousOf(a, None, m), PreviousOf(b, None, n),
                 a[0].chainScope, b[0].chainScope, a[0].chainId, b[0].chainId);
  }

  /** Two verified chains with the same head hash are the same ledger: nothing was inserted, dropped,
      reordered or altered in a hashed column or a payload. */
  lemma {:induction false} HeadBindsChain(sha: Digest, a: seq<Row>, b: seq<Row>)
    requires CollisionFree(sha, Documents(a) + Documents(b)) && LinksFromStart(sha, a) && LinksFromStart(sha, b)
    requires a[|a| - 1].eventHash == b[|b| - 1].eventHash
    ensures SameLedger(a, b)
    decreases |a|
  {
    hide FaultOf, SameRow, Documents, CollisionFree, Links;
    var m, n := |a| - 1, |b| - 1;
    LastRowsAgree(sha, a, b);
    if m == 0 {
    } else {
      assert n > 0 && a[m - 1].eventHash == b[n - 1].eventHash;
      PrefixDocuments(a, m);
      PrefixDocuments(b, n);
      FewerDocuments(sha, Documents(a[..m]) + Documents(b[..n]), Documents(a) + Documents(b));
      LinksPrefix(sha, a, None, a[0].chainScope, a[0].chainId, m);
      LinksPrefix(sha, b, None, b[0].chainScope, b[0].chainId, n);
      HeadBindsChain(sha, a[..m], b[..n]);
      forall i | 0 <= i < m ensures SameRow(a[i], b[i]) {
        assert a[..m][i] == a[i] && b[..n][i] == b[i];
      }
    }
  }

  /** The converse: the head hash covers nothing else. A chain that agrees with a verified one on the
      hashed columns, hashes and payloads verifies too; the actor type is free. */
  lemma OnlyHashedColumnsMatter(sha: Digest, a: seq<Row>, b: seq<Row>)
    requires LinksFromStart(sha, a) && SameLedger(a, b)
    ensures LinksFromStart(sha, b) && a[|a| - 1].eventHash == b[|b| - 1].eventHash
  {
    hide FaultOf, SameRow;
    SameRowFacts(a[0], b[0]);
    SameRowFacts(a[|a| - 1], b[|b| - 1]);
    forall i | 0 <= i < |b| ensures FaultOf(sha, b[i], PreviousOf(b, None, i), b[0].chainScope, b[0].chainId).None? {
      assert FaultOf(sha, a[i], PreviousOf(a, None, i), a[0].chainScope, a[0].chainId).None?;
      assert SameRow(a[i], b[i]);
      if i > 0 { SameRowFacts(a[i - 1], b[i - 1]); }
      SameRowVerifies(sha, a[i], b[i], PreviousOf(a, None, i), a[0].chainScope, a[0].chainId);
    }
  }

  lemma SameRowFacts(a: Row, b: Row)
    ensures SameRow(a, b) ==> a.eventHash == b.eventHash && a.chainScope == b.chainScope && a.chainId == b.chainId
  {
  }

  lemma SameRowVerifies(sha: Digest, a: Row, b: Row, prev: Option<string>, scope: string, id: string)
    requires SameRow(a, b)
    ensures FaultOf(sha, a, prev, scope, id) == FaultOf(sha, b, prev, scope, id)
  {
    hide HashedFields;
    HashedFieldsDetermine(a, b);
  }

  // ------------------------------------------------------------------ checkpoints

  lemma {:induction false} AfterIs(rows: seq<Row>, k: nat)
    requires Ascending(rows) && k < |rows|
    ensures After(rows, rows[k].sequenceId) == rows[k + 1..]
    decreases |rows|
  {
    var n := |rows| - 1;
    if k < n {
      AfterIs(rows[..n], k);
      assert rows[k + 1..] == rows[..n][k + 1..] + [rows[n]];
    } else {
      NothingAfter(rows[..n], rows[k].sequenceId);
      assert rows[k + 1..] == [];
    }
  }

  lemma {:induction false} NothingAfter(rows: seq<Row>, last: int)
    requires forall i :: 0 <= i < |rows| ==> rows[i].sequenceId <= last
    ensures After(rows, last) == []
  {
    if rows == [] {
    } else {
      NothingAfter(rows[..|rows| - 1], last);
    }
  }

  lemma LinksSplit(sha: Digest, rows: seq<Row>, prev: Option<string>, scope: string, id: string, k: nat)
    requires k < |rows|
    ensures Links(sha, rows, prev, scope, id) <==>
      Links(sha, rows[..k + 1], prev, scope, id) && Links(sha, rows[k + 1..], Some(rows[k].eventHash), scope, id)
  {
    hide FaultOf;
    var head, tail := rows[..k + 1], rows[k + 1..];
    forall i | 0 <= i <= k ensures PreviousOf(head, prev, i) == PreviousOf(rows, prev, i) {}
    forall i | 0 <= i < |tail|
      ensures PreviousOf(tail, Some(rows[k].eventHash), i) == PreviousOf(rows, prev, k + 1 + i) {}
    forall i | k < i < |rows| ensures rows[i] == tail[i - k - 1] {}
    if Links(sha, rows, prev, scope, id) {
      forall i | 0 <= i < |tail|
        ensures FaultOf(sha, tail[i], PreviousOf(tail, Some(rows[k].eventHash), i), scope, id).None?
      {
        assert FaultOf(sha, rows[k + 1 + i], PreviousOf(rows, prev, k + 1 + i), scope, id).None?;
      }
      forall i | 0 <= i < |head| ensures FaultOf(sha, head[i], PreviousOf(head, prev, i), scope, id).None? {
        assert FaultOf(sha, rows[i], PreviousOf(rows, prev, i), scope, id).None?;
      }
    }
    if Links(sha, head, prev, scope, id) && Links(sha, tail, Some(rows[k].eventHash), scope, id) {
      forall i | 0 <= i < |rows| ensures FaultOf(sha, rows[i], PreviousOf(rows, prev, i), scope, id).None? {
        if i <= k {
          assert FaultOf(sha, head[i], PreviousOf(head, prev, i), scope, id).None?;
        } else {
          assert FaultOf(sha, tail[i - k - 1], PreviousOf(tail, Some(rows[k].eventHash), i - k - 1), scope, id).None?;
        }
      }
    }
  }

  /** The checkpoint over row k of an ordered chain. */
  function CheckpointAt(rows: seq<Row>, k: nat, scope: string, anchor: Option<string>): Checkpoint
    requires k < |rows|
  {
    Checkpoint(scope, rows[k].sequenceId, rows[k].eventHash, anchor)
  }

  /** A chain with distinct sequence ids, presented in any order, verifies as a whole exactly when its rows
      up to a checkpointed row verify and the whole verifies from that checkpoint. */
  lemma CheckpointsCompose(sha: Digest, rows: seq<Row>, k: nat, scope: string, anchor: Option<string>,
                           requireAnchor: bool)
    requires DistinctIds(rows) && k < |BySequence(rows)| && (requireAnchor ==> IsAnchor(anchor))
    ensures var ordered := BySequence(rows);
      Verifies(sha, rows, None, true, requireAnchor) <==>
        (Verifies(sha, ordered[..k + 1], None, true, requireAnchor)
         && Verifies(sha, rows, Some(CheckpointAt(ordered, k, scope, anchor)), true, requireAnchor))
  {
    hide Links;
    var ordered := BySequence(rows);
    SortAscends(rows);
    AfterIs(ordered, k);
    SortedIsUnchanged(ordered[..k + 1]);
    LinksSplit(sha, ordered, None, ordered[0].chainScope, ordered[0].chainId, k);
    assert ordered[..k + 1][0] == ordered[0];
  }
}
