/** What verification says of a run's chain after one thing in it was changed. */
module AuditTampering {
  import opened Wrappers
  import opened AuditChain

  /** The rows as read in sequence order, and the first one that does not verify. */
  ghost predicate FoundAt(sha: Digest, rows: seq<Row>, i: nat, fault: Fault) {
    rows != [] && BreaksAt(sha, rows, None, rows[0].chainScope, rows[0].chainId, i, fault)
  }

  /** There is at most one first fault, and none in a chain that verifies. */
  lemma FoundOnce(sha: Digest, rows: seq<Row>, i: nat, f: Fault, j: nat, g: Fault)
    requires FoundAt(sha, rows, i, f)
    ensures FoundAt(sha, rows, j, g) ==> i == j && f == g
    ensures !LinksFromStart(sha, rows)
  {
    hide FaultOf;
    RowAt(sha, rows, i);
    if FoundAt(sha, rows, j, g) {
      if j < i {
        LaterBreak(sha, rows, i, j);
      } else if i < j {
        LaterBreak(sha, rows, j, i);
      }
    }
  }

  lemma LaterBreak(sha: Digest, rows: seq<Row>, i: nat, j: nat)
    requires j < i <= |rows| && Links(sha, rows[..i], None, rows[0].chainScope, rows[0].chainId)
    ensures FaultOf(sha, rows[j], PreviousOf(rows, None, j), rows[0].chainScope, rows[0].chainId).None?
  {
    hide FaultOf;
    assert rows[..i][j] == rows[j] && PreviousOf(rows[..i], None, j) == PreviousOf(rows, None, j);
  }

  /** A chain that verifies is one chain: every row has the first row's scope and id. */
  lemma VerifiedIsOneChain(sha: Digest, rows: seq<Row>)
    requires LinksFromStart(sha, rows)
    ensures forall r :: r in rows ==> r.chainScope == rows[0].chainScope && r.chainId == rows[0].chainId
    ensures forall r :: r in rows ==> r.payloadSha == sha(OrEmpty(r.payload)) && r.eventHash == sha(HashedFields(r))
    ensures forall i :: 0 <= i < |rows| ==>
      rows[i].previousHash == if i == 0 then None else Some(rows[i - 1].eventHash)
  {
    hide HashedFields;
    forall r | r in rows
      ensures r.chainScope == rows[0].chainScope && r.chainId == rows[0].chainId
      ensures r.payloadSha == sha(OrEmpty(r.payload)) && r.eventHash == sha(HashedFields(r))
    {
      var i :| 0 <= i < |rows| && rows[i] == r;
      assert FaultOf(sha, rows[i], PreviousOf(rows, None, i), rows[0].chainScope, rows[0].chainId).None?;
    }
  }

  /** Rows that agree up to a point with a verified chain are intact up to there. */
  lemma SamePrefix(sha: Digest, rows: seq<Row>, bad: seq<Row>, i: nat)
    requires LinksFromStart(sha, rows) && i <= |rows| && i <= |bad| && bad[..i] == rows[..i] && bad != []
    requires bad[0].chainScope == rows[0].chainScope && bad[0].chainId == rows[0].chainId
    ensures Links(sha, bad[..i], None, bad[0].chainScope, bad[0].chainId)
    ensures PreviousOf(bad, None, i) == PreviousOf(rows, None, i)
  {
    hide FaultOf;
    LinksPrefix(sha, rows, None, rows[0].chainScope, rows[0].chainId, i);
    if i > 0 { assert bad[..i][i - 1] == rows[..i][i - 1]; }
  }

  /** The intact row at i. */
  lemma RowAt(sha: Digest, rows: seq<Row>, i: nat)
    requires i < |rows|
    ensures LinksFromStart(sha, rows) ==>
      FaultOf(sha, rows[i], PreviousOf(rows, None, i), rows[0].chainScope, rows[0].chainId).None?
  {
    hide FaultOf;
  }

  /** A payload with another digest is found at its row. */
  lemma AlteredPayloadIsFound(sha: Digest, rows: seq<Row>, i: nat, row: Row)
    requires LinksFromStart(sha, rows) && i < |rows| && row == rows[i].(payload := row.payload)
    requires sha(OrEmpty(row.payload)) != sha(OrEmpty(rows[i].payload))
    ensures FoundAt(sha, rows[i := row], i, WrongPayload)
  {
    hide Links, HashedFields;
    SamePrefix(sha, rows, rows[i := row], i);
    RowAt(sha, rows, i);
  }

  /** So is any change to a hashed column that leaves the row its chain, its predecessor, its digests and its
      payload. */
  lemma AlteredColumnIsFound(sha: Digest, rows: seq<Row>, i: nat, row: Row)
    requires LinksFromStart(sha, rows) && i < |rows| && !SameHashed(row, rows[i])
    requires row.chainScope == rows[i].chainScope && row.chainId == rows[i].chainId
    requires row.previousHash == rows[i].previousHash && row.payload == rows[i].payload
    requires row.payloadSha == rows[i].payloadSha && row.eventHash == rows[i].eventHash
    requires CollisionFree(sha, {HashedFields(row), HashedFields(rows[i])})
    ensures FoundAt(sha, rows[i := row], i, WrongHash)
  {
    hide Links, HashedFields, SameHashed;
    HashedFieldsDetermine(row, rows[i]);
    SamePrefix(sha, rows, rows[i := row], i);
    RowAt(sha, rows, i);
  }

  /** A row of another chain is found where it is put. */
  lemma ForeignRowIsFound(sha: Digest, rows: seq<Row>, i: nat, row: Row)
    requires LinksFromStart(sha, rows) && 0 < i <= |rows|
    requires row.chainScope != rows[0].chainScope || row.chainId != rows[0].chainId
    ensures FoundAt(sha, rows[..i] + [row] + rows[i..], i, MixedChains)
  {
    hide Links, HashedFields;
    var bad := rows[..i] + [row] + rows[i..];
    assert bad[..i] == rows[..i];
    SamePrefix(sha, rows, bad, i);
  }

  /** Any row of the same chain that does not name the hash of the row it is put behind is found there. */
  lemma UnlinkedRowIsFound(sha: Digest, rows: seq<Row>, i: nat, row: Row, rest: seq<Row>)
    requires LinksFromStart(sha, rows) && 0 < i <= |rows|
    requires row.chainScope == rows[0].chainScope && row.chainId == rows[0].chainId
    requires row.previousHash != Some(rows[i - 1].eventHash)
    ensures FoundAt(sha, rows[..i] + [row] + rest, i, WrongPrevious)
  {
    hide Links, HashedFields;
    var bad := rows[..i] + [row] + rest;
    assert bad[..i] == rows[..i];
    SamePrefix(sha, rows, bad, i);
  }

  /** A row that was removed is found at its successor. */
  lemma RemovedRowIsFound(sha: Digest, rows: seq<Row>, i: nat)
    requires LinksFromStart(sha, rows) && DistinctIds(rows) && i + 1 < |rows| && CollisionFree(sha, Documents(rows))
    ensures FoundAt(sha, rows[..i] + rows[i + 1..], i, WrongPrevious)
  {
    hide HashedFields, LinksFromStart, FoundAt, Documents, CollisionFree, DistinctIds, OrEmpty;
    VerifiedIsOneChain(sha, rows);
    assert rows[i + 1] in rows;
    if i == 0 {
      FirstRowRemoved(sha, rows);
    } else {
      DistinctHashes(sha, rows, i - 1, i);
      assert rows[..i] + rows[i + 1..] == rows[..i] + [rows[i + 1]] + rows[i + 2..];
      UnlinkedRowIsFound(sha, rows, i, rows[i + 1], rows[i + 2..]);
    }
  }

  lemma FirstRowRemoved(sha: Digest, rows: seq<Row>)
    requires LinksFromStart(sha, rows) && |rows| > 1
    ensures FoundAt(sha, rows[..0] + rows[1..], 0, WrongPrevious)
  {
    hide HashedFields;
    RowAt(sha, rows, 1);
    assert rows[..0] + rows[1..] == rows[1..];
  }

  lemma DistinctHashes(sha: Digest, rows: seq<Row>, i: nat, j: nat)
    requires LinksFromStart(sha, rows) && DistinctIds(rows) && i < j < |rows| && CollisionFree(sha, Documents(rows))
    ensures rows[i].eventHash != rows[j].eventHash
  {
    hide Links, HashedFields, LinksFromStart;
    VerifiedIsOneChain(sha, rows);
    assert rows[i] in rows && rows[j] in rows;
    HashedFieldsDetermine(rows[i], rows[j]);
    assert HashedFields(rows[i]) in Documents(rows) && HashedFields(rows[j]) in Documents(rows);
  }
}
