/** Many workers inserting audit events at once: a transaction takes the run's advisory lock, draws a
    sequence number, reads the run's head and inserts; any of them can be rolled back at any point. */
module AuditLedger {
  import opened Wrappers
  import opened Json
  import opened AuditChain

  type Worker = nat

  /** An event as the audit policy leaves it. */
  datatype Event = Event(runId: string, eventId: string, details: Details, actorType: Option<string>,
                         payload: map<string, Json>)

  /** build_audit_record for a run-scoped chain. */
  function BuildRecord(sha: Digest, e: Event, seqId: int, prev: Option<string>): Row {
    var row := Row(seqId, "run", e.runId, e.eventId, e.details, e.actorType, Obj(e.payload), sha(Obj(e.payload)), prev,
                   "");
    row.(eventHash := sha(HashedFields(row)))
  }

  /** How far a worker's transaction has got. */
  datatype Phase = Begun(e: Event) | Locked(e: Event) | Numbered(e: Event, id: nat)
    | Headed(e: Event, id: nat, head: Option<string>)

  /** The digest, and the lock a run's chain hashes to; different runs may share a lock. */
  datatype Setup = Setup(sha: Digest, lockOf: string -> int)

  /** Committed rows in commit order, the sequence's next value, lock holders, open transactions. */
  datatype Ledger = Ledger(table: seq<Row>, next: nat, locks: map<int, Worker>, open: map<Worker, Phase>)

  function Chain(table: seq<Row>, run: string): (rows: seq<Row>)
    ensures forall r :: r in rows <==> r in table && r.chainScope == "run" && r.chainId == run
  {
    if table == [] then []
    else
      var last := table[|table| - 1];
      assert table == table[..|table| - 1] + [last];
      Chain(table[..|table| - 1], run) + (if last.chainScope == "run" && last.chainId == run then [last] else [])
  }

  /** The hash in the row of the chain with the largest sequence id. */
  function HeadHash(rows: seq<Row>): Option<string> {
    var sorted := BySequence(rows);
    if sorted == [] then None else Some(sorted[|sorted| - 1].eventHash)
  }

  predicate HoldsLock(p: Phase) { !p.Begun? }

  function Release(s: Ledger, w: Worker, setup: Setup): Ledger
    requires w in s.open
  {
    s.(open := s.open - {w},
       locks := if HoldsLock(s.open[w]) then s.locks - {setup.lockOf(s.open[w].e.runId)} else s.locks)
  }

  datatype Step = Begin(e: Event) | Acquire | DrawNumber | ReadHead | Commit | RejectDuplicate | Rollback

  ghost predicate Taken(table: seq<Row>, eventId: string) {
    exists r :: r in table && r.eventId == eventId
  }

  /** One step of one worker's transaction. */
  ghost predicate Next(setup: Setup, s: Ledger, w: Worker, step: Step, t: Ledger) {
    match step
    case Begin(e) => w !in s.open && t == s.(open := s.open[w := Phase.Begun(e)])
    case Acquire =>
      && w in s.open && s.open[w].Begun? && setup.lockOf(s.open[w].e.runId) !in s.locks
      && t == s.(open := s.open[w := Locked(s.open[w].e)], locks := s.locks[setup.lockOf(s.open[w].e.runId) := w])
    case DrawNumber =>
      && w in s.open && s.open[w].Locked?
      && t == s.(open := s.open[w := Numbered(s.open[w].e, s.next)], next := s.next + 1)
    case ReadHead =>
      && w in s.open && s.open[w].Numbered?
      && t == s.(open := s.open[w := Headed(s.open[w].e, s.open[w].id, HeadHash(Chain(s.table, s.open[w].e.runId)))])
    case Commit =>
      && w in s.open && s.open[w].Headed? && !Taken(s.table, s.open[w].e.eventId)
      && t == Release(s, w, setup).(table := s.table
                                    + [BuildRecord(setup.sha, s.open[w].e, s.open[w].id, s.open[w].head)])
    case RejectDuplicate =>
      w in s.open && s.open[w].Headed? && Taken(s.table, s.open[w].e.eventId) && t == Release(s, w, setup)
    case Rollback => w in s.open && t == Release(s, w, setup)
  }

  const EMPTY := Ledger([], 0, map[], map[])

  /** Any interleaving of any workers' steps, from the empty ledger. */
  ghost predicate Trace(setup: Setup, states: seq<Ledger>) {
    && states != [] && states[0] == EMPTY
    && forall i :: 0 <= i < |states| - 1 ==> Advances(setup, states[i], states[i + 1])
  }

  ghost predicate Advances(setup: Setup, s: Ledger, t: Ledger) {
    exists w, step :: Next(setup, s, w, step, t)
  }

  // ------------------------------------------------------------------ what holds in every state

  /** Open transactions past the lock hold their run's lock, nobody else does. */
  ghost predicate LocksHeld(setup: Setup, s: Ledger) {
    && (forall w :: w in s.open && HoldsLock(s.open[w]) ==>
          setup.lockOf(s.open[w].e.runId) in s.locks && s.locks[setup.lockOf(s.open[w].e.runId)] == w)
    && (forall l :: l in s.locks ==>
          s.locks[l] in s.open && HoldsLock(s.open[s.locks[l]]) && setup.lockOf(s.open[s.locks[l]].e.runId) == l)
  }

  predicate HasNumber(p: Phase) { p.Numbered? || p.Headed? }

  /** Drawn numbers are below the sequence's next value and above everything in their run's chain. */
  ghost predicate NumbersFit(s: Ledger) {
    && (forall r :: r in s.table ==> r.sequenceId < s.next)
    && (forall w :: w in s.open && HasNumber(s.open[w]) ==> s.open[w].id < s.next)
    && (forall w, r :: w in s.open && HasNumber(s.open[w]) && r in Chain(s.table, s.open[w].e.runId) ==>
        r.sequenceId < s.open[w].id)
  }

  /** No two rows and no two transactions share a sequence number. */
  ghost predicate NumbersDistinct(s: Ledger) {
    && DistinctIds(s.table)
    && (forall w, r :: w in s.open && HasNumber(s.open[w]) && r in s.table ==> r.sequenceId != s.open[w].id)
    && (forall w, v :: w in s.open && v in s.open && w != v && HasNumber(s.open[w]) && HasNumber(s.open[v]) ==>
        s.open[w].id != s.open[v].id)
  }

  /** A head that was read is still the head. */
  ghost predicate HeadsCurrent(s: Ledger) {
    forall w :: w in s.open && s.open[w].Headed? ==> s.open[w].head == HeadHash(Chain(s.table, s.open[w].e.runId))
  }

  /** Every run's rows, in commit order, are an intact chain with ascending sequence ids. */
  ghost predicate ChainsIntact(setup: Setup, s: Ledger) {
    forall run: string :: Ascending(Chain(s.table, run)) && Links(setup.sha, Chain(s.table, run), None, "run", run)
  }

  ghost predicate EventsUnique(table: seq<Row>) {
    forall i, j :: 0 <= i < j < |table| ==> table[i].eventId != table[j].eventId
  }

  ghost predicate Safe(setup: Setup, s: Ledger) {
    LocksHeld(setup, s) && NumbersFit(s) && NumbersDistinct(s) && HeadsCurrent(s) && ChainsIntact(setup, s)
      && EventsUnique(s.table)
  }

  lemma ChainAppend(table: seq<Row>, r: Row, run: string)
    ensures Chain(table + [r], run)
      == Chain(table, run) + (if r.chainScope == "run" && r.chainId == run then [r] else [])
  {
    assert (table + [r])[..|table|] == table;
  }

  lemma HeadOfAscending(rows: seq<Row>)
    requires Ascending(rows)
    ensures HeadHash(rows) == PreviousOf(rows, None, |rows|)
  {
    SortedIsUnchanged(rows);
  }

  lemma RecordIsIntact(sha: Digest, e: Event, id: int, prev: Option<string>)
    ensures FaultOf(sha, BuildRecord(sha, e, id, prev), prev, "run", e.runId).None?
  {
    var r := BuildRecord(sha, e, id, prev);
    assert OrEmpty(Obj(e.payload)) == Obj(e.payload);
    SameColumnsSameFields(r, r.(eventHash := ""));
  }

  lemma LinksAppend(sha: Digest, rows: seq<Row>, r: Row, scope: string, id: string)
    requires Links(sha, rows, None, scope, id) && FaultOf(sha, r, PreviousOf(rows, None, |rows|), scope, id).None?
    ensures Links(sha, rows + [r], None, scope, id)
  {
    hide FaultOf;
    var all := rows + [r];
    forall i | 0 <= i < |all| ensures FaultOf(sha, all[i], PreviousOf(all, None, i), scope, id).None? {
      if i < |rows| { assert FaultOf(sha, rows[i], PreviousOf(rows, None, i), scope, id).None?; }
      assert PreviousOf(all, None, i) == PreviousOf(rows, None, i);
    }
  }

  /** Two transactions past the lock never work on the same run. */
  lemma OneWriterPerRun(setup: Setup, s: Ledger, v: Worker, w: Worker)
    requires LocksHeld(setup, s) && v in s.open && w in s.open && v != w && HoldsLock(s.open[v]) && HoldsLock(s.open[w])
    ensures s.open[v].e.runId != s.open[w].e.runId
  {
  }

  lemma ReleaseKeepsLocks(setup: Setup, s: Ledger, w: Worker)
    requires LocksHeld(setup, s) && w in s.open
    ensures LocksHeld(setup, Release(s, w, setup))
  {
    var t := Release(s, w, setup);
    forall v | v in t.open && HoldsLock(t.open[v])
      ensures setup.lockOf(t.open[v].e.runId) in t.locks && t.locks[setup.lockOf(t.open[v].e.runId)] == v
    {
      assert s.locks[setup.lockOf(s.open[v].e.runId)] == v;
    }
  }

  lemma CommitKeepsChains(setup: Setup, s: Ledger, w: Worker)
    requires ChainsIntact(setup, s) && NumbersFit(s) && HeadsCurrent(s) && w in s.open && s.open[w].Headed?
    ensures ChainsIntact(setup,
                         s.(table := s.table + [BuildRecord(setup.sha, s.open[w].e, s.open[w].id, s.open[w].head)]))
  {
    hide HeadHash, Links, BuildRecord, FaultOf;
    var p := s.open[w];
    var r := BuildRecord(setup.sha, p.e, p.id, p.head);
    RecordColumns(setup.sha, p.e, p.id, p.head);
    forall run: string
      ensures Ascending(Chain(s.table + [r], run)) && Links(setup.sha, Chain(s.table + [r], run), None, "run", run)
    {
      var rows := Chain(s.table, run);
      ChainAppend(s.table, r, run);
      if run == p.e.runId {
        HeadOfAscending(rows);
        RecordIsIntact(setup.sha, p.e, p.id, p.head);
        LinksAppend(setup.sha, rows, r, "run", run);
        forall i | 0 <= i < |rows| ensures rows[i].sequenceId < r.sequenceId { assert rows[i] in rows; }
      } else {
        assert Chain(s.table + [r], run) == rows;
      }
    }
  }

  lemma RecordColumns(sha: Digest, e: Event, id: int, prev: Option<string>)
    ensures var r := BuildRecord(sha, e, id, prev);
      r.sequenceId == id && r.chainScope == "run" && r.chainId == e.runId && r.eventId == e.eventId
  {
  }

  lemma CommitKeepsNumbers(setup: Setup, s: Ledger, w: Worker)
    requires LocksHeld(setup, s) && NumbersFit(s) && NumbersDistinct(s) && HeadsCurrent(s) && EventsUnique(s.table)
    requires w in s.open && s.open[w].Headed? && !Taken(s.table, s.open[w].e.eventId)
    ensures var t :=
      s.(table := s.table + [BuildRecord(setup.sha, s.open[w].e, s.open[w].id, s.open[w].head)], open := s.open - {w});
      NumbersFit(t) && NumbersDistinct(t) && HeadsCurrent(t) && EventsUnique(t.table)
  {
    hide HeadHash, BuildRecord, Chain, EventsUnique, Taken, DistinctIds, LocksHeld, NumbersFit, NumbersDistinct,
      HeadsCurrent;
    var p := s.open[w];
    var r := BuildRecord(setup.sha, p.e, p.id, p.head);
    RecordColumns(setup.sha, p.e, p.id, p.head);
    OtherChainsStay(setup, s, w, r);
    NewRowFits(s, w, r);
    NewRowIsDistinct(s, w, r);
    NewEventIsUnique(s.table, r);
    HeadsStay(s, w, r);
  }

  /** What committing a row for worker w's run does to the ledger apart from the locks. */
  function Committed(s: Ledger, w: Worker, r: Row): Ledger {
    s.(table := s.table + [r], open := s.open - {w})
  }

  ghost predicate OthersStay(s: Ledger, w: Worker, r: Row) {
    forall v :: v in s.open && v != w && HoldsLock(s.open[v]) ==>
      Chain(s.table + [r], s.open[v].e.runId) == Chain(s.table, s.open[v].e.runId)
  }

  lemma OtherChainsStay(setup: Setup, s: Ledger, w: Worker, r: Row)
    requires LocksHeld(setup, s) && w in s.open && HoldsLock(s.open[w]) && r.chainId == s.open[w].e.runId
    ensures OthersStay(s, w, r)
  {
    hide Chain, LocksHeld;
    forall v | v in s.open && v != w && HoldsLock(s.open[v])
      ensures Chain(s.table + [r], s.open[v].e.runId) == Chain(s.table, s.open[v].e.runId)
    {
      OneWriterPerRun(setup, s, v, w);
      ChainAppend(s.table, r, s.open[v].e.runId);
    }
  }

  lemma NewRowFits(s: Ledger, w: Worker, r: Row)
    requires NumbersFit(s) && OthersStay(s, w, r) && w in s.open && HasNumber(s.open[w]) && r.sequenceId == s.open[w].id
    ensures NumbersFit(Committed(s, w, r))
  {
    hide Chain;
  }

  lemma NewRowIsDistinct(s: Ledger, w: Worker, r: Row)
    requires NumbersDistinct(s) && w in s.open && HasNumber(s.open[w]) && r.sequenceId == s.open[w].id
    ensures NumbersDistinct(Committed(s, w, r))
  {
    forall i | 0 <= i < |s.table| ensures s.table[i].sequenceId != r.sequenceId { assert s.table[i] in s.table; }
  }

  lemma NewEventIsUnique(table: seq<Row>, r: Row)
    requires EventsUnique(table) && !Taken(table, r.eventId)
    ensures EventsUnique(table + [r])
  {
    forall i | 0 <= i < |table| ensures table[i].eventId != r.eventId { assert table[i] in table; }
  }

  lemma HeadsStay(s: Ledger, w: Worker, r: Row)
    requires HeadsCurrent(s) && OthersStay(s, w, r)
    ensures HeadsCurrent(Committed(s, w, r))
  {
    hide Chain, HeadHash;
  }

  lemma BeginKeepsSafety(setup: Setup, s: Ledger, w: Worker, e: Event, t: Ledger)
    requires Safe(setup, s) && Next(setup, s, w, Begin(e), t)
    ensures Safe(setup, t)
  {
    hide HeadHash, BuildRecord, Chain, Links, Ascending, DistinctIds, Taken, EventsUnique;
  }

  lemma AcquireKeepsLocks(setup: Setup, s: Ledger, w: Worker, t: Ledger)
    requires LocksHeld(setup, s) && Next(setup, s, w, Acquire, t)
    ensures LocksHeld(setup, t)
  {
    hide HeadHash, BuildRecord, Chain, Taken;
  }

  lemma AcquireKeepsSafety(setup: Setup, s: Ledger, w: Worker, t: Ledger)
    requires Safe(setup, s) && Next(setup, s, w, Acquire, t)
    ensures Safe(setup, t)
  {
    hide HeadHash, BuildRecord, Chain, Links, Ascending, DistinctIds, Taken, EventsUnique, LocksHeld;
    AcquireKeepsLocks(setup, s, w, t);
  }

  lemma DrawNumberKeepsSafety(setup: Setup, s: Ledger, w: Worker, t: Ledger)
    requires Safe(setup, s) && Next(setup, s, w, DrawNumber, t)
    ensures Safe(setup, t)
  {
    hide HeadHash, BuildRecord, Chain, Links, Ascending, DistinctIds, Taken, EventsUnique;
    NumberAboveChain(s, s.open[w].e.runId);
  }

  lemma ReadHeadKeepsSafety(setup: Setup, s: Ledger, w: Worker, t: Ledger)
    requires Safe(setup, s) && Next(setup, s, w, ReadHead, t)
    ensures Safe(setup, t)
  {
    hide HeadHash, BuildRecord, Chain, Links, Ascending, DistinctIds, Taken, EventsUnique;
  }

  lemma ReleaseKeepsSafety(setup: Setup, s: Ledger, w: Worker)
    requires Safe(setup, s) && w in s.open
    ensures Safe(setup, Release(s, w, setup))
  {
    hide HeadHash, Chain, Links, Ascending, DistinctIds, EventsUnique,
         LocksHeld, NumbersFit, NumbersDistinct, HeadsCurrent, ChainsIntact, Release;
    ReleaseKeepsLocks(setup, s, w);
    ReleaseKeepsRest(setup, s, w);
  }

  lemma CommitKeepsSafety(setup: Setup, s: Ledger, w: Worker, t: Ledger)
    requires Safe(setup, s) && Next(setup, s, w, Commit, t)
    ensures Safe(setup, t)
  {
    hide HeadHash, BuildRecord, Chain, Links, Ascending, DistinctIds, Taken, EventsUnique,
         LocksHeld, NumbersFit, NumbersDistinct, HeadsCurrent, ChainsIntact;
    ReleaseKeepsLocks(setup, s, w);
    SameLocks(setup, Release(s, w, setup), t);
    CommitKeepsChains(setup, s, w);
    CommitKeepsNumbers(setup, s, w);
    SameTableSameFacts(setup, s.(table := t.table), s.(table := t.table, open := s.open - {w}), t);
  }

  lemma SameLocks(setup: Setup, s: Ledger, t: Ledger)
    requires LocksHeld(setup, s) && s.locks == t.locks && s.open == t.open
    ensures LocksHeld(setup, t)
  {
  }

  lemma StepKeepsSafety(setup: Setup, s: Ledger, w: Worker, step: Step, t: Ledger)
    requires Safe(setup, s) && Next(setup, s, w, step, t)
    ensures Safe(setup, t)
  {
    hide Safe, Release, HeadHash, BuildRecord, Chain, Taken;
    match step
    case Begin(e) => BeginKeepsSafety(setup, s, w, e, t);
    case Acquire => AcquireKeepsSafety(setup, s, w, t);
    case DrawNumber => DrawNumberKeepsSafety(setup, s, w, t);
    case ReadHead => ReadHeadKeepsSafety(setup, s, w, t);
    case RejectDuplicate => ReleaseKeepsSafety(setup, s, w);
    case Rollback => ReleaseKeepsSafety(setup, s, w);
    case Commit => CommitKeepsSafety(setup, s, w, t);
  }

  lemma SameTableSameFacts(setup: Setup, a: Ledger, b: Ledger, t: Ledger)
    requires a.table == t.table == b.table && b.open == t.open && b.next == t.next
    ensures ChainsIntact(setup, a) ==> ChainsIntact(setup, t)
    ensures NumbersFit(b) ==> NumbersFit(t)
    ensures NumbersDistinct(b) ==> NumbersDistinct(t)
    ensures HeadsCurrent(b) ==> HeadsCurrent(t)
  {
    hide HeadHash, Chain, Links, Ascending, DistinctIds;
  }

  lemma NumberAboveChain(s: Ledger, run: string)
    requires NumbersFit(s)
    ensures forall r :: r in Chain(s.table, run) ==> r.sequenceId < s.next
    ensures forall r :: r in s.table ==> r.sequenceId != s.next
  {
  }

  lemma ReleaseKeepsRest(setup: Setup, s: Ledger, w: Worker)
    requires NumbersFit(s) && NumbersDistinct(s) && HeadsCurrent(s) && ChainsIntact(setup, s) && EventsUnique(s.table)
      && w in s.open
    ensures var t := Release(s, w, setup);
      NumbersFit(t) && NumbersDistinct(t) && HeadsCurrent(t) && ChainsIntact(setup, t) && EventsUnique(t.table)
  {
    hide HeadHash, Chain, Links, Ascending, DistinctIds;
  }

  lemma {:induction false} TraceIsSafe(setup: Setup, states: seq<Ledger>, i: nat)
    requires Trace(setup, states) && i < |states|
    ensures Safe(setup, states[i])
  {
    if i == 0 {
    } else {
      TraceIsSafe(setup, states, i - 1);
      assert Advances(setup, states[i - 1], states[i]);
      var w, step :| Next(setup, states[i - 1], w, step, states[i]);
      StepKeepsSafety(setup, states[i - 1], w, step, states[i]);
    }
  }

  // ------------------------------------------------------------------ what a reader sees

  /** fetch_run_records: a run's rows by sequence id. */
  function FetchRun(s: Ledger, run: string): seq<Row> {
    BySequence(Chain(s.table, run))
  }

  /** In every state of every interleaving, every run's stored chain verifies, its sequence ids ascend in
      link order, and no event is stored twice. */
  lemma EveryRunVerifies(setup: Setup, states: seq<Ledger>, i: nat, run: string, signed: bool, requireAnchor: bool)
    requires Trace(setup, states) && i < |states|
    ensures Verifies(setup.sha, FetchRun(states[i], run), None, signed, requireAnchor)
    ensures FetchRun(states[i], run) == Chain(states[i].table, run) && Ascending(FetchRun(states[i], run))
    ensures forall r :: r in FetchRun(states[i], run) <==>
      r in states[i].table && r.chainScope == "run" && r.chainId == run
    ensures EventsUnique(states[i].table) && DistinctIds(states[i].table)
  {
    hide Links, Chain;
    TraceIsSafe(setup, states, i);
    var rows := Chain(states[i].table, run);
    SortedIsUnchanged(rows);
    if rows != [] {
      assert rows[0] in rows;
      assert rows[0].chainScope == "run" && rows[0].chainId == run;
    }
  }

  lemma NextAppends(setup: Setup, s: Ledger, w: Worker, step: Step, t: Ledger)
    requires Next(setup, s, w, step, t)
    ensures s.table <= t.table
  {
    hide BuildRecord, HeadHash, Chain;
  }

  lemma {:induction false} TraceAppends(setup: Setup, states: seq<Ledger>, i: nat, j: nat)
    requires Trace(setup, states) && i <= j < |states|
    ensures states[i].table <= states[j].table
    decreases j
  {
    if i == j {
    } else {
      TraceAppends(setup, states, i, j - 1);
      assert Advances(setup, states[j - 1], states[j]);
      var w, step :| Next(setup, states[j - 1], w, step, states[j]);
      NextAppends(setup, states[j - 1], w, step, states[j]);
    }
  }

  lemma {:induction false} ChainExtends(a: seq<Row>, more: seq<Row>, run: string)
    ensures Chain(a, run) <= Chain(a + more, run)
    decreases |more|
  {
    hide Chain;
    if more == [] {
      assert a + more == a;
    } else {
      var n := |more| - 1;
      ChainExtends(a, more[..n], run);
      ChainAppend(a + more[..n], more[n], run);
      assert a + more[..n] + [more[n]] == a + more;
    }
  }

  lemma ChainOfPrefix(a: seq<Row>, b: seq<Row>, run: string)
    requires a <= b
    ensures Chain(a, run) <= Chain(b, run)
  {
    hide Chain;
    ChainExtends(a, b[|a|..], run);
    assert a + b[|a|..] == b;
  }

  /** A checkpoint over a run's head, taken at any moment, verifies against the run at any later moment. */
  lemma CheckpointsStayValid(setup: Setup, states: seq<Ledger>, i: nat, j: nat, run: string, scope: string,
                             anchor: Option<string>, requireAnchor: bool)
    requires Trace(setup, states) && i <= j < |states| && (requireAnchor ==> IsAnchor(anchor))
    requires FetchRun(states[i], run) != []
    ensures var head := FetchRun(states[i], run);
      Verifies(setup.sha, FetchRun(states[j], run), Some(CheckpointAt(head, |head| - 1, scope, anchor)), true,
               requireAnchor)
  {
    hide Links, Chain, Verifies, Trace, EventsUnique, DistinctIds, Ascending, BySequence;
    EveryRunVerifies(setup, states, i, run, true, requireAnchor);
    EveryRunVerifies(setup, states, j, run, true, requireAnchor);
    TraceAppends(setup, states, i, j);
    ChainOfPrefix(states[i].table, states[j].table, run);
    HeadCheckpoint(setup.sha, Chain(states[i].table, run), Chain(states[j].table, run), scope, anchor, requireAnchor);
  }

  /** A verified chain verifies from a checkpoint over any of its nonempty prefixes. */
  lemma HeadCheckpoint(sha: Digest, early: seq<Row>, late: seq<Row>, scope: string, anchor: Option<string>,
                       requireAnchor: bool)
    requires early <= late && early != [] && Ascending(late) && (requireAnchor ==> IsAnchor(anchor))
    requires Verifies(sha, late, None, true, requireAnchor)
    ensures Verifies(sha, late, Some(CheckpointAt(early, |early| - 1, scope, anchor)), true, requireAnchor)
  {
    SortedIsUnchanged(late);
    AscendingIsDistinct(late);
    hide Verifies, Ascending, BySequence, DistinctIds;
    var k := |early| - 1;
    assert late[k] == early[k];
    CheckpointsCompose(sha, late, k, scope, anchor, requireAnchor);
  }

  lemma AscendingIsDistinct(rows: seq<Row>)
    requires Ascending(rows)
    ensures DistinctIds(rows)
  {
  }

  // ------------------------------------------------------------------ what a row records

  /** The row is the event's: its run's chain, its identity and columns, its payload and the payload's digest. */
  ghost predicate Records(sha: Digest, r: Row, e: Event) {
    && r.chainScope == "run" && r.chainId == e.runId && r.eventId == e.eventId && r.details == e.details
    && r.actorType == e.actorType && r.payload == Obj(e.payload) && r.payloadSha == sha(Obj(e.payload))
  }

  /** The event of the step that began some worker's transaction. */
  ghost predicate BegunBefore(setup: Setup, states: seq<Ledger>, i: nat, e: Event) {
    exists j: nat :: j < i && BeginsAt(setup, states, j, e)
  }

  ghost predicate BeginsAt(setup: Setup, states: seq<Ledger>, j: nat, e: Event) {
    j + 1 < |states| && Begins(setup, states[j], e, states[j + 1])
  }

  /** Some worker's step from one state to the other begins a transaction for the event. */
  ghost predicate Begins(setup: Setup, s: Ledger, e: Event, t: Ledger) {
    exists w :: Next(setup, s, w, Begin(e), t)
  }

  /** A commit adds exactly one row, which records the committing worker's event with the number it drew, on the
      head it read. */
  lemma CommitRecords(setup: Setup, s: Ledger, w: Worker, t: Ledger)
    requires Next(setup, s, w, Commit, t)
    ensures w in s.open && s.open[w].Headed? && |t.table| == |s.table| + 1 && t.table[..|s.table|] == s.table
    ensures var r := t.table[|s.table|];
      Records(setup.sha, r, s.open[w].e) && r.sequenceId == s.open[w].id && r.previousHash == s.open[w].head
  {
    hide Taken, HashedFields, Release;
    TableOfCommit(setup, s, w, t);
  }

  lemma TableOfCommit(setup: Setup, s: Ledger, w: Worker, t: Ledger)
    requires Next(setup, s, w, Commit, t)
    ensures w in s.open && s.open[w].Headed?
    ensures t.table == s.table + [BuildRecord(setup.sha, s.open[w].e, s.open[w].id, s.open[w].head)]
  {
    hide BuildRecord, Taken;
  }

  /** No other step touches the table. */
  lemma OtherStepsAddNothing(setup: Setup, s: Ledger, w: Worker, step: Step, t: Ledger)
    requires Next(setup, s, w, step, t) && !step.Commit?
    ensures t.table == s.table
  {
    hide BuildRecord, Taken, HeadHash, Chain;
  }

  /** A step either begins a transaction or leaves every open transaction its event. */
  lemma EventsAreKept(setup: Setup, s: Ledger, w: Worker, step: Step, t: Ledger, v: Worker)
    requires Next(setup, s, w, step, t) && v in t.open
    ensures (v in s.open && t.open[v].e == s.open[v].e) || (step == Begin(t.open[v].e) && v == w)
  {
    hide BuildRecord, Taken, HeadHash, Chain;
  }

  lemma BegunStays(setup: Setup, states: seq<Ledger>, i: nat, e: Event)
    requires BegunBefore(setup, states, i, e) && i + 1 < |states|
    ensures BegunBefore(setup, states, i + 1, e)
  {
    hide Next;
  }

  lemma {:induction false} OpenEventsBegan(setup: Setup, states: seq<Ledger>, i: nat, v: Worker)
    requires Trace(setup, states) && i < |states| && v in states[i].open
    ensures BegunBefore(setup, states, i, states[i].open[v].e)
  {
    hide Next, BegunBefore;
    if i == 0 {
    } else {
      assert Advances(setup, states[i - 1], states[i]);
      var w, step :| Next(setup, states[i - 1], w, step, states[i]);
      EventsAreKept(setup, states[i - 1], w, step, states[i], v);
      if v in states[i - 1].open && states[i].open[v].e == states[i - 1].open[v].e {
        OpenEventsBegan(setup, states, i - 1, v);
        BegunStays(setup, states, i - 1, states[i].open[v].e);
      } else {
        BeganNow(setup, states, i, w, states[i].open[v].e);
      }
    }
  }

  lemma BeganNow(setup: Setup, states: seq<Ledger>, i: nat, w: Worker, e: Event)
    requires 0 < i < |states| && Next(setup, states[i - 1], w, Begin(e), states[i])
    ensures BegunBefore(setup, states, i, e)
  {
    hide Next;
    assert Begins(setup, states[i - 1], e, states[i]);
    assert BeginsAt(setup, states, i - 1, e);
  }

  /** Every row of the table records an event some worker began with. */
  lemma {:induction false} RowsRecordEvents(setup: Setup, states: seq<Ledger>, i: nat, r: Row) returns (e: Event)
    requires Trace(setup, states) && i < |states| && r in states[i].table
    ensures Records(setup.sha, r, e) && BegunBefore(setup, states, i, e)
  {
    hide Next, BegunBefore, Records;
    if i == 0 {
      assert false;
    } else {
      assert Advances(setup, states[i - 1], states[i]);
      var w, step :| Next(setup, states[i - 1], w, step, states[i]);
      if r in states[i - 1].table {
        e := RowsRecordEvents(setup, states, i - 1, r);
        BegunStays(setup, states, i - 1, e);
      } else if step.Commit? {
        CommitRecords(setup, states[i - 1], w, states[i]);
        e := states[i - 1].open[w].e;
        OpenEventsBegan(setup, states, i - 1, w);
        BegunStays(setup, states, i - 1, e);
        NewRow(states[i - 1].table, states[i].table);
      } else {
        OtherStepsAddNothing(setup, states[i - 1], w, step, states[i]);
        assert false;
      }
    }
  }

  lemma NewRow(before: seq<Row>, after: seq<Row>)
    requires |after| == |before| + 1 && after[..|before|] == before
    ensures forall r :: r in after ==> r in before || r == after[|before|]
  {
    assert after == before + [after[|before|]];
  }

  // ------------------------------------------------------------------ inserting an event

  /** The steps of one transaction, undisturbed. */
  ghost predicate Undisturbed(setup: Setup, states: seq<Ledger>, w: Worker, steps: seq<Step>) {
    |states| == |steps| + 1 && forall k :: 0 <= k < |steps| ==> Next(setup, states[k], w, steps[k], states[k + 1])
  }

  /** A transaction up to the head it reads. */
  ghost function Prepared(setup: Setup, s: Ledger, w: Worker, e: Event): seq<Ledger> {
    var begun := s.(open := s.open[w := Phase.Begun(e)]);
    var locked := begun.(open := begun.open[w := Locked(e)], locks := begun.locks[setup.lockOf(e.runId) := w]);
    var numbered := locked.(open := locked.open[w := Numbered(e, s.next)], next := s.next + 1);
    var headed := numbered.(open := numbered.open[w := Headed(e, s.next, HeadHash(Chain(s.table, e.runId)))]);
    [s, begun, locked, numbered, headed]
  }

  lemma CanPrepare(setup: Setup, s: Ledger, w: Worker, e: Event)
    requires w !in s.open && setup.lockOf(e.runId) !in s.locks
    ensures Undisturbed(setup, Prepared(setup, s, w, e), w, [Begin(e), Acquire, DrawNumber, ReadHead])
  {
    hide Chain, HeadHash;
  }

  /** Nothing stands in the way of an event that is not stored yet: with its run's lock free, an idle worker can
      insert it, which adds a row with the next sequence number and leaves everything else as it was. */
  lemma NewEventCanBeInserted(setup: Setup, s: Ledger, w: Worker, e: Event) returns (states: seq<Ledger>, r: Row)
    requires w !in s.open && setup.lockOf(e.runId) !in s.locks
    requires forall x :: x in s.table ==> x.eventId != e.eventId
    ensures Undisturbed(setup, states, w, [Begin(e), Acquire, DrawNumber, ReadHead, Commit]) && states[0] == s
    ensures states[5] == s.(table := s.table + [r], next := s.next + 1)
    ensures Records(setup.sha, r, e) && r.sequenceId == s.next
  {
    hide Chain, HeadHash, HashedFields;
    CanPrepare(setup, s, w, e);
    var before := Prepared(setup, s, w, e);
    r := BuildRecord(setup.sha, e, s.next, before[4].open[w].head);
    Restored(s, w, setup.lockOf(e.runId), before[4]);
    var after := s.(table := s.table + [r], next := s.next + 1);
    assert Next(setup, before[4], w, Commit, after);
    states := before + [after];
  }

  lemma Restored(s: Ledger, w: Worker, lock: int, t: Ledger)
    requires w !in s.open && lock !in s.locks && w in t.open
    requires t.open == s.open[w := t.open[w]] && t.locks == s.locks[lock := w]
    ensures t.open - {w} == s.open && t.locks - {lock} == s.locks
  {
  }

  /** An event that is stored already can only be rejected or rolled back: the table stays. */
  lemma StoredEventIsNotInserted(setup: Setup, s: Ledger, w: Worker, step: Step, t: Ledger)
    requires Next(setup, s, w, step, t) && w in s.open && s.open[w].Headed?
    ensures step.Commit? ==> forall x :: x in s.table ==> x.eventId != s.open[w].e.eventId
    ensures step.RejectDuplicate? ==> exists x :: x in s.table && x.eventId == s.open[w].e.eventId
    ensures step.Commit? || step.RejectDuplicate? || step.Rollback?
    ensures !step.Commit? ==> t.table == s.table
  {
    hide BuildRecord, HeadHash, Chain;
  }
}
