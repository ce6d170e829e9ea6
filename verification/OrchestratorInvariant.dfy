/** What every step of the orchestrator keeps, and why the loop cannot get stuck. */
module OrchestratorInvariant {
  import opened Graphs
  import opened Wrappers
  import opened Json
  import opened OrchestratorSpec

  /** Pending nodes are exactly those without a status; only nodes of the process have one. */
  ghost predicate Tracked(cfg: Config, s: State) {
    && s.pending <= Elements(cfg.ir.order) && s.statuses.Keys <= Elements(cfg.ir.order)
    && forall n :: n in cfg.ir.order ==> (n in s.pending <==> n !in s.statuses)
  }

  /** The in-flight tasks are exactly the running nodes, one task each. */
  ghost predicate InflightRuns(s: State) {
    Distinct(s.inflight) && forall n :: n in s.inflight <==> n in s.statuses && s.statuses[n] == Running
  }

  /** A node has a status only after everything it depends on has settled. */
  ghost predicate SourcesSettled(cfg: Config, s: State) {
    forall n :: n in s.statuses && n in cfg.ir.incoming ==> AllTerminal(cfg.ir.incoming[n], s.statuses)
  }

  ghost predicate AllTerminal(edges: seq<InEdge>, statuses: map<Node, Status>) {
    forall i :: 0 <= i < |edges| ==> Terminal(statuses, edges[i].source)
  }

  /** Exactly the completed nodes have outputs. */
  ghost predicate OutputsRecorded(s: State) {
    forall n :: n in s.outputs <==> IsCompleted(s.statuses, n)
  }

  predicate Bad(st: Status) { st == Failed || st == TimedOut }

  /** The run is failed exactly when some node is. */
  ghost predicate FailureRecorded(s: State) {
    s.failed <==> exists n :: n in s.statuses && Bad(s.statuses[n])
  }

  /** How often a node was handed to the adapter. */
  function Starts(log: seq<Event>, n: Node): nat {
    if log == [] then 0
    else
      var e := log[|log| - 1];
      Starts(log[..|log| - 1], n) + (if e.name == NodeScheduled && e.node == n then 1 else 0)
  }

  ghost predicate StartedOnce(s: State) {
    forall n :: Starts(s.log, n) <= if n in s.statuses then 1 else 0
  }

  ghost predicate Inv(cfg: Config, s: State) {
    && Compiled(cfg.ir)
    && Tracked(cfg, s) && InflightRuns(s) && SourcesSettled(cfg, s) && OutputsRecorded(s)
    && FailureRecorded(s) && StartedOnce(s)
    && Replay(s.log) == s.statuses
  }

  /** Nothing settled is ever touched again: statuses, outputs and log entries stay. */
  ghost predicate Continues(s: State, t: State) {
    && (forall n :: Terminal(s.statuses, n) ==> n in t.statuses && t.statuses[n] == s.statuses[n])
    && (forall n :: n in s.outputs ==> n in t.outputs && t.outputs[n] == s.outputs[n])
    && (forall n :: n in s.statuses ==> n in t.statuses)
    && s.log <= t.log
    && (s.failed ==> t.failed)
    && t.pending <= s.pending
  }

  lemma ContinuesTransitive(s: State, t: State, u: State)
    requires Continues(s, t) && Continues(t, u)
    ensures Continues(s, u)
  {
    assert u.log[..|s.log|] == u.log[..|t.log|][..|s.log|];
  }

  /** The quantity every step that does something lowers. */
  function Work(s: State): nat { 2 * |s.pending| + |s.inflight| }

  lemma StartHolds(cfg: Config)
    requires Compiled(cfg.ir)
    ensures Inv(cfg, Start(cfg))
  {
  }

  // ------------------------------------------------------------------ the two kinds of change

  /** A pending node receives its first status. */
  ghost predicate Assigned(s: State, t: State, n: Node, st: Status) {
    && n in s.pending && st != Completed
    && t.pending == s.pending - {n}
    && t.statuses == s.statuses[n := st] && t.outputs == s.outputs
    && t.inflight == (if st == Running then s.inflight + [n] else s.inflight)
    && t.failed == (s.failed || Bad(st))
    && exists name :: t.log == s.log + [Event(name, n, st)] && (name == NodeScheduled <==> st == Running)
  }

  /** A running node settles. */
  ghost predicate Settled(s: State, t: State, n: Node, st: Status) {
    && n in s.inflight && st != Running
    && t.pending == s.pending
    && t.statuses == s.statuses[n := st] && t.inflight == Without(s.inflight, n)
    && t.outputs.Keys == s.outputs.Keys + (if st == Completed then {n} else {})
    && (forall m :: m in s.outputs && m != n ==> t.outputs[m] == s.outputs[m])
    && t.failed == (s.failed || Bad(st))
    && exists name :: t.log == s.log + [Event(name, n, st)] && name != NodeScheduled
  }

  lemma ReadyHasSources(cfg: Config, n: Node, statuses: map<Node, Status>, outputs: map<Node, Json>)
    requires Compiled(cfg.ir) && n in cfg.ir.incoming && n in cfg.ir.specs
    ensures Readying(cfg, n, statuses, outputs) != NotReady ==> AllTerminal(cfg.ir.incoming[n], statuses)
  {
  }

  lemma ScheduleAssigns(cfg: Config, s: State, n: Node)
    requires Inv(cfg, s) && n in s.pending
    ensures n in cfg.ir.incoming && n in cfg.ir.specs
    ensures var t := Schedule(cfg, s, n);
      t.Some? && t.value != s ==>
        && AllTerminal(cfg.ir.incoming[n], s.statuses)
        && exists st :: Assigned(s, t.value, n, st)
  {
    hide Readying, FailureRecorded, StartedOnce, Replay, SourcesSettled, InflightRuns, OutputsRecorded;
    assert n in Elements(cfg.ir.order);
    var t := Schedule(cfg, s, n);
    if t.Some? && t.value != s {
      ReadyHasSources(cfg, n, s.statuses, s.outputs);
      var st := t.value.statuses[n];
      assert t.value.log == s.log + [Event(t.value.log[|s.log|].name, n, st)];
      assert Assigned(s, t.value, n, st);
    }
  }

  lemma InflightFacts(cfg: Config, s: State, n: Node)
    requires Inv(cfg, s) && n in s.inflight
    ensures n in s.statuses && s.statuses[n] == Running && n !in s.outputs && n in cfg.ir.specs
  {
    hide SourcesSettled, FailureRecorded, StartedOnce, Replay, SourcesIn;
    assert n in Elements(cfg.ir.order);
  }

  lemma MakesSettled(s: State, t: State, n: Node, st: Status, name: EventName)
    requires n in s.inflight && n !in s.outputs && st != Running && name != NodeScheduled
    requires t.pending == s.pending && t.statuses == s.statuses[n := st] && t.inflight == Without(s.inflight, n)
    requires if st == Completed then n in t.outputs && t.outputs == s.outputs[n := t.outputs[n]]
      else t.outputs == s.outputs
    requires t.failed == (s.failed || Bad(st)) && t.log == s.log + [Event(name, n, st)]
    ensures Settled(s, t, n, st)
  {
    hide Without;
  }

  lemma PollSettles(cfg: Config, s: State, n: Node, answer: Answer)
    requires Inv(cfg, s) && n in s.inflight
    ensures n in cfg.ir.specs
    ensures var t := Poll(cfg, s, n, answer);
      t.Some? && answer != StillRunning ==> exists st :: Settled(s, t.value, n, st)
  {
    InflightFacts(cfg, s, n);
    hide Inv, ValidPayload, Without, Settled, PayloadOf;
    var t := Poll(cfg, s, n, answer);
    if t.Some? {
      match answer
      case Finished(output) => MakesSettled(s, t.value, n, Completed, NodeCompleted);
      case Broken => MakesSettled(s, t.value, n, Failed, NodeFailed);
      case Late => MakesSettled(s, t.value, n, TimedOut, NodeFailed);
      case StillRunning =>
      case PollRaises =>
    }
  }

  lemma ReplayAppend(log: seq<Event>, e: Event)
    requires e.name == NodeScheduled <==> e.status == Running
    ensures Replay(log + [e]) == Replay(log)[e.node := e.status]
    ensures forall n ::
      Starts(log + [e], n) == Starts(log, n) + (if e.name == NodeScheduled && e.node == n then 1 else 0)
  {
    assert (log + [e])[..|log|] == log;
  }

  lemma BadAfter(s: State, t: State, n: Node, st: Status)
    requires FailureRecorded(s) && t.statuses == s.statuses[n := st] && t.failed == (s.failed || Bad(st))
    requires n in s.statuses ==> s.statuses[n] == Running
    ensures FailureRecorded(t)
  {
    if s.failed {
      var m :| m in s.statuses && Bad(s.statuses[m]);
      assert m in t.statuses && Bad(t.statuses[m]);
    } else if Bad(st) {
      assert n in t.statuses && Bad(t.statuses[n]);
    }
  }

  lemma SettledSources(cfg: Config, s: State, t: State, n: Node, st: Status)
    requires SourcesSettled(cfg, s) && t.statuses == s.statuses[n := st]
    requires n in s.statuses ==> st != Running && s.statuses[n] == Running
    requires n in cfg.ir.incoming ==> AllTerminal(cfg.ir.incoming[n], s.statuses)
    ensures SourcesSettled(cfg, t)
  {
    forall m | m in t.statuses && m in cfg.ir.incoming ensures AllTerminal(cfg.ir.incoming[m], t.statuses) {
      var edges := cfg.ir.incoming[m];
      assert AllTerminal(edges, s.statuses);
      forall i | 0 <= i < |edges| ensures Terminal(t.statuses, edges[i].source) {
        assert Terminal(s.statuses, edges[i].source);
      }
    }
  }

  lemma AssignedShape(cfg: Config, s: State, t: State, n: Node, st: Status)
    requires Tracked(cfg, s) && InflightRuns(s) && OutputsRecorded(s) && Assigned(s, t, n, st)
    ensures Tracked(cfg, t) && InflightRuns(t) && OutputsRecorded(t) && n !in s.statuses
    ensures Work(t) < Work(s)
  {
    assert n in cfg.ir.order;
    assert |s.pending| == |t.pending| + 1;
    assert n !in s.inflight;
  }

  /** Replaying an appended event gives the status it carries. */
  lemma LogAfter(s: State, t: State, n: Node, st: Status, name: EventName)
    requires Replay(s.log) == s.statuses && StartedOnce(s)
    requires t.log == s.log + [Event(name, n, st)] && t.statuses == s.statuses[n := st]
    requires name == NodeScheduled <==> st == Running
    requires st == Running ==> n !in s.statuses
    ensures Replay(t.log) == t.statuses && StartedOnce(t)
  {
    ReplayAppend(s.log, Event(name, n, st));
    forall m ensures Starts(t.log, m) <= if m in t.statuses then 1 else 0 {
      assert Starts(s.log, m) <= if m in s.statuses then 1 else 0;
    }
  }

  lemma AssignedKeeps(cfg: Config, s: State, t: State, n: Node, st: Status)
    requires Inv(cfg, s) && Assigned(s, t, n, st) && n in cfg.ir.incoming && AllTerminal(cfg.ir.incoming[n], s.statuses)
    ensures Inv(cfg, t) && Continues(s, t) && Work(t) < Work(s)
  {
    hide Compiled, AllTerminal, Tracked, InflightRuns, OutputsRecorded, SourcesSettled, FailureRecorded, StartedOnce,
      Replay, Starts, Work;
    var name :| t.log == s.log + [Event(name, n, st)] && (name == NodeScheduled <==> st == Running);
    AssignedShape(cfg, s, t, n, st);
    LogAfter(s, t, n, st, name);
    BadAfter(s, t, n, st);
    SettledSources(cfg, s, t, n, st);
  }

  lemma {:induction false} WithoutIs(s: seq<Node>, n: Node)
    requires Distinct(s)
    ensures Distinct(Without(s, n)) && forall m :: m in Without(s, n) <==> m in s && m != n
    ensures |Without(s, n)| == |s| - (if n in s then 1 else 0)
  {
    if s == [] {
    } else {
      var k := |s| - 1;
      var init, last := s[..k], s[k];
      WithoutIs(init, n);
      assert s == init + [last] && last !in init;
      assert Without(s, n) == Without(init, n) + (if last == n then [] else [last]);
    }
  }

  lemma SettledRan(s: State, t: State, n: Node, st: Status)
    requires InflightRuns(s) && OutputsRecorded(s) && Settled(s, t, n, st)
    ensures n in s.statuses && s.statuses[n] == Running && n !in s.outputs
  {
    hide Without;
  }

  lemma SettledTracked(cfg: Config, s: State, t: State, n: Node, st: Status)
    requires Tracked(cfg, s) && Settled(s, t, n, st) && n in s.statuses
    ensures Tracked(cfg, t)
  {
    hide Without;
    assert n in Elements(cfg.ir.order);
  }

  lemma SettledInflight(s: State, t: State, n: Node, st: Status)
    requires InflightRuns(s) && Settled(s, t, n, st)
    ensures InflightRuns(t) && |t.inflight| < |s.inflight|
  {
    hide Without;
    WithoutIs(s.inflight, n);
  }

  lemma SettledOutputs(s: State, t: State, n: Node, st: Status)
    requires OutputsRecorded(s) && Settled(s, t, n, st) && n !in s.outputs
    ensures OutputsRecorded(t)
  {
    hide Without;
  }

  lemma SettledShape(cfg: Config, s: State, t: State, n: Node, st: Status)
    requires Tracked(cfg, s) && InflightRuns(s) && OutputsRecorded(s) && Settled(s, t, n, st)
    ensures Tracked(cfg, t) && InflightRuns(t) && OutputsRecorded(t)
    ensures n in s.statuses && s.statuses[n] == Running && n !in s.outputs
    ensures Work(t) < Work(s)
  {
    assert t.pending == s.pending;
    hide Tracked, InflightRuns, OutputsRecorded, Settled;
    SettledRan(s, t, n, st);
    SettledTracked(cfg, s, t, n, st);
    SettledInflight(s, t, n, st);
    SettledOutputs(s, t, n, st);
  }

  lemma SettledKeeps(cfg: Config, s: State, t: State, n: Node, st: Status)
    requires Inv(cfg, s) && Settled(s, t, n, st)
    ensures Inv(cfg, t) && Continues(s, t) && Work(t) < Work(s)
  {
    hide Compiled, AllTerminal, Tracked, InflightRuns, OutputsRecorded, SourcesSettled, FailureRecorded, StartedOnce,
      Replay, Starts, Work, Without;
    var name :| t.log == s.log + [Event(name, n, st)] && name != NodeScheduled;
    SettledShape(cfg, s, t, n, st);
    LogAfter(s, t, n, st, name);
    BadAfter(s, t, n, st);
    SourcesOf(cfg, s, n);
    SettledSources(cfg, s, t, n, st);
  }

  lemma SourcesOf(cfg: Config, s: State, n: Node)
    requires SourcesSettled(cfg, s) && n in s.statuses
    ensures n in cfg.ir.incoming ==> AllTerminal(cfg.ir.incoming[n], s.statuses)
  {
  }

  // ------------------------------------------------------------------ passes

  lemma {:induction false} SweepKeeps(cfg: Config, s: State, k: nat)
    requires Inv(cfg, s) && k <= |cfg.ir.order|
    ensures Elements(cfg.ir.order) <= cfg.ir.incoming.Keys * cfg.ir.specs.Keys
    ensures var t := Sweep(cfg, s, k);
      t.Some? ==> Inv(cfg, t.value) && Continues(s, t.value) && (t.value != s ==> Work(t.value) < Work(s))
  {
    hide Inv, Schedule, Continues;
    OrderIsKnown(cfg, s);
    if k == 0 {
      ContinuesSelf(s);
    } else {
      SweepKeeps(cfg, s, k - 1);
      var t := Sweep(cfg, s, k - 1);
      var n := cfg.ir.order[k - 1];
      if t.Some? && n in t.value.pending {
        ScheduleKeeps(cfg, t.value, n);
        var u := Schedule(cfg, t.value, n);
        if u.Some? { ContinuesTransitive(s, t.value, u.value); }
      }
    }
  }

  lemma ContinuesSelf(s: State)
    ensures Continues(s, s)
  {
  }

  lemma OrderIsKnown(cfg: Config, s: State)
    requires Inv(cfg, s)
    ensures Elements(cfg.ir.order) <= cfg.ir.incoming.Keys * cfg.ir.specs.Keys
    ensures Elements(s.inflight) <= cfg.ir.specs.Keys && s.pending <= cfg.ir.incoming.Keys * cfg.ir.specs.Keys
  {
  }

  lemma ScheduleKeeps(cfg: Config, s: State, n: Node)
    requires Inv(cfg, s) && n in s.pending
    ensures n in cfg.ir.incoming && n in cfg.ir.specs
    ensures var t := Schedule(cfg, s, n);
      t.Some? ==> Inv(cfg, t.value) && Continues(s, t.value) && (t.value != s ==> Work(t.value) < Work(s))
  {
    hide Inv, Schedule, Assigned, AllTerminal, Continues;
    ScheduleAssigns(cfg, s, n);
    ContinuesSelf(s);
    var t := Schedule(cfg, s, n);
    if t.Some? && t.value != s {
      var st :| Assigned(s, t.value, n, st);
      AssignedKeeps(cfg, s, t.value, n, st);
    }
  }

  lemma PollKeeps(cfg: Config, s: State, n: Node, answer: Answer)
    requires Inv(cfg, s) && n in s.inflight
    ensures n in cfg.ir.specs
    ensures var t := Poll(cfg, s, n, answer);
      t.Some? ==>
        && Inv(cfg, t.value) && Continues(s, t.value)
        && (answer == StillRunning ==> t.value == s)
        && (answer != StillRunning ==> Work(t.value) < Work(s) && t.value.inflight == Without(s.inflight, n))
  {
    PollSettles(cfg, s, n, answer);
    hide Inv, Continues, Compiled;
    ContinuesSelf(s);
    var t := Poll(cfg, s, n, answer);
    if t.Some? && answer != StillRunning {
      var st :| Settled(s, t.value, n, st);
      SettledKeeps(cfg, s, t.value, n, st);
    }
  }

  /** The tasks not yet reached by the polling pass are still in flight. */
  ghost predicate Remaining(tasks: seq<Node>, k: nat, inflight: seq<Node>) {
    forall i :: k <= i < |tasks| ==> tasks[i] in inflight
  }

  ghost predicate SomeAnswer(tasks: seq<Node>, answers: Answers, k: nat) {
    exists i :: 0 <= i < k && i < |tasks| && AnswerFor(answers, tasks[i]) != StillRunning
  }

  lemma {:induction false} PollPassKeeps(cfg: Config, s: State, answers: Answers, k: nat)
    requires Inv(cfg, s) && k <= |s.inflight|
    ensures Elements(s.inflight) <= cfg.ir.specs.Keys
    ensures var t := PollPass(cfg, s, s.inflight, answers, k);
      t.Some? ==> Inv(cfg, t.value) && PolledThrough(s, t.value, answers, k)
  {
    hide Inv, Poll, Continues, Compiled, PolledThrough;
    OrderIsKnown(cfg, s);
    if k == 0 {
      PolledNobody(s, answers);
    } else {
      PollPassKeeps(cfg, s, answers, k - 1);
      var t := PollPass(cfg, s, s.inflight, answers, k - 1);
      if t.Some? { PollNext(cfg, s, t.value, answers, k - 1); }
    }
  }

  /** After k polls nothing was undone, the other tasks are still in flight, and only answers made progress. */
  ghost predicate PolledThrough(s: State, t: State, answers: Answers, k: nat) {
    && Continues(s, t) && Remaining(s.inflight, k, t.inflight) && t.pending == s.pending
    && (SomeAnswer(s.inflight, answers, k) ==> Work(t) < Work(s))
    && (!SomeAnswer(s.inflight, answers, k) ==> t == s)
  }

  lemma PolledNobody(s: State, answers: Answers)
    ensures PolledThrough(s, s, answers, 0)
  {
    hide Continues;
    ContinuesSelf(s);
  }

  lemma PollNext(cfg: Config, s: State, t: State, answers: Answers, k: nat)
    requires Inv(cfg, s) && Inv(cfg, t) && k < |s.inflight| && PolledThrough(s, t, answers, k)
      && s.inflight[k] in cfg.ir.specs
    ensures var u := Poll(cfg, t, s.inflight[k], AnswerFor(answers, s.inflight[k]));
      u.Some? ==> Inv(cfg, u.value) && PolledThrough(s, u.value, answers, k + 1)
  {
    hide Inv, Poll, Continues, Compiled, SomeAnswer, Work, AnswerFor;
    var n, answer := s.inflight[k], AnswerFor(answers, s.inflight[k]);
    PollKeeps(cfg, t, n, answer);
    PollKeepsPending(cfg, t, n, answer);
    OneMoreAnswer(s.inflight, answers, k);
    var u := Poll(cfg, t, n, answer);
    if u.Some? {
      ContinuesTransitive(s, t, u.value);
      DistinctInflight(cfg, s);
      DistinctInflight(cfg, t);
      if answer != StillRunning { StillRemaining(s.inflight, k, t.inflight); }
    }
  }

  lemma StillRemaining(tasks: seq<Node>, k: nat, inflight: seq<Node>)
    requires k < |tasks| && Distinct(tasks) && Distinct(inflight) && Remaining(tasks, k, inflight)
    ensures Remaining(tasks, k + 1, Without(inflight, tasks[k]))
  {
    WithoutIs(inflight, tasks[k]);
  }

  lemma OneMoreAnswer(tasks: seq<Node>, answers: Answers, k: nat)
    requires k < |tasks|
    ensures SomeAnswer(tasks, answers, k + 1) <==>
      SomeAnswer(tasks, answers, k) || AnswerFor(answers, tasks[k]) != StillRunning
  {
  }

  lemma PollKeepsPending(cfg: Config, s: State, n: Node, answer: Answer)
    requires n in cfg.ir.specs
    ensures Poll(cfg, s, n, answer).Some? ==> Poll(cfg, s, n, answer).value.pending == s.pending
  {
  }

  lemma DistinctInflight(cfg: Config, s: State)
    requires Inv(cfg, s)
    ensures Distinct(s.inflight)
  {
  }

  // ------------------------------------------------------------------ no deadlock

  lemma {:induction false} SweepWork(cfg: Config, s: State, k: nat, m: nat)
    requires Inv(cfg, s) && k <= m <= |cfg.ir.order|
    requires Elements(cfg.ir.order) <= cfg.ir.incoming.Keys * cfg.ir.specs.Keys
    ensures Sweep(cfg, s, m).Some? ==>
      Sweep(cfg, s, k).Some? && Work(Sweep(cfg, s, m).value) <= Work(Sweep(cfg, s, k).value)
    decreases m
  {
    hide Inv, Schedule, Work;
    if k == m {
    } else {
      SweepWork(cfg, s, k, m - 1);
      SweepKeeps(cfg, s, m - 1);
      var t := Sweep(cfg, s, m - 1);
      if t.Some? && cfg.ir.order[m - 1] in t.value.pending { ScheduleKeeps(cfg, t.value, cfg.ir.order[m - 1]); }
    }
  }

  lemma SweepReaches(cfg: Config, s: State, k: nat)
    requires Inv(cfg, s) && k <= |cfg.ir.order|
    requires Elements(cfg.ir.order) <= cfg.ir.incoming.Keys * cfg.ir.specs.Keys
    requires Sweep(cfg, s, |cfg.ir.order|) == Some(s)
    ensures Sweep(cfg, s, k) == Some(s)
  {
    SweepWork(cfg, s, k, |cfg.ir.order|);
    SweepKeeps(cfg, s, k);
  }

  /** A pass that schedules nothing proves that something is in flight or nothing is pending. */
  lemma NothingStranded(cfg: Config, s: State)
    requires Inv(cfg, s) && s.inflight == []
    ensures Elements(cfg.ir.order) <= cfg.ir.incoming.Keys * cfg.ir.specs.Keys
    ensures Sweep(cfg, s, |cfg.ir.order|) == Some(s) ==> s.pending == {}
  {
    hide SourcesSettled, OutputsRecorded, FailureRecorded, StartedOnce, Replay, Schedule, Tracked, Compiled;
    OrderIsKnown(cfg, s);
    if Sweep(cfg, s, |cfg.ir.order|) == Some(s) && s.pending != {} {
      var i := FirstPending(cfg, s);
      var n := cfg.ir.order[i];
      SweepReaches(cfg, s, i);
      SweepReaches(cfg, s, i + 1);
      assert Schedule(cfg, s, n) == Some(s);
      FirstPendingIsReady(cfg, s, i);
      assert false;
    }
  }

  lemma FirstPending(cfg: Config, s: State) returns (i: nat)
    requires Tracked(cfg, s) && s.pending != {}
    ensures i < |cfg.ir.order| && cfg.ir.order[i] in s.pending
    ensures forall j :: 0 <= j < i ==> cfg.ir.order[j] !in s.pending
  {
    var n :| n in s.pending;
    var k :| 0 <= k < |cfg.ir.order| && cfg.ir.order[k] == n;
    i := 0;
    while cfg.ir.order[i] !in s.pending
      invariant i <= k && forall j :: 0 <= j < i ==> cfg.ir.order[j] !in s.pending
      decreases k - i
    {
      i := i + 1;
    }
  }

  /** With nothing in flight, the first pending node of the order is ready. */
  lemma FirstPendingIsReady(cfg: Config, s: State, i: nat)
    requires Inv(cfg, s) && s.inflight == [] && i < |cfg.ir.order| && cfg.ir.order[i] in s.pending
    requires forall j :: 0 <= j < i ==> cfg.ir.order[j] !in s.pending
    ensures cfg.ir.order[i] in cfg.ir.incoming && cfg.ir.order[i] in cfg.ir.specs
    ensures Schedule(cfg, s, cfg.ir.order[i]) != Some(s)
  {
    var n := cfg.ir.order[i];
    OrderIsKnown(cfg, s);
    SourcesAreTerminal(cfg, s, i);
    hide *;
    SettledIsReady(cfg, s, n);
    ReadyIsScheduled(cfg, s, n);
  }

  lemma SettledIsReady(cfg: Config, s: State, n: Node)
    requires n in cfg.ir.incoming && n in cfg.ir.specs
    requires forall j :: 0 <= j < |cfg.ir.incoming[n]| ==> Terminal(s.statuses, cfg.ir.incoming[n][j].source)
    ensures Readying(cfg, n, s.statuses, s.outputs) != NotReady
  {
    hide Terminal, Firing, MergeEdges, ValidPayload;
  }

  lemma ReadyIsScheduled(cfg: Config, s: State, n: Node)
    requires n in cfg.ir.incoming && n in cfg.ir.specs && n in s.pending
      && Readying(cfg, n, s.statuses, s.outputs) != NotReady
    ensures Schedule(cfg, s, n) != Some(s)
  {
    hide Readying;
    assert n !in s.pending - {n};
  }

  lemma SourcesAreTerminal(cfg: Config, s: State, i: nat)
    requires Inv(cfg, s) && s.inflight == [] && i < |cfg.ir.order|
    requires forall j :: 0 <= j < i ==> cfg.ir.order[j] !in s.pending
    ensures cfg.ir.order[i] in cfg.ir.incoming
    ensures forall j :: 0 <= j < |cfg.ir.incoming[cfg.ir.order[i]]| ==>
      Terminal(s.statuses, cfg.ir.incoming[cfg.ir.order[i]][j].source)
  {
    hide SourcesSettled, OutputsRecorded, FailureRecorded, StartedOnce, Replay;
    OrderIsKnown(cfg, s);
    var edges := cfg.ir.incoming[cfg.ir.order[i]];
    forall j | 0 <= j < |edges| ensures Terminal(s.statuses, edges[j].source) {
      assert edges[j] in edges && SourcesIn(edges, cfg.ir.order[..i]);
      var k :| 0 <= k < i && cfg.ir.order[..i][k] == edges[j].source;
      assert cfg.ir.order[k] !in s.pending;
    }
  }
}
