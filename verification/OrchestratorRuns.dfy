/** Whole runs of the orchestrator: every sequence of polling answers, to any length. */
module OrchestratorRuns {
  import opened Graphs
  import opened Wrappers
  import opened OrchestratorSpec
  import opened OrchestratorInvariant

  /** One turn of the loop body, guard included. */
  ghost function OnePass(cfg: Config, s: State, answers: Answers): (r: Progress)
    requires Inv(cfg, s)
  {
    if s.pending == {} && s.inflight == [] then Ended(s)
    else
      SweepKeeps(cfg, s, |cfg.ir.order|);
      match Sweep(cfg, s, |cfg.ir.order|)
      case None => Aborted
      case Some(swept) =>
        if swept.failed then Ended(swept)
        else
          PollPassKeeps(cfg, swept, answers, |swept.inflight|);
          match PollPass(cfg, swept, swept.inflight, answers, |swept.inflight|)
          case None => Aborted
          case Some(t) => if t == s && t.inflight == [] then Ended(t) else Going(t)
  }

  /** What one turn can do: keep the invariant and either lower the work left, or find every in-flight
      task still running and change nothing. */
  lemma PassKeeps(cfg: Config, s: State, answers: Answers)
    requires Inv(cfg, s)
    ensures match OnePass(cfg, s, answers)
      case Aborted => true
      case Ended(t) => Inv(cfg, t) && Continues(s, t)
      case Going(t) => (
        && Inv(cfg, t) && Continues(s, t) && (t == s || Work(t) < Work(s))
        && (t == s ==> s.inflight != [] && !SomeAnswer(s.inflight, answers, |s.inflight|)))
  {
    hide Inv, Continues, Sweep, PollPass, Work;
    ContinuesSelf(s);
    SweepKeeps(cfg, s, |cfg.ir.order|);
    var swept := Sweep(cfg, s, |cfg.ir.order|);
    if swept.Some? {
      PollPassKeeps(cfg, swept.value, answers, |swept.value.inflight|);
      var polled := PollPass(cfg, swept.value, swept.value.inflight, answers, |swept.value.inflight|);
      if polled.Some? {
        ContinuesTransitive(s, swept.value, polled.value);
      }
    }
  }

  /** The loop is left with the run not failed only when nothing is pending or in flight: its last
      `break` strands no node. */
  lemma EndsEmpty(cfg: Config, s: State, answers: Answers)
    requires Inv(cfg, s)
    ensures OnePass(cfg, s, answers).Ended? ==>
      var t := OnePass(cfg, s, answers).s;
      t.failed || (t.pending == {} && t.inflight == [])
  {
    hide Inv, Continues, Sweep, PollPass, Work;
    SweepKeeps(cfg, s, |cfg.ir.order|);
    var swept := Sweep(cfg, s, |cfg.ir.order|);
    if swept.Some? && !swept.value.failed {
      PollPassKeeps(cfg, swept.value, answers, |swept.value.inflight|);
      var polled := PollPass(cfg, swept.value, swept.value.inflight, answers, |swept.value.inflight|);
      if polled == Some(s) && s.inflight == [] {
        NoWorkNoChange(cfg, s, swept.value, s);
        NothingStranded(cfg, s);
      }
    }
  }

  lemma NoWorkNoChange(cfg: Config, s: State, t: State, u: State)
    requires t == s || Work(t) < Work(s)
    requires u == t || Work(u) < Work(t)
    requires u == s
    ensures t == s
  {
  }

  /** The loop under a list of polling answers; it may still be going when the list ends. */
  ghost function Run(cfg: Config, s: State, script: seq<Answers>): (r: Progress)
    requires Inv(cfg, s)
    decreases |script|
  {
    if script == [] then if s.pending == {} && s.inflight == [] then Ended(s) else Going(s)
    else
      PassKeeps(cfg, s, script[0]);
      match OnePass(cfg, s, script[0])
      case Going(t) => Run(cfg, t, script[1..])
      case Ended(t) => Ended(t)
      case Aborted => Aborted
  }

  lemma {:induction false} RunKeeps(cfg: Config, s: State, script: seq<Answers>)
    requires Inv(cfg, s)
    ensures match Run(cfg, s, script)
      case Aborted => true
      case Going(t) => Inv(cfg, t) && Continues(s, t) && (t.pending != {} || t.inflight != [])
      case Ended(t) => Inv(cfg, t) && Continues(s, t) && (t.failed || (t.pending == {} && t.inflight == []))
    decreases |script|
  {
    hide Inv, Continues, OnePass;
    if script == [] {
      ContinuesSelf(s);
    } else {
      PassKeeps(cfg, s, script[0]);
      EndsEmpty(cfg, s, script[0]);
      match OnePass(cfg, s, script[0])
      case Going(t) =>
        RunKeeps(cfg, t, script[1..]);
        match Run(cfg, t, script[1..]) {
          case Going(u) => ContinuesTransitive(s, t, u);
          case Ended(u) => ContinuesTransitive(s, t, u);
          case Aborted =>
        }
      case Ended(t) =>
      case Aborted =>
    }
  }

  /** The status the run reports when it leaves the loop. */
  function Reported(s: State): RunStatus {
    if s.failed then RunFailed else RunCompleted
  }

  /** A run reported completed has completed or skipped every node; a run reported failed has a failed
      or timed-out node. */
  lemma ReportIsTrue(cfg: Config, script: seq<Answers>)
    requires Compiled(cfg.ir)
    ensures Inv(cfg, Start(cfg))
    ensures Run(cfg, Start(cfg), script).Ended? ==>
      var t := Run(cfg, Start(cfg), script).s;
      && (Reported(t) == RunCompleted <==>
           forall n :: n in cfg.ir.order ==>
             n in t.statuses && (t.statuses[n] == Completed || t.statuses[n] == Skipped))
      && (Reported(t) == RunFailed <==> exists n :: n in t.statuses && Bad(t.statuses[n]))
  {
    hide Inv, Compiled, Run, Continues, Start;
    StartHolds(cfg);
    RunKeeps(cfg, Start(cfg), script);
    if Run(cfg, Start(cfg), script).Ended? {
      EndIsReported(cfg, Run(cfg, Start(cfg), script).s);
    }
  }

  lemma EndIsReported(cfg: Config, t: State)
    requires Inv(cfg, t) && (t.failed || (t.pending == {} && t.inflight == []))
    ensures !t.failed <==>
      forall n :: n in cfg.ir.order ==> n in t.statuses && (t.statuses[n] == Completed || t.statuses[n] == Skipped)
    ensures t.failed <==> exists n :: n in t.statuses && Bad(t.statuses[n])
  {
    hide Compiled, SourcesSettled, OutputsRecorded, StartedOnce, Replay;
    if !t.failed {
      forall n | n in cfg.ir.order ensures n in t.statuses && (t.statuses[n] == Completed || t.statuses[n] == Skipped) {
        assert n !in t.pending && n !in t.inflight;
      }
    } else {
      var n :| n in t.statuses && Bad(t.statuses[n]);
      assert n in Elements(cfg.ir.order);
    }
  }

  // ------------------------------------------------------------------ a failure ends the run

  /** Nothing was polled on the way: outputs and the statuses there were stay, tasks in flight stay in flight. */
  ghost predicate NothingPolled(s: State, t: State) {
    && t.outputs == s.outputs && s.inflight <= t.inflight && (s.failed ==> t.failed)
    && forall n :: n in s.statuses ==> n in t.statuses && t.statuses[n] == s.statuses[n]
  }

  lemma ScheduleDoesNotPoll(cfg: Config, s: State, n: Node)
    requires Inv(cfg, s) && n in s.pending
    ensures n in cfg.ir.incoming && n in cfg.ir.specs
    ensures Schedule(cfg, s, n).Some? ==> NothingPolled(s, Schedule(cfg, s, n).value)
  {
    hide Readying, FailureRecorded, StartedOnce, Replay, SourcesSettled, InflightRuns, OutputsRecorded, SourcesIn;
    assert n in Elements(cfg.ir.order);
  }

  lemma NothingPolledTransitive(s: State, t: State, u: State)
    requires NothingPolled(s, t) && NothingPolled(t, u)
    ensures NothingPolled(s, u)
  {
    assert u.inflight[..|s.inflight|] == u.inflight[..|t.inflight|][..|s.inflight|];
  }

  lemma {:induction false} SweepDoesNotPoll(cfg: Config, s: State, k: nat)
    requires Inv(cfg, s) && k <= |cfg.ir.order|
    ensures Elements(cfg.ir.order) <= cfg.ir.incoming.Keys * cfg.ir.specs.Keys
    ensures Sweep(cfg, s, k).Some? ==> NothingPolled(s, Sweep(cfg, s, k).value)
  {
    hide Inv, Schedule, Continues, Work, NothingPolled;
    SweepKeeps(cfg, s, k);
    if k == 0 {
      SameIsNotPolled(s);
    } else {
      SweepKeeps(cfg, s, k - 1);
      SweepDoesNotPoll(cfg, s, k - 1);
      var t, n := Sweep(cfg, s, k - 1), cfg.ir.order[k - 1];
      if t.Some? && n in t.value.pending {
        ScheduleDoesNotPoll(cfg, t.value, n);
        if Sweep(cfg, s, k).Some? { NothingPolledTransitive(s, t.value, Sweep(cfg, s, k).value); }
      }
    }
  }

  lemma SameIsNotPolled(s: State)
    ensures NothingPolled(s, s)
  {
  }

  /** After a failure the loop makes at most one more scheduling pass: no task is polled again, and the run does not
      go on. */
  lemma FailureEndsTheRun(cfg: Config, s: State, script: seq<Answers>)
    requires Inv(cfg, s) && s.failed && script != []
    ensures !Run(cfg, s, script).Going?
    ensures Run(cfg, s, script).Ended? ==> NothingPolled(s, Run(cfg, s, script).s)
  {
    hide Inv, Sweep, Continues, Work, PollPass;
    SweepKeeps(cfg, s, |cfg.ir.order|);
    SweepDoesNotPoll(cfg, s, |cfg.ir.order|);
    SameIsNotPolled(s);
  }

  // ------------------------------------------------------------------ one pass is enough

  /** Something the node depends on has not settled. */
  ghost predicate Waits(cfg: Config, s: State, n: Node)
    requires n in cfg.ir.incoming
  {
    n != cfg.ir.trigger && exists e :: e in cfg.ir.incoming[n] && !Terminal(s.statuses, e.source)
  }

  lemma NotReadyWaits(cfg: Config, s: State, n: Node)
    requires n in cfg.ir.incoming && n in cfg.ir.specs && Readying(cfg, n, s.statuses, s.outputs) == NotReady
    ensures Waits(cfg, s, n)
  {
    hide Firing, MergeEdges;
    var edges := cfg.ir.incoming[n];
    var i :| 0 <= i < |edges| && !Terminal(s.statuses, edges[i].source);
    assert edges[i] in edges;
  }

  /** Scheduling a later node of the order settles nothing an earlier one waits for. */
  lemma StillWaits(cfg: Config, s: State, t: State, n: Node, m: nat, k: nat)
    requires Compiled(cfg.ir) && m < k < |cfg.ir.order| && n == cfg.ir.order[m] && n in cfg.ir.incoming
    requires Waits(cfg, s, n)
    requires forall x :: x in t.statuses && x != cfg.ir.order[k] ==> x in s.statuses && t.statuses[x] == s.statuses[x]
    ensures Waits(cfg, t, n)
  {
    var e :| e in cfg.ir.incoming[n] && !Terminal(s.statuses, e.source);
    assert SourcesIn(cfg.ir.incoming[n], cfg.ir.order[..m]);
    var i :| 0 <= i < m && cfg.ir.order[..m][i] == e.source;
    assert cfg.ir.order[i] != cfg.ir.order[k];
  }

  lemma ScheduleTouchesStatus(cfg: Config, s: State, n: Node)
    requires n in cfg.ir.incoming && n in cfg.ir.specs && Schedule(cfg, s, n).Some?
    ensures var t := Schedule(cfg, s, n).value;
      && (forall x :: x in t.statuses && x != n ==> x in s.statuses && t.statuses[x] == s.statuses[x])
      && t.pending <= s.pending && (n in t.pending ==> Readying(cfg, n, s.statuses, s.outputs) == NotReady && t == s)
  {
    hide Readying;
  }

  /** Whoever of the first k nodes is still pending waits for something. */
  ghost predicate OthersWait(cfg: Config, t: State, k: nat) {
    forall m :: 0 <= m < k <= |cfg.ir.order| && cfg.ir.order[m] in t.pending ==>
      cfg.ir.order[m] in cfg.ir.incoming && Waits(cfg, t, cfg.ir.order[m])
  }

  lemma {:induction false} SweepReachesAll(cfg: Config, s: State, k: nat)
    requires Inv(cfg, s) && k <= |cfg.ir.order|
    ensures Elements(cfg.ir.order) <= cfg.ir.incoming.Keys * cfg.ir.specs.Keys
    ensures Sweep(cfg, s, k).Some? ==> OthersWait(cfg, Sweep(cfg, s, k).value, k)
  {
    hide Inv, Schedule, Continues, Work, Waits, Compiled;
    SweepKeeps(cfg, s, k);
    if k == 0 {
    } else {
      SweepReachesAll(cfg, s, k - 1);
      if Sweep(cfg, s, k).Some? {
        OrderIsCompiled(cfg, s);
        OneMoreReached(cfg, Sweep(cfg, s, k - 1).value, Sweep(cfg, s, k).value, k);
      }
    }
  }

  lemma OrderIsCompiled(cfg: Config, s: State)
    requires Inv(cfg, s)
    ensures Compiled(cfg.ir)
  {
  }

  lemma OneMoreReached(cfg: Config, t: State, u: State, k: nat)
    requires Compiled(cfg.ir) && 0 < k <= |cfg.ir.order| && OthersWait(cfg, t, k - 1)
    requires cfg.ir.order[k - 1] in cfg.ir.incoming && cfg.ir.order[k - 1] in cfg.ir.specs
    requires if cfg.ir.order[k - 1] in t.pending then Schedule(cfg, t, cfg.ir.order[k - 1]) == Some(u) else u == t
    ensures OthersWait(cfg, u, k)
  {
    hide Schedule, Waits, Compiled;
    var n := cfg.ir.order[k - 1];
    if n in t.pending {
      ScheduleTouchesStatus(cfg, t, n);
      if n in u.pending { NotReadyWaits(cfg, t, n); }
      forall m | 0 <= m < k - 1 && cfg.ir.order[m] in u.pending
        ensures cfg.ir.order[m] in cfg.ir.incoming && Waits(cfg, u, cfg.ir.order[m])
      {
        StillWaits(cfg, t, u, cfg.ir.order[m], m, k - 1);
      }
    }
  }

  /** One scheduling pass leaves nothing to schedule: every node that is still pending waits for a node that has not
      settled. */
  lemma SweepIsComplete(cfg: Config, s: State)
    requires Inv(cfg, s)
    ensures Elements(cfg.ir.order) <= cfg.ir.incoming.Keys * cfg.ir.specs.Keys
    ensures var r := Sweep(cfg, s, |cfg.ir.order|);
      r.Some? ==> forall n :: n in r.value.pending ==> n in cfg.ir.incoming && Waits(cfg, r.value, n)
  {
    hide Schedule, Continues, Work, Waits, Compiled, Sweep;
    SweepReachesAll(cfg, s, |cfg.ir.order|);
    SweepKeeps(cfg, s, |cfg.ir.order|);
    if Sweep(cfg, s, |cfg.ir.order|).Some? {
      var t := Sweep(cfg, s, |cfg.ir.order|).value;
      forall n | n in t.pending ensures n in cfg.ir.incoming && Waits(cfg, t, n) {
        PendingHasPlace(cfg, t, n);
      }
    }
  }

  lemma PendingHasPlace(cfg: Config, s: State, n: Node)
    requires Inv(cfg, s) && n in s.pending
    ensures exists m :: 0 <= m < |cfg.ir.order| && cfg.ir.order[m] == n
  {
    assert n in Elements(cfg.ir.order);
  }

  // ------------------------------------------------------------------ event sourcing

  /** Replaying the log rebuilds the node statuses. */
  ghost predicate Replays(s: State) {
    Replay(s.log) == s.statuses
  }

  lemma InvReplays(cfg: Config, s: State)
    requires Inv(cfg, s)
    ensures Replays(s)
  {
  }

  /** Wherever a run has got to, and wherever it ends, replaying its log rebuilds its node statuses. */
  lemma ReplayIsExact(cfg: Config, script: seq<Answers>)
    requires Compiled(cfg.ir)
    ensures Inv(cfg, Start(cfg))
    ensures match Run(cfg, Start(cfg), script)
      case Going(t) => Replays(t)
      case Ended(t) => Replays(t)
      case Aborted => true
  {
    hide Inv, Compiled, Run, Continues, Start, Replays;
    StartHolds(cfg);
    RunKeeps(cfg, Start(cfg), script);
    match Run(cfg, Start(cfg), script)
    case Going(t) => InvReplays(cfg, t);
    case Ended(t) => InvReplays(cfg, t);
    case Aborted =>
  }

  /** The same after every single step of the next pass, also of one that is going to abort. */
  lemma ReplayIsExactInPasses(cfg: Config, script: seq<Answers>, answers: Answers, k: nat)
    requires Compiled(cfg.ir) && k <= |cfg.ir.order|
    ensures Inv(cfg, Start(cfg))
    ensures Run(cfg, Start(cfg), script).Going? ==>
      var t := Run(cfg, Start(cfg), script).s;
      && Elements(cfg.ir.order) <= cfg.ir.incoming.Keys * cfg.ir.specs.Keys
      && (Sweep(cfg, t, k).Some? ==>
           var u := Sweep(cfg, t, k).value;
           && Replays(u) && Elements(u.inflight) <= cfg.ir.specs.Keys
           && forall j: nat :: j <= |u.inflight| && PollPass(cfg, u, u.inflight, answers, j).Some? ==>
                Replays(PollPass(cfg, u, u.inflight, answers, j).value))
  {
    hide Inv, Compiled, Run, Continues, Start, Replays, Sweep, PollPass;
    StartHolds(cfg);
    RunKeeps(cfg, Start(cfg), script);
    if Run(cfg, Start(cfg), script).Going? {
      var t := Run(cfg, Start(cfg), script).s;
      SweepKeeps(cfg, t, k);
      if Sweep(cfg, t, k).Some? {
        var u := Sweep(cfg, t, k).value;
        InvReplays(cfg, u);
        PollPassKeeps(cfg, u, answers, 0);
        forall j: nat | j <= |u.inflight| && PollPass(cfg, u, u.inflight, answers, j).Some?
          ensures Replays(PollPass(cfg, u, u.inflight, answers, j).value)
        {
          PollPassKeeps(cfg, u, answers, j);
          InvReplays(cfg, PollPass(cfg, u, u.inflight, answers, j).value);
        }
      }
    }
  }

  /** The run status derived from the statuses is failed exactly when the run is; it is completed exactly when
      the run has not failed, nothing is in flight and some node has settled, so before the end it can be
      ahead of the run. */
  lemma DerivedStatusIs(cfg: Config, s: State)
    requires Inv(cfg, s)
    ensures DerivedStatus(Replay(s.log)) == RunFailed <==> s.failed
    ensures DerivedStatus(Replay(s.log)) == RunCompleted <==> !s.failed && s.inflight == [] && s.statuses != map[]
  {
    if s.failed {
      var n :| n in s.statuses && Bad(s.statuses[n]);
    } else {
      forall n | n in s.statuses ensures !Bad(s.statuses[n]) {}
      if s.inflight != [] {
        assert s.inflight[0] in s.inflight;
        assert s.inflight[0] in s.statuses && s.statuses[s.inflight[0]] == Running;
      } else {
        forall n | n in s.statuses ensures s.statuses[n] == Completed || s.statuses[n] == Skipped {
          assert n !in s.inflight;
        }
      }
    }
  }

  /** At the end of any run the replayed status is the reported one. */
  lemma ReplayedReport(cfg: Config, script: seq<Answers>)
    requires Compiled(cfg.ir)
    ensures Inv(cfg, Start(cfg))
    ensures Run(cfg, Start(cfg), script).Ended? ==>
      var t := Run(cfg, Start(cfg), script).s;
      DerivedStatus(Replay(t.log)) == Reported(t)
  {
    StartHolds(cfg);
    RunKeeps(cfg, Start(cfg), script);
    if Run(cfg, Start(cfg), script).Ended? {
      var t := Run(cfg, Start(cfg), script).s;
      DerivedStatusIs(cfg, t);
      if !t.failed {
        assert cfg.ir.trigger in cfg.ir.order && cfg.ir.trigger !in t.pending;
      }
    }
  }

  // ------------------------------------------------------------------ termination

  /** Passes that change something. */
  ghost function BusyPasses(cfg: Config, s: State, script: seq<Answers>): nat
    requires Inv(cfg, s)
    decreases |script|
  {
    if script == [] then 0
    else
      PassKeeps(cfg, s, script[0]);
      match OnePass(cfg, s, script[0])
      case Going(t) => (if t == s then 0 else 1) + BusyPasses(cfg, t, script[1..])
      case Ended(_) => 0
      case Aborted => 0
  }

  /** However long a run goes on, at most two passes per node change anything; in all others every
      in-flight task answered that it is still running. */
  lemma {:induction false} BusyPassesAreBounded(cfg: Config, s: State, script: seq<Answers>)
    requires Inv(cfg, s)
    ensures BusyPasses(cfg, s, script) <= Work(s)
    decreases |script|
  {
    hide Inv, OnePass, Continues;
    if script == [] {
    } else {
      PassKeeps(cfg, s, script[0]);
      match OnePass(cfg, s, script[0])
      case Going(t) => BusyPassesAreBounded(cfg, t, script[1..]);
      case Ended(_) =>
      case Aborted =>
    }
  }

  /** An adapter that answers something for every in-flight task is done within 2n passes. */
  lemma {:induction false} AnsweringTerminates(cfg: Config, s: State, script: seq<Answers>)
    requires Inv(cfg, s) && |script| > Work(s)
    requires forall k, n :: 0 <= k < |script| && n in cfg.ir.order ==> AnswerFor(script[k], n) != StillRunning
    ensures !Run(cfg, s, script).Going?
    decreases |script|
  {
    hide OnePass, Work, Continues;
    PassKeeps(cfg, s, script[0]);
    if s.inflight == [] {
    } else {
      assert s.inflight[0] in Elements(cfg.ir.order) by { assert s.inflight[0] in s.inflight; }
      assert SomeAnswer(s.inflight, script[0], |s.inflight|);
    }
    match OnePass(cfg, s, script[0])
    case Going(t) =>
      forall k, n | 0 <= k < |script[1..]| && n in cfg.ir.order ensures AnswerFor(script[1..][k], n) != StillRunning {
        assert script[1..][k] == script[k + 1];
      }
      AnsweringTerminates(cfg, t, script[1..]);
    case Ended(_) =>
    case Aborted =>
  }
}
