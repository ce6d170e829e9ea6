/** The orchestrator's loop over its mutable state. */
module Orchestrator {
  import opened Graphs
  import opened Wrappers
  import opened Json
  import opened WhenValues
  import opened OrchestratorSpec
  import opened OrchestratorInvariant
  import opened OrchestratorRuns
  import WhenEvaluator

  /** Evaluating the conditions of the edges whose source completed. */
  method FiringEdges(edges: seq<InEdge>, statuses: map<Node, Status>, view: Snapshot, trigger: Node)
    returns (r: Option<seq<InEdge>>)
    ensures r == Firing(edges, statuses, view, trigger)
  {
    var fired: seq<InEdge> := [];
    for i := 0 to |edges|
      invariant Firing(edges[..i], statuses, view, trigger) == Some(fired)
    {
      var edge := edges[i];
      assert edges[..i + 1][..i] == edges[..i];
      if IsCompleted(statuses, edge.source) {
        if edge.when == "" {
          fired := fired + [edge];
        } else {
          var holds := WhenEvaluator.EvalWhen(edge.when, view, trigger);
          if holds.Fail? {
            FiringStuck(edges, statuses, view, trigger, i + 1);
            return None;
          }
          if holds.v == Bool(true) {
            fired := fired + [edge];
          }
        }
      }
    }
    assert edges[..|edges|] == edges;
    return Some(fired);
  }

  lemma {:induction false} FiringStuck(edges: seq<InEdge>, statuses: map<Node, Status>, view: Snapshot, trigger: Node,
                                       i: nat)
    requires i <= |edges| && Firing(edges[..i], statuses, view, trigger).None?
    ensures Firing(edges, statuses, view, trigger).None?
    decreases |edges| - i
  {
    if i < |edges| {
      assert edges[..i + 1][..i] == edges[..i];
      FiringStuck(edges, statuses, view, trigger, i + 1);
    } else {
      assert edges[..i] == edges;
    }
  }

  method ResolveMapping(mapping: seq<(string, Mapped)>, view: Snapshot, trigger: Node)
    returns (r: Option<seq<(string, Json)>>)
    ensures r == ResolveAll(mapping, view, trigger)
  {
    var values: seq<(string, Json)> := [];
    for i := 0 to |mapping|
      invariant ResolveAll(mapping[..i], view, trigger) == Some(values)
    {
      assert mapping[..i + 1][..i] == mapping[..i];
      var v := MappedValue(mapping[i].1, view, trigger);
      if v.None? {
        ResolveStuck(mapping, view, trigger, i + 1);
        return None;
      }
      values := values + [(mapping[i].0, v.value)];
    }
    assert mapping[..|mapping|] == mapping;
    return Some(values);
  }

  lemma {:induction false} ResolveStuck(mapping: seq<(string, Mapped)>, view: Snapshot, trigger: Node, i: nat)
    requires i <= |mapping| && ResolveAll(mapping[..i], view, trigger).None?
    ensures ResolveAll(mapping, view, trigger).None?
    decreases |mapping| - i
  {
    if i < |mapping| {
      assert mapping[..i + 1][..i] == mapping[..i];
      ResolveStuck(mapping, view, trigger, i + 1);
    } else {
      assert mapping[..i] == mapping;
    }
  }

  /** Merging the mappings of the firing edges, key by key. */
  method MergeInputs(edges: seq<InEdge>, view: Snapshot, trigger: Node) returns (r: Merge)
    ensures r == MergeEdges(edges, view, trigger)
  {
    var input: Payload := map[];
    for i := 0 to |edges|
      invariant MergeEdges(edges[..i], view, trigger) == Merged(input)
    {
      assert edges[..i + 1][..i] == edges[..i];
      var part := ResolveMapping(edges[i].mapping, view, trigger);
      if part.None? {
        MergeStuck(edges, view, trigger, i + 1);
        return MergeRaises;
      }
      var values := part.value;
      ghost var before := input;
      for j := 0 to |values|
        invariant Put(Merged(before), values[..j]) == Merged(input)
      {
        assert values[..j + 1][..j] == values[..j];
        var (key, value) := values[j];
        if key in input && !PyEq(input[key], value) {
          PutStuck(Merged(before), values, j + 1);
          MergeStuck(edges, view, trigger, i + 1);
          return Conflict;
        }
        input := input[key := value];
      }
      assert values[..|values|] == values;
    }
    assert edges[..|edges|] == edges;
    return Merged(input);
  }

  lemma {:induction false} PutStuck(m: Merge, values: seq<(string, Json)>, j: nat)
    requires j <= |values| && Put(m, values[..j]) == Conflict
    ensures Put(m, values) == Conflict
    decreases |values| - j
  {
    if j < |values| {
      assert values[..j + 1][..j] == values[..j];
      PutStuck(m, values, j + 1);
    } else {
      assert values[..j] == values;
    }
  }

  lemma {:induction false} MergeStuck(edges: seq<InEdge>, view: Snapshot, trigger: Node, i: nat)
    requires i <= |edges| && !MergeEdges(edges[..i], view, trigger).Merged?
    ensures MergeEdges(edges, view, trigger) == MergeEdges(edges[..i], view, trigger)
    decreases |edges| - i
  {
    if i < |edges| {
      assert edges[..i + 1][..i] == edges[..i];
      MergeStuck(edges, view, trigger, i + 1);
    } else {
      assert edges[..i] == edges;
    }
  }

  class BpgOrchestrator {
    const cfg: Config
    var pending: set<Node>
    var inflight: seq<Node>
    var inputs: map<Node, Payload>
    var statuses: map<Node, Status>
    var outputs: map<Node, Json>
    var log: seq<Event>
    var failed: bool

    /** The run state as a value. */
    function Now(): State
      reads this
    {
      State(pending, inflight, inputs, statuses, outputs, log, failed)
    }

    constructor (cfg: Config)
      requires Compiled(cfg.ir)
      ensures this.cfg == cfg && Now() == Start(cfg)
    {
      this.cfg := cfg;
      pending, inflight, inputs := set n | n in cfg.ir.order, [], map[];
      statuses, outputs, log, failed := map[], map[], [], false;
    }

    /** What `_schedule_if_ready` decides about a node. */
    method Decide(n: Node) returns (r: Readiness)
      requires n in cfg.ir.incoming && n in cfg.ir.specs
      ensures r == Readying(cfg, n, statuses, outputs)
    {
      var incoming := cfg.ir.incoming[n];
      var view := Snapshot(cfg.input, outputs);
      if n == cfg.ir.trigger {
        return Checked(cfg.ir.specs[n], cfg.input);
      }
      if incoming == [] {
        return Checked(cfg.ir.specs[n], map[]);
      }
      if exists i :: 0 <= i < |incoming| && !Terminal(statuses, incoming[i].source) {
        return NotReady;
      }
      var fired := FiringEdges(incoming, statuses, view, cfg.ir.trigger);
      if fired.None? {
        return Raises;
      }
      if fired.value == [] {
        return Skip;
      }
      var merged := MergeInputs(fired.value, view, cfg.ir.trigger);
      match merged
      case Conflict => return Fails;
      case MergeRaises => return Raises;
      case Merged(input) => return Checked(cfg.ir.specs[n], input);
    }

    /** Handles one pending node; false when an exception escapes. */
    method ScheduleIfReady(n: Node) returns (ok: bool, progressed: bool)
      requires n in cfg.ir.incoming && n in cfg.ir.specs && n in pending
      modifies this
      ensures ok == Schedule(cfg, old(Now()), n).Some?
      ensures ok ==> Now() == Schedule(cfg, old(Now()), n).value && progressed == (Now() != old(Now()))
    {
      ok, progressed := true, true;
      var found := Decide(n);
      match found
      case NotReady => progressed := false;
      case Raises => ok := false;
      case Skip =>
        statuses := statuses[n := Skipped];
        log := log + [Event(NodeCompleted, n, Skipped)];
        pending := pending - {n};
      case Fails =>
        statuses := statuses[n := Failed];
        log := log + [Event(NodeFailed, n, Failed)];
        failed := true;
        pending := pending - {n};
      case Go(input) =>
        if cfg.starts(n, input) {
          statuses := statuses[n := Running];
          log := log + [Event(NodeScheduled, n, Running)];
          pending := pending - {n};
          inflight, inputs := inflight + [n], inputs[n := input];
        } else {
          ok := false;
        }
    }

    /** Polls one task and records its outcome; false when an exception escapes. */
    method PollOne(n: Node, answer: Answer) returns (ok: bool, progressed: bool)
      requires n in cfg.ir.specs
      modifies this
      ensures ok == Poll(cfg, old(Now()), n, answer).Some?
      ensures ok ==> Now() == Poll(cfg, old(Now()), n, answer).value && progressed == (answer != StillRunning)
    {
      ok, progressed := true, true;
      match answer
      case StillRunning => progressed := false;
      case PollRaises => ok := false;
      case Late =>
        statuses := statuses[n := TimedOut];
        log := log + [Event(NodeFailed, n, TimedOut)];
        inflight := Without(inflight, n);
        failed := true;
      case Finished(output) =>
        inflight := Without(inflight, n);
        if ValidPayload(cfg.ir.specs[n].outFields, PayloadOf(output)) {
          outputs := outputs[n := Obj(PayloadOf(output))];
          statuses := statuses[n := Completed];
          log := log + [Event(NodeCompleted, n, Completed)];
        } else {
          ok := false;
        }
      case Broken =>
        inflight := Without(inflight, n);
        statuses := statuses[n := Failed];
        log := log + [Event(NodeFailed, n, Failed)];
        failed := true;
    }

    /** One scheduling pass over the topological order. */
    method SweepPass() returns (ok: bool, progressed: bool)
      requires Inv(cfg, Now())
      modifies this
      ensures Elements(cfg.ir.order) <= cfg.ir.incoming.Keys * cfg.ir.specs.Keys
      ensures ok == Sweep(cfg, old(Now()), |cfg.ir.order|).Some?
      ensures ok ==> Now() == Sweep(cfg, old(Now()), |cfg.ir.order|).value && progressed == (Now() != old(Now()))
    {
      hide Inv, Schedule, Continues, Work;
      OrderIsKnown(cfg, Now());
      ghost var start := Now();
      ok, progressed := true, false;
      for k := 0 to |cfg.ir.order|
        invariant Sweep(cfg, start, k) == Some(Now()) && progressed == (Now() != start)
      {
        var n := cfg.ir.order[k];
        assert n in Elements(cfg.ir.order);
        SweepKeeps(cfg, start, k);
        if n in pending {
          ScheduleKeeps(cfg, Now(), n);
          var good, moved := ScheduleIfReady(n);
          if !good {
            SweepStuck(cfg, start, k + 1);
            return false, progressed;
          }
          progressed := progressed || moved;
        }
        SweepKeeps(cfg, start, k + 1);
      }
    }

    /** One polling pass over the tasks in flight at its start. */
    method PollAll(answers: Answers) returns (ok: bool, progressed: bool)
      requires Inv(cfg, Now())
      modifies this
      ensures Elements(old(inflight)) <= cfg.ir.specs.Keys
      ensures ok == PollPass(cfg, old(Now()), old(inflight), answers, |old(inflight)|).Some?
      ensures ok ==>
        Now() == PollPass(cfg, old(Now()), old(inflight), answers, |old(inflight)|).value
        && progressed == (Now() != old(Now()))
    {
      hide Inv, Poll, Continues, Work;
      OrderIsKnown(cfg, Now());
      ghost var start := Now();
      var tasks := inflight;
      ok, progressed := true, false;
      for k := 0 to |tasks|
        invariant PollPass(cfg, start, tasks, answers, k) == Some(Now()) && progressed == SomeAnswer(tasks, answers, k)
      {
        assert tasks[k] in Elements(tasks);
        var good, moved := PollOne(tasks[k], AnswerFor(answers, tasks[k]));
        if !good {
          PollStuck(cfg, start, tasks, answers, k + 1);
          return false, progressed;
        }
        progressed := progressed || moved;
      }
      PollPassKeeps(cfg, start, answers, |tasks|);
    }

    /** The loop, under a list of polling answers. */
    method Loop(script: seq<Answers>) returns (r: Progress)
      requires Compiled(cfg.ir) && Now() == Start(cfg)
      modifies this
      ensures Inv(cfg, old(Now())) && r == Run(cfg, old(Now()), script)
      ensures !r.Aborted? ==> r.s == Now()
    {
      hide Inv, Continues, Sweep, PollPass, Work, Compiled, Start;
      StartHolds(cfg);
      ghost var start := Now();
      var turn := 0;
      assert script[0..] == script;
      while pending != {} || inflight != []
        invariant turn <= |script| && Inv(cfg, Now())
        invariant Run(cfg, start, script) == Run(cfg, Now(), script[turn..])
        decreases |script| - turn
      {
        if turn == |script| {
          return Going(Now());
        }
        ghost var here := Now();
        PassKeeps(cfg, here, script[turn]);
        assert script[turn..][0] == script[turn] && script[turn..][1..] == script[turn + 1..];
        SweepKeeps(cfg, Now(), |cfg.ir.order|);
        var ok, progressed := SweepPass();
        if !ok {
          return Aborted;
        }
        if failed {
          return Ended(Now());
        }
        PollPassKeeps(cfg, Now(), script[turn], |inflight|);
        ghost var swept := Now();
        var polled, moved := PollAll(script[turn]);
        if !polled {
          return Aborted;
        }
        progressed := progressed || moved;
        NoNetChange(cfg, here, swept, Now(), script[turn]);
        if !progressed && inflight == [] {
          return Ended(Now());
        }
        turn := turn + 1;
      }
      return Ended(Now());
    }
  }

  /** A pass changes the state exactly if its sweep or its polls do. */
  lemma NoNetChange(cfg: Config, s: State, swept: State, t: State, answers: Answers)
    requires Inv(cfg, s) && Inv(cfg, swept)
    requires Elements(cfg.ir.order) <= cfg.ir.incoming.Keys * cfg.ir.specs.Keys
      && Elements(swept.inflight) <= cfg.ir.specs.Keys
    requires Sweep(cfg, s, |cfg.ir.order|) == Some(swept)
    requires PollPass(cfg, swept, swept.inflight, answers, |swept.inflight|) == Some(t)
    ensures t != s <==> swept != s || t != swept
  {
    hide Inv, Continues, Sweep, PollPass;
    SweepKeeps(cfg, s, |cfg.ir.order|);
    PollPassKeeps(cfg, swept, answers, |swept.inflight|);
  }

  lemma {:induction false} SweepStuck(cfg: Config, s: State, k: nat)
    requires k <= |cfg.ir.order| && Elements(cfg.ir.order) <= cfg.ir.incoming.Keys * cfg.ir.specs.Keys
    requires Sweep(cfg, s, k).None?
    ensures Sweep(cfg, s, |cfg.ir.order|).None?
    decreases |cfg.ir.order| - k
  {
    if k == |cfg.ir.order| {
    } else {
      SweepStuck(cfg, s, k + 1);
    }
  }

  lemma {:induction false} PollStuck(cfg: Config, s: State, tasks: seq<Node>, answers: Answers, k: nat)
    requires k <= |tasks| && Elements(tasks) <= cfg.ir.specs.Keys
    requires PollPass(cfg, s, tasks, answers, k).None?
    ensures PollPass(cfg, s, tasks, answers, |tasks|).None?
    decreases |tasks| - k
  {
    if k == |tasks| {
    } else {
      PollStuck(cfg, s, tasks, answers, k + 1);
    }
  }
}
