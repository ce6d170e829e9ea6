/** The order in which tasks complete does not matter: every run agrees with evaluating the nodes one by
    one in topological order. */
module ScheduleIndependence {
  import opened Graphs
  import opened Wrappers
  import opened Json
  import opened WhenValues
  import opened OrchestratorSpec
  import opened OrchestratorInvariant
  import opened OrchestratorRuns

  /** A deterministic engine: what a task delivers is a function of the node and its input. */
  datatype TaskResult = Delivers(output: Option<Payload>) | Breaks

  type Work = (Node, Payload) -> TaskResult

  function AnswerOf(result: TaskResult): Answer {
    match result
    case Delivers(output) => Finished(output)
    case Breaks => Broken
  }

  // ------------------------------------------------------------------ the reference evaluation

  datatype Table = Table(statuses: map<Node, Status>, outputs: map<Node, Json>)

  /** Evaluating one node to the end; a node whose evaluation raises gets no status. */
  function Settle(cfg: Config, work: Work, t: Table, n: Node): Table
    requires n in cfg.ir.incoming && n in cfg.ir.specs
  {
    match Readying(cfg, n, t.statuses, t.outputs)
    case NotReady => t
    case Raises => t
    case Skip => t.(statuses := t.statuses[n := Skipped])
    case Fails => t.(statuses := t.statuses[n := Failed])
    case Go(input) =>
      if !cfg.starts(n, input) then t
      else
        match work(n, input)
        case Breaks => t.(statuses := t.statuses[n := Failed])
        case Delivers(output) =>
          if !ValidPayload(cfg.ir.specs[n].outFields, PayloadOf(output)) then t
          else Table(t.statuses[n := Completed], t.outputs[n := Obj(PayloadOf(output))])
  }

  /** The first k nodes of the order, one after the other. */
  ghost function Reference(cfg: Config, work: Work, k: nat): Table
    requires Compiled(cfg.ir) && k <= |cfg.ir.order|
  {
    if k == 0 then Table(map[], map[])
    else
      assert cfg.ir.order[k - 1] in Elements(cfg.ir.order);
      Settle(cfg, work, Reference(cfg, work, k - 1), cfg.ir.order[k - 1])
  }

  ghost function Whole(cfg: Config, work: Work): Table
    requires Compiled(cfg.ir)
  {
    Reference(cfg, work, |cfg.ir.order|)
  }

  /** Every node evaluates, and none fails. */
  ghost predicate Clean(cfg: Config, t: Table) {
    forall n :: n in cfg.ir.order ==> n in t.statuses && t.statuses[n] != Failed
  }

  /** Both tables say the same about n. */
  predicate SameAt(a: Table, b: Table, n: Node) {
    (n in a.statuses <==> n in b.statuses) && (n in a.statuses ==> a.statuses[n] == b.statuses[n])
    && (n in a.outputs <==> n in b.outputs) && (n in a.outputs ==> a.outputs[n] == b.outputs[n])
  }

  lemma SettleTouchesOne(cfg: Config, work: Work, t: Table, n: Node)
    requires n in cfg.ir.incoming && n in cfg.ir.specs
    ensures forall m :: m != n ==> SameAt(t, Settle(cfg, work, t, n), m)
  {
    hide Readying, ValidPayload;
  }

  lemma {:induction false} ReferenceIsStable(cfg: Config, work: Work, k: nat, m: nat, n: Node)
    requires Compiled(cfg.ir) && k <= m <= |cfg.ir.order| && n !in cfg.ir.order[k..m]
    ensures SameAt(Reference(cfg, work, k), Reference(cfg, work, m), n)
    decreases m
  {
    hide Settle, Compiled;
    if k == m {
    } else {
      assert cfg.ir.order[k..m] == cfg.ir.order[k..m - 1] + [cfg.ir.order[m - 1]];
      assert n != cfg.ir.order[m - 1];
      ReferenceIsStable(cfg, work, k, m - 1, n);
      NodeIsKnown(cfg, m - 1);
      var before, last := Reference(cfg, work, m - 1), cfg.ir.order[m - 1];
      SettleTouchesOne(cfg, work, before, last);
      assert Reference(cfg, work, m) == Settle(cfg, work, before, last);
      assert SameAt(before, Settle(cfg, work, before, last), n);
    }
  }

  lemma NodeIsKnown(cfg: Config, k: nat)
    requires Compiled(cfg.ir) && k < |cfg.ir.order|
    ensures cfg.ir.order[k] in cfg.ir.incoming && cfg.ir.order[k] in cfg.ir.specs
  {
    assert cfg.ir.order[k] in Elements(cfg.ir.order);
  }

  /** What the first k nodes evaluated to is what the whole evaluation says about them. */
  lemma EarlierIsFinal(cfg: Config, work: Work, k: nat, n: Node)
    requires Compiled(cfg.ir) && k <= |cfg.ir.order| && n in cfg.ir.order[..k]
    ensures SameAt(Reference(cfg, work, k), Whole(cfg, work), n)
  {
    hide Settle;
    assert n !in cfg.ir.order[k..];
    ReferenceIsStable(cfg, work, k, |cfg.ir.order|, n);
  }

  // ------------------------------------------------------------------ what a node may look at

  ghost predicate Feeds(ir: IR, a: Node, n: Node) {
    n in ir.incoming && exists i :: 0 <= i < |ir.incoming[n]| && ir.incoming[n][i].source == a
  }

  ghost predicate IsChain(ir: IR, p: seq<Node>) {
    forall i :: 0 <= i < |p| - 1 ==> Feeds(ir, p[i], p[i + 1])
  }

  ghost predicate Ancestor(ir: IR, a: Node, n: Node) {
    exists p :: |p| >= 2 && p[0] == a && p[|p| - 1] == n && IsChain(ir, p)
  }

  function MappingReads(mapping: seq<(string, Mapped)>, trigger: Node): set<Node> {
    set m | m in mapping && m.1.Reference? && NodeRead(m.1.path, trigger).Some? :: NodeRead(m.1.path, trigger).value
  }

  function EdgeReads(e: InEdge, trigger: Node): set<Node> {
    ConditionReads(e.when, trigger) + MappingReads(e.mapping, trigger)
  }

  /** Conditions and mappings refer to the trigger input and to ancestors of the edge's target only. */
  ghost predicate Scoped(ir: IR) {
    forall n, e :: n in ir.incoming && e in ir.incoming[n] ==> ReadsAncestors(ir, e, n)
  }

  ghost predicate ReadsAncestors(ir: IR, e: InEdge, n: Node) {
    forall a :: a in EdgeReads(e, ir.trigger) ==> Ancestor(ir, a, n)
  }

  lemma ChainPrefix(ir: IR, p: seq<Node>, m: nat)
    requires IsChain(ir, p) && m <= |p|
    ensures IsChain(ir, p[..m])
  {
    var q := p[..m];
    forall i | 0 <= i < |q| - 1 ensures Feeds(ir, q[i], q[i + 1]) {
      assert Feeds(ir, p[i], p[i + 1]);
    }
  }

  lemma FeederIsSettled(ir: IR, statuses: map<Node, Status>, a: Node, n: Node)
    requires n in ir.incoming && AllTerminal(ir.incoming[n], statuses) && Feeds(ir, a, n)
    ensures Terminal(statuses, a)
  {
  }

  lemma FeedersAreSettled(cfg: Config, s: State, a: Node, n: Node)
    requires Inv(cfg, s) && Terminal(s.statuses, n) && Feeds(cfg.ir, a, n)
    ensures n in cfg.ir.incoming && AllTerminal(cfg.ir.incoming[n], s.statuses)
  {
    hide Compiled, AllTerminal, Tracked, InflightRuns, OutputsRecorded, FailureRecorded, StartedOnce, Replay;
  }

  /** Once a node's sources have settled, so have all its ancestors. */
  lemma {:induction false} ChainSettled(cfg: Config, s: State, p: seq<Node>)
    requires Inv(cfg, s) && |p| >= 2 && IsChain(cfg.ir, p) && p[|p| - 1] in cfg.ir.incoming
    requires AllTerminal(cfg.ir.incoming[p[|p| - 1]], s.statuses)
    ensures Terminal(s.statuses, p[0])
    decreases |p|
  {
    hide Inv, AllTerminal, Feeds, Terminal;
    var m := |p| - 2;
    assert Feeds(cfg.ir, p[m], p[m + 1]);
    FeederIsSettled(cfg.ir, s.statuses, p[m], p[m + 1]);
    if m == 0 {
    } else {
      ChainPrefix(cfg.ir, p, m + 1);
      assert Feeds(cfg.ir, p[m - 1], p[m]);
      FeedersAreSettled(cfg, s, p[m - 1], p[m]);
      ChainSettled(cfg, s, p[..m + 1]);
    }
  }

  lemma FeederIsEarlier(ir: IR, a: Node, k: nat) returns (j: nat)
    requires Compiled(ir) && k < |ir.order| && Feeds(ir, a, ir.order[k])
    ensures j < k && ir.order[j] == a
  {
    var edges := ir.incoming[ir.order[k]];
    assert SourcesIn(edges, ir.order[..k]);
    var i :| 0 <= i < |edges| && edges[i].source == a;
    assert edges[i] in edges;
    j :| 0 <= j < k && ir.order[..k][j] == a;
  }

  lemma {:induction false} ChainIsOrdered(ir: IR, p: seq<Node>, k: nat)
    requires Compiled(ir) && |p| >= 2 && IsChain(ir, p) && k < |ir.order| && ir.order[k] == p[|p| - 1]
    ensures p[0] in ir.order[..k]
    decreases |p|
  {
    hide Compiled, Feeds;
    var m := |p| - 2;
    assert Feeds(ir, p[m], p[m + 1]);
    var j := FeederIsEarlier(ir, p[m], k);
    if m == 0 {
      assert ir.order[..k][j] == p[0];
    } else {
      ChainPrefix(ir, p, m + 1);
      ChainIsOrdered(ir, p[..m + 1], j);
      assert ir.order[..k][..j] == ir.order[..j];
    }
  }

  // ------------------------------------------------------------------ equal views, equal decisions

  /** Two states that agree on the edges' sources and on everything the edges read. */
  ghost predicate AgreeFor(edges: seq<InEdge>, trigger: Node, a: Table, b: Table) {
    forall e :: e in edges ==>
      SameAt(a, b, e.source) && forall x :: x in EdgeReads(e, trigger) ==> SameAt(a, b, x)
  }

  lemma ReadsAgree(e: InEdge, input: Payload, trigger: Node, a: Table, b: Table)
    requires forall x :: x in EdgeReads(e, trigger) ==> SameAt(a, b, x)
    ensures Agree(Snapshot(input, a.outputs), Snapshot(input, b.outputs), ConditionReads(e.when, trigger))
    ensures Agree(Snapshot(input, a.outputs), Snapshot(input, b.outputs), MappingReads(e.mapping, trigger))
  {
    hide ConditionReads, MappingReads;
    forall x | x in ConditionReads(e.when, trigger) || x in MappingReads(e.mapping, trigger) ensures SameAt(a, b, x) {
      assert x in EdgeReads(e, trigger);
    }
  }

  lemma {:induction false} FiringDepends(edges: seq<InEdge>, input: Payload, trigger: Node, a: Table, b: Table)
    requires AgreeFor(edges, trigger, a, b)
    ensures Firing(edges, a.statuses, Snapshot(input, a.outputs), trigger)
         == Firing(edges, b.statuses, Snapshot(input, b.outputs), trigger)
  {
    if edges == [] {
    } else {
      var last := edges[|edges| - 1];
      assert last in edges;
      FiringDepends(edges[..|edges| - 1], input, trigger, a, b);
      ReadsAgree(last, input, trigger, a, b);
      HoldsDepends(last.when, Snapshot(input, a.outputs), Snapshot(input, b.outputs), trigger);
    }
  }

  lemma {:induction false} FiredAreEdges(edges: seq<InEdge>, statuses: map<Node, Status>, view: Snapshot, trigger: Node)
    ensures var f := Firing(edges, statuses, view, trigger); f.Some? ==> forall e :: e in f.value ==> e in edges
  {
    if edges == [] {
    } else {
      FiredAreEdges(edges[..|edges| - 1], statuses, view, trigger);
      assert forall e :: e in edges[..|edges| - 1] + [edges[|edges| - 1]] ==> e in edges;
    }
  }

  lemma {:induction false} ResolveAllDepends(mapping: seq<(string, Mapped)>, a: Snapshot, b: Snapshot, trigger: Node)
    requires Agree(a, b, MappingReads(mapping, trigger))
    ensures ResolveAll(mapping, a, trigger) == ResolveAll(mapping, b, trigger)
  {
    if mapping == [] {
    } else {
      var last := mapping[|mapping| - 1];
      assert last in mapping;
      assert MappingReads(mapping[..|mapping| - 1], trigger) <= MappingReads(mapping, trigger);
      ResolveAllDepends(mapping[..|mapping| - 1], a, b, trigger);
      if last.1.Reference? {
        if NodeRead(last.1.path, trigger).Some? {
          assert NodeRead(last.1.path, trigger).value in MappingReads(mapping, trigger);
        }
        ResolveDepends(last.1.path, a, b, trigger);
      }
    }
  }

  lemma {:induction false} MergeDepends(edges: seq<InEdge>, input: Payload, trigger: Node, a: Table, b: Table)
    requires AgreeFor(edges, trigger, a, b)
    ensures MergeEdges(edges, Snapshot(input, a.outputs), trigger)
      == MergeEdges(edges, Snapshot(input, b.outputs), trigger)
  {
    if edges == [] {
    } else {
      var last := edges[|edges| - 1];
      assert last in edges;
      MergeDepends(edges[..|edges| - 1], input, trigger, a, b);
      ReadsAgree(last, input, trigger, a, b);
      ResolveAllDepends(last.mapping, Snapshot(input, a.outputs), Snapshot(input, b.outputs), trigger);
    }
  }

  lemma ReadyingDepends(cfg: Config, n: Node, a: Table, b: Table)
    requires n in cfg.ir.incoming && n in cfg.ir.specs
    requires AgreeFor(cfg.ir.incoming[n], cfg.ir.trigger, a, b)
    ensures Readying(cfg, n, a.statuses, a.outputs) == Readying(cfg, n, b.statuses, b.outputs)
  {
    hide Firing, MergeEdges, Checked, EdgeReads;
    var edges := cfg.ir.incoming[n];
    FiringDepends(edges, cfg.input, cfg.ir.trigger, a, b);
    var fired := Firing(edges, a.statuses, Snapshot(cfg.input, a.outputs), cfg.ir.trigger);
    forall i | 0 <= i < |edges| ensures Terminal(a.statuses, edges[i].source) <==> Terminal(b.statuses, edges[i].source)
    {
      assert edges[i] in edges;
    }
    if fired.Some? {
      FiredAreEdges(edges, a.statuses, Snapshot(cfg.input, a.outputs), cfg.ir.trigger);
      MergeDepends(fired.value, cfg.input, cfg.ir.trigger, a, b);
    }
  }

  // ------------------------------------------------------------------ runs follow the reference

  /** The settled part of a state is a part of the reference evaluation, and every task was started on the
      reference's input. */
  ghost predicate Follows(cfg: Config, work: Work, s: State)
    requires Compiled(cfg.ir)
  {
    forall k :: 0 <= k < |cfg.ir.order| ==> FollowsAt(cfg, work, s, k)
  }

  ghost predicate FollowsAt(cfg: Config, work: Work, s: State, k: nat)
    requires Compiled(cfg.ir) && k < |cfg.ir.order|
  {
    var n := cfg.ir.order[k];
    && (Terminal(s.statuses, n) ==> SameAt(Table(s.statuses, s.outputs), Whole(cfg, work), n))
    && (n in s.inputs ==> ReferenceGoes(cfg, work, k) && s.inputs[n] == ReferenceInput(cfg, work, k))
    && (n in s.inflight || IsCompleted(s.statuses, n) ==> n in s.inputs)
  }

  /** In the reference evaluation node k is started, on some input. */
  ghost predicate ReferenceGoes(cfg: Config, work: Work, k: nat)
    requires Compiled(cfg.ir) && k < |cfg.ir.order|
  {
    var t := Reference(cfg, work, k);
    NodeIsKnown(cfg, k);
    var r := Readying(cfg, cfg.ir.order[k], t.statuses, t.outputs);
    r.Go? && cfg.starts(cfg.ir.order[k], r.input)
  }

  ghost function ReferenceInput(cfg: Config, work: Work, k: nat): Payload
    requires Compiled(cfg.ir) && k < |cfg.ir.order| && ReferenceGoes(cfg, work, k)
  {
    var t := Reference(cfg, work, k);
    NodeIsKnown(cfg, k);
    Readying(cfg, cfg.ir.order[k], t.statuses, t.outputs).input
  }

  /** The answer of a deterministic engine to node k's task in the reference evaluation. */
  ghost function ReferenceAnswer(cfg: Config, work: Work, k: nat): Answer
    requires Compiled(cfg.ir) && k < |cfg.ir.order| && ReferenceGoes(cfg, work, k)
  {
    AnswerOf(work(cfg.ir.order[k], ReferenceInput(cfg, work, k)))
  }

  // ------------------------------------------------------------------ deterministic engines

  /** Each task in flight is still running, or delivers what the engine makes of the node and the input the task
      was started on. */
  predicate Delivered(work: Work, s: State, answers: Answers) {
    forall n :: n in s.inflight && n in s.inputs ==>
      AnswerFor(answers, n) == StillRunning || AnswerFor(answers, n) == AnswerOf(work(n, s.inputs[n]))
  }

  /** The answers of one pass, given to the tasks that are in flight when it polls. */
  ghost predicate DeterministicPass(cfg: Config, work: Work, s: State, answers: Answers)
    requires Inv(cfg, s)
  {
    SweepKeeps(cfg, s, |cfg.ir.order|);
    var swept := Sweep(cfg, s, |cfg.ir.order|);
    swept.Some? && !swept.value.failed ==> Delivered(work, swept.value, answers)
  }

  /** The answers of the passes the run comes to make. */
  ghost predicate DeterministicFrom(cfg: Config, work: Work, s: State, script: seq<Answers>)
    requires Inv(cfg, s)
    decreases |script|
  {
    script == []
    || (&& DeterministicPass(cfg, work, s, script[0])
        && (PassKeeps(cfg, s, script[0]);
            match OnePass(cfg, s, script[0])
            case Going(t) => DeterministicFrom(cfg, work, t, script[1..])
            case _ => true))
  }

  /** Tasks answer in any order and at any time, but what a task delivers depends on its node and its input only: no
      deadline passes and no poll raises. */
  ghost predicate Deterministic(cfg: Config, work: Work, script: seq<Answers>)
    requires Compiled(cfg.ir)
  {
    StartHolds(cfg);
    DeterministicFrom(cfg, work, Start(cfg), script)
  }

  /** A pending node whose sources have settled is found in the state the reference finds it in. */
  lemma SameReadiness(cfg: Config, work: Work, s: State, k: nat)
    requires Inv(cfg, s) && Scoped(cfg.ir) && Follows(cfg, work, s) && k < |cfg.ir.order|
    requires cfg.ir.order[k] in cfg.ir.incoming && cfg.ir.order[k] in cfg.ir.specs
    requires AllTerminal(cfg.ir.incoming[cfg.ir.order[k]], s.statuses)
    ensures var t := Reference(cfg, work, k);
      Readying(cfg, cfg.ir.order[k], s.statuses, s.outputs) == Readying(cfg, cfg.ir.order[k], t.statuses, t.outputs)
  {
    assert Compiled(cfg.ir);
    hide Settle, Readying, Whole, Reference, EdgeReads, Inv, Follows, Scoped, SameAt, AllTerminal, Compiled;
    var n := cfg.ir.order[k];
    var edges := cfg.ir.incoming[n];
    var here, there := Table(s.statuses, s.outputs), Reference(cfg, work, k);
    forall e | e in edges
      ensures SameAt(here, there, e.source) && forall x :: x in EdgeReads(e, cfg.ir.trigger) ==> SameAt(here, there, x)
    {
      EdgeAgrees(cfg, work, s, k, e);
    }
    ReadyingDepends(cfg, n, here, there);
  }

  lemma CompiledRuns(cfg: Config, s: State)
    requires Inv(cfg, s)
    ensures Compiled(cfg.ir)
  {
  }

  lemma SourceIsAncestor(ir: IR, n: Node, e: InEdge)
    requires n in ir.incoming && e in ir.incoming[n]
    ensures Ancestor(ir, e.source, n)
  {
    var i :| 0 <= i < |ir.incoming[n]| && ir.incoming[n][i] == e;
    var p := [e.source, n];
    assert Feeds(ir, p[0], p[1]) && IsChain(ir, p);
  }

  lemma AncestorAgrees(cfg: Config, work: Work, s: State, k: nat, a: Node)
    requires Inv(cfg, s) && Compiled(cfg.ir) && Follows(cfg, work, s) && k < |cfg.ir.order|
    requires cfg.ir.order[k] in cfg.ir.incoming && Ancestor(cfg.ir, a, cfg.ir.order[k])
    requires AllTerminal(cfg.ir.incoming[cfg.ir.order[k]], s.statuses)
    ensures SameAt(Table(s.statuses, s.outputs), Reference(cfg, work, k), a)
  {
    hide Compiled, Reference, Inv, Follows, SameAt, AllTerminal, IsChain;
    var p :| |p| >= 2 && p[0] == a && p[|p| - 1] == cfg.ir.order[k] && IsChain(cfg.ir, p);
    SettledAgrees(cfg, work, s, k, p);
  }

  lemma EdgeAgrees(cfg: Config, work: Work, s: State, k: nat, e: InEdge)
    requires Inv(cfg, s) && Scoped(cfg.ir) && Follows(cfg, work, s) && k < |cfg.ir.order|
    requires cfg.ir.order[k] in cfg.ir.incoming && e in cfg.ir.incoming[cfg.ir.order[k]]
    requires AllTerminal(cfg.ir.incoming[cfg.ir.order[k]], s.statuses)
    ensures var here, there := Table(s.statuses, s.outputs), Reference(cfg, work, k);
      SameAt(here, there, e.source) && forall x :: x in EdgeReads(e, cfg.ir.trigger) ==> SameAt(here, there, x)
  {
    CompiledRuns(cfg, s);
    SourceIsAncestor(cfg.ir, cfg.ir.order[k], e);
    hide Compiled, Ancestor, Reference, EdgeReads, Inv, Follows, SameAt, AllTerminal;
    AncestorAgrees(cfg, work, s, k, e.source);
    forall x | x in EdgeReads(e, cfg.ir.trigger)
      ensures SameAt(Table(s.statuses, s.outputs), Reference(cfg, work, k), x)
    {
      assert ReadsAncestors(cfg.ir, e, cfg.ir.order[k]);
      AncestorAgrees(cfg, work, s, k, x);
    }
  }

  lemma SettledAgrees(cfg: Config, work: Work, s: State, k: nat, p: seq<Node>)
    requires Inv(cfg, s) && Follows(cfg, work, s) && k < |cfg.ir.order|
    requires |p| >= 2 && IsChain(cfg.ir, p) && p[|p| - 1] == cfg.ir.order[k] && cfg.ir.order[k] in cfg.ir.incoming
    requires AllTerminal(cfg.ir.incoming[cfg.ir.order[k]], s.statuses)
    ensures SameAt(Table(s.statuses, s.outputs), Reference(cfg, work, k), p[0])
  {
    hide Settle, Readying, Reference, Whole;
    ChainSettled(cfg, s, p);
    ChainIsOrdered(cfg.ir, p, k);
    var j :| 0 <= j < k && cfg.ir.order[..k][j] == p[0];
    assert FollowsAt(cfg, work, s, j);
    EarlierIsFinal(cfg, work, k, p[0]);
  }

  /** Node k's entry in the whole evaluation is the one its own turn produced. */
  lemma TurnIsFinal(cfg: Config, work: Work, k: nat)
    requires Compiled(cfg.ir) && k < |cfg.ir.order|
    ensures cfg.ir.order[k] in cfg.ir.incoming && cfg.ir.order[k] in cfg.ir.specs
    ensures SameAt(Settle(cfg, work, Reference(cfg, work, k), cfg.ir.order[k]), Whole(cfg, work), cfg.ir.order[k])
    ensures cfg.ir.order[k] !in Reference(cfg, work, k).statuses && cfg.ir.order[k] !in Reference(cfg, work, k).outputs
  {
    hide Settle;
    NodeIsKnown(cfg, k);
    assert cfg.ir.order[..k + 1][k] == cfg.ir.order[k];
    EarlierIsFinal(cfg, work, k + 1, cfg.ir.order[k]);
    assert cfg.ir.order[k] !in cfg.ir.order[0..k];
    ReferenceIsStable(cfg, work, 0, k, cfg.ir.order[k]);
  }

  /** Scheduling follows the reference; an exception here means the reference does not evaluate. */
  lemma ScheduleFollows(cfg: Config, work: Work, s: State, k: nat)
    requires Inv(cfg, s) && Scoped(cfg.ir) && Follows(cfg, work, s) && k < |cfg.ir.order|
    requires cfg.ir.order[k] in s.pending
    ensures cfg.ir.order[k] in cfg.ir.incoming && cfg.ir.order[k] in cfg.ir.specs
    ensures match Schedule(cfg, s, cfg.ir.order[k])
      case Some(t) => Follows(cfg, work, t)
      case None => cfg.ir.order[k] !in Whole(cfg, work).statuses
  {
    hide Readying, Reference, Whole, Compiled, Scoped;
    var n := cfg.ir.order[k];
    TurnIsFinal(cfg, work, k);
    ReadyHasSources(cfg, n, s.statuses, s.outputs);
    if Readying(cfg, n, s.statuses, s.outputs) != NotReady {
      SameReadiness(cfg, work, s, k);
    }
    var t := Schedule(cfg, s, n);
    if t.Some? {
      PendingHasNoOutput(cfg, s, n);
      forall j | 0 <= j < |cfg.ir.order| ensures FollowsAt(cfg, work, t.value, j) {
        assert FollowsAt(cfg, work, s, j);
        DistinctOrder(cfg, j, k);
        if j != k { ScheduleLeavesOthers(cfg, work, s, k, t.value, j); }
      }
    }
  }

  lemma ScheduleLeavesOthers(cfg: Config, work: Work, s: State, k: nat, t: State, j: nat)
    requires Compiled(cfg.ir) && k < |cfg.ir.order| && j < |cfg.ir.order| && cfg.ir.order[j] != cfg.ir.order[k]
    requires cfg.ir.order[k] in cfg.ir.incoming && cfg.ir.order[k] in cfg.ir.specs
    requires Schedule(cfg, s, cfg.ir.order[k]) == Some(t) && FollowsAt(cfg, work, s, j)
    ensures FollowsAt(cfg, work, t, j)
  {
    hide Compiled, ReferenceGoes, ReferenceInput, Whole, Readying;
  }

  lemma DistinctOrder(cfg: Config, j: nat, k: nat)
    requires Compiled(cfg.ir) && j < |cfg.ir.order| && k < |cfg.ir.order|
    ensures cfg.ir.order[j] == cfg.ir.order[k] <==> j == k
  {
  }

  lemma PendingHasNoOutput(cfg: Config, s: State, n: Node)
    requires Inv(cfg, s) && n in s.pending
    ensures n !in s.outputs && n !in s.statuses && n !in s.inflight
  {
    assert n in cfg.ir.order;
  }

  /** So does polling, as long as the answers are the engine's. */
  lemma PollFollows(cfg: Config, work: Work, s: State, k: nat, answer: Answer)
    requires Inv(cfg, s) && Follows(cfg, work, s) && k < |cfg.ir.order| && cfg.ir.order[k] in s.inflight
    requires ReferenceGoes(cfg, work, k) ==> answer == StillRunning || answer == ReferenceAnswer(cfg, work, k)
    ensures cfg.ir.order[k] in cfg.ir.specs
    ensures match Poll(cfg, s, cfg.ir.order[k], answer)
      case Some(t) => Follows(cfg, work, t)
      case None => cfg.ir.order[k] !in Whole(cfg, work).statuses
  {
    hide Readying, Reference, Whole, Compiled;
    var n := cfg.ir.order[k];
    TurnIsFinal(cfg, work, k);
    assert FollowsAt(cfg, work, s, k);
    DistinctInflight(cfg, s);
    WithoutIs(s.inflight, n);
    RunningHasNoOutput(cfg, s, n);
    var t := Poll(cfg, s, n, answer);
    if t.Some? {
      forall j | 0 <= j < |cfg.ir.order| ensures FollowsAt(cfg, work, t.value, j) {
        assert FollowsAt(cfg, work, s, j);
        DistinctOrder(cfg, j, k);
        if j != k { PollLeavesOthers(cfg, work, s, k, answer, t.value, j); }
      }
    }
  }

  /** The engine's answer to a task in flight is its answer in the reference evaluation. */
  lemma DeliveredIsReference(cfg: Config, work: Work, s: State, answers: Answers, j: nat)
    requires Inv(cfg, s) && Compiled(cfg.ir) && Follows(cfg, work, s) && Delivered(work, s, answers)
    requires j < |cfg.ir.order| && cfg.ir.order[j] in s.inflight
    ensures ReferenceGoes(cfg, work, j)
    ensures var answer := AnswerFor(answers, cfg.ir.order[j]);
      answer == StillRunning || answer == ReferenceAnswer(cfg, work, j)
  {
    hide Inv, Compiled, ReferenceGoes, ReferenceInput, Whole, AnswerFor, AnswerOf;
    assert FollowsAt(cfg, work, s, j);
  }

  lemma PollLeavesOthers(cfg: Config, work: Work, s: State, k: nat, answer: Answer, t: State, j: nat)
    requires Compiled(cfg.ir) && k < |cfg.ir.order| && j < |cfg.ir.order| && cfg.ir.order[j] != cfg.ir.order[k]
    requires cfg.ir.order[k] in cfg.ir.specs && Poll(cfg, s, cfg.ir.order[k], answer) == Some(t)
    requires FollowsAt(cfg, work, s, j) && forall m :: m in Without(s.inflight, cfg.ir.order[k]) ==> m in s.inflight
    ensures FollowsAt(cfg, work, t, j)
  {
    hide Compiled, ReferenceGoes, ReferenceInput, Whole, Without, ValidPayload;
  }

  lemma RunningHasNoOutput(cfg: Config, s: State, n: Node)
    requires Inv(cfg, s) && n in s.inflight
    ensures n !in s.outputs && n in s.statuses && s.statuses[n] == Running
    ensures exists k :: 0 <= k < |cfg.ir.order| && cfg.ir.order[k] == n
  {
    assert n in s.statuses && n in Elements(cfg.ir.order);
  }

  lemma {:induction false} SweepFollows(cfg: Config, work: Work, s: State, k: nat)
    requires Inv(cfg, s) && Scoped(cfg.ir) && Follows(cfg, work, s) && k <= |cfg.ir.order|
    requires Elements(cfg.ir.order) <= cfg.ir.incoming.Keys * cfg.ir.specs.Keys
    ensures match Sweep(cfg, s, k)
      case Some(t) => Follows(cfg, work, t)
      case None => exists n :: n in cfg.ir.order && n !in Whole(cfg, work).statuses
  {
    hide Inv, Follows, Schedule, Whole, Scoped;
    if k == 0 {
    } else {
      SweepFollows(cfg, work, s, k - 1);
      SweepKeeps(cfg, s, k - 1);
      var t := Sweep(cfg, s, k - 1);
      if t.Some? && cfg.ir.order[k - 1] in t.value.pending {
        ScheduleFollows(cfg, work, t.value, k - 1);
      }
    }
  }

  lemma {:induction false} PollPassFollows(cfg: Config, work: Work, s: State, answers: Answers, k: nat)
    requires Inv(cfg, s) && Follows(cfg, work, s) && Delivered(work, s, answers) && k <= |s.inflight|
    requires Elements(s.inflight) <= cfg.ir.specs.Keys
    ensures match PollPass(cfg, s, s.inflight, answers, k)
      case Some(t) => Follows(cfg, work, t)
      case None => exists n :: n in cfg.ir.order && n !in Whole(cfg, work).statuses
  {
    hide Inv, Follows, Poll, Whole, Compiled, ReferenceGoes, ReferenceAnswer, Delivered;
    if k == 0 {
    } else {
      PollPassFollows(cfg, work, s, answers, k - 1);
      PollPassKeeps(cfg, s, answers, k - 1);
      var t := PollPass(cfg, s, s.inflight, answers, k - 1);
      if t.Some? {
        RunningHasNoOutput(cfg, t.value, s.inflight[k - 1]);
        var j :| 0 <= j < |cfg.ir.order| && cfg.ir.order[j] == s.inflight[k - 1];
        CompiledRuns(cfg, s);
        DeliveredIsReference(cfg, work, s, answers, j);
        PollFollows(cfg, work, t.value, j, AnswerFor(answers, cfg.ir.order[j]));
      }
    }
  }

  lemma PassFollows(cfg: Config, work: Work, s: State, answers: Answers)
    requires Inv(cfg, s) && Scoped(cfg.ir) && Follows(cfg, work, s) && DeterministicPass(cfg, work, s, answers)
    ensures match OnePass(cfg, s, answers)
      case Aborted => exists n :: n in cfg.ir.order && n !in Whole(cfg, work).statuses
      case Going(t) => Follows(cfg, work, t)
      case Ended(t) => Follows(cfg, work, t)
  {
    hide Inv, Follows, Sweep, PollPass, Whole, Scoped, Delivered, Continues, OrchestratorInvariant.Work;
    SweepKeeps(cfg, s, |cfg.ir.order|);
    SweepFollows(cfg, work, s, |cfg.ir.order|);
    var swept := Sweep(cfg, s, |cfg.ir.order|);
    if swept.Some? && !swept.value.failed {
      PollPassKeeps(cfg, swept.value, answers, |swept.value.inflight|);
      PollPassFollows(cfg, work, swept.value, answers, |swept.value.inflight|);
    }
  }

  lemma {:induction false} RunFollows(cfg: Config, work: Work, s: State, script: seq<Answers>)
    requires Inv(cfg, s) && Scoped(cfg.ir) && Follows(cfg, work, s) && DeterministicFrom(cfg, work, s, script)
    ensures match Run(cfg, s, script)
      case Aborted => exists n :: n in cfg.ir.order && n !in Whole(cfg, work).statuses
      case Going(t) => Follows(cfg, work, t)
      case Ended(t) => Follows(cfg, work, t)
    decreases |script|
  {
    hide Inv, Follows, OnePass, Whole, Scoped, DeterministicPass, Continues;
    if script == [] {
    } else {
      PassKeeps(cfg, s, script[0]);
      PassFollows(cfg, work, s, script[0]);
      match OnePass(cfg, s, script[0])
      case Going(t) => RunFollows(cfg, work, t, script[1..]);
      case Ended(_) =>
      case Aborted =>
    }
  }

  lemma SettleStatus(cfg: Config, work: Work, t: Table, n: Node)
    requires n in cfg.ir.incoming && n in cfg.ir.specs && t.outputs.Keys <= t.statuses.Keys
    ensures var u := Settle(cfg, work, t, n);
      u.outputs.Keys <= u.statuses.Keys <= t.statuses.Keys + {n}
      && forall m :: m in u.statuses ==>
        u.statuses[m] in {Completed, Skipped, Failed} || (m in t.statuses && u.statuses[m] == t.statuses[m])
  {
    hide Readying, ValidPayload;
  }

  lemma {:induction false} ReferenceStatuses(cfg: Config, work: Work, k: nat)
    requires Compiled(cfg.ir) && k <= |cfg.ir.order|
    ensures var t := Reference(cfg, work, k);
      t.statuses.Keys <= Elements(cfg.ir.order[..k]) && t.outputs.Keys <= t.statuses.Keys
      && forall n :: n in t.statuses ==> t.statuses[n] in {Completed, Skipped, Failed}
  {
    hide Settle, Compiled;
    if k == 0 {
    } else {
      ReferenceStatuses(cfg, work, k - 1);
      NodeIsKnown(cfg, k - 1);
      SettleStatus(cfg, work, Reference(cfg, work, k - 1), cfg.ir.order[k - 1]);
      assert Elements(cfg.ir.order[..k]) == Elements(cfg.ir.order[..k - 1]) + {cfg.ir.order[k - 1]};
    }
  }

  /** Every task started so far was started on the input the reference evaluation starts it on. */
  ghost predicate StartsAlike(cfg: Config, work: Work, s: State)
    requires Compiled(cfg.ir)
  {
    forall k :: 0 <= k < |cfg.ir.order| && cfg.ir.order[k] in s.inputs ==>
      ReferenceGoes(cfg, work, k) && s.inputs[cfg.ir.order[k]] == ReferenceInput(cfg, work, k)
  }

  /** And these are all tasks it starts. */
  ghost predicate StartsAll(cfg: Config, work: Work, s: State)
    requires Compiled(cfg.ir)
  {
    forall k :: 0 <= k < |cfg.ir.order| && ReferenceGoes(cfg, work, k) ==> cfg.ir.order[k] in s.inputs
  }

  lemma FollowsStartsAlike(cfg: Config, work: Work, s: State)
    requires Compiled(cfg.ir) && Follows(cfg, work, s)
    ensures StartsAlike(cfg, work, s)
  {
    hide Compiled, ReferenceGoes, ReferenceInput, Whole;
    forall k | 0 <= k < |cfg.ir.order| && cfg.ir.order[k] in s.inputs
      ensures ReferenceGoes(cfg, work, k) && s.inputs[cfg.ir.order[k]] == ReferenceInput(cfg, work, k)
    {
      assert FollowsAt(cfg, work, s, k);
    }
  }

  /** A node the reference evaluation starts, and does not fail, completes. */
  lemma StartedCompletes(cfg: Config, work: Work, k: nat)
    requires Compiled(cfg.ir) && Clean(cfg, Whole(cfg, work)) && k < |cfg.ir.order| && ReferenceGoes(cfg, work, k)
    ensures IsCompleted(Whole(cfg, work).statuses, cfg.ir.order[k])
  {
    hide Compiled, Reference, Whole, Readying, ValidPayload;
    TurnIsFinal(cfg, work, k);
    assert cfg.ir.order[k] in cfg.ir.order;
  }

  lemma CompletedStartsAll(cfg: Config, work: Work, s: State)
    requires Compiled(cfg.ir) && Follows(cfg, work, s) && Clean(cfg, Whole(cfg, work))
      && s.statuses == Whole(cfg, work).statuses
    ensures StartsAll(cfg, work, s)
  {
    hide Compiled, ReferenceGoes, ReferenceInput, Whole, Clean;
    forall k | 0 <= k < |cfg.ir.order| && ReferenceGoes(cfg, work, k) ensures cfg.ir.order[k] in s.inputs {
      StartedCompletes(cfg, work, k);
      assert FollowsAt(cfg, work, s, k);
    }
  }

  lemma StartFollows(cfg: Config, work: Work)
    requires Compiled(cfg.ir)
    ensures Follows(cfg, work, Start(cfg))
  {
    hide Compiled, ReferenceGoes, ReferenceInput, Whole;
  }

  /** If what a task delivers depends on its node and input only, the order in which tasks complete does not matter:
      every task is started on the input it has when the nodes are evaluated one by one, a run that ends is reported
      completed exactly when that evaluation succeeds everywhere, and then has started the same tasks and has the
      same statuses and outputs. A run that aborts does so because the evaluation itself raises somewhere. */
  lemma CompletionOrderIsIrrelevant(cfg: Config, work: Work, script: seq<Answers>)
    requires Compiled(cfg.ir) && Scoped(cfg.ir) && Deterministic(cfg, work, script)
    ensures Inv(cfg, Start(cfg))
    ensures match Run(cfg, Start(cfg), script)
      case Going(t) => Follows(cfg, work, t) && StartsAlike(cfg, work, t)
      case Aborted => !Clean(cfg, Whole(cfg, work))
      case Ended(t) =>
        && StartsAlike(cfg, work, t)
        && (Reported(t) == RunCompleted <==> Clean(cfg, Whole(cfg, work)))
        && (Reported(t) == RunCompleted ==>
              t.statuses == Whole(cfg, work).statuses && t.outputs == Whole(cfg, work).outputs
                && StartsAll(cfg, work, t))
  {
    hide Reference, Readying, Whole, Inv, Compiled, Scoped, Follows, DeterministicFrom, Run, Start, Clean, StartsAlike,
      StartsAll;
    StartHolds(cfg);
    StartFollows(cfg, work);
    RunFollows(cfg, work, Start(cfg), script);
    RunKeeps(cfg, Start(cfg), script);
    match Run(cfg, Start(cfg), script)
    case Going(t) => FollowsStartsAlike(cfg, work, t);
    case Aborted => RaisingIsNotClean(cfg, work);
    case Ended(t) =>
      FollowsStartsAlike(cfg, work, t);
      EndMatches(cfg, work, t);
      if !t.failed { CompletedStartsAll(cfg, work, t); }
  }

  lemma RaisingIsNotClean(cfg: Config, work: Work)
    requires Compiled(cfg.ir) && exists n :: n in cfg.ir.order && n !in Whole(cfg, work).statuses
    ensures !Clean(cfg, Whole(cfg, work))
  {
  }

  // ------------------------------------------------------------------ a script of the reference's answers

  /** The script's answers are those of the reference evaluation, whatever a task is started on. */
  ghost predicate Faithful(cfg: Config, work: Work, answers: Answers)
    requires Compiled(cfg.ir)
  {
    forall k :: 0 <= k < |cfg.ir.order| && ReferenceGoes(cfg, work, k) ==>
      var answer := AnswerFor(answers, cfg.ir.order[k]);
      answer == StillRunning || answer == ReferenceAnswer(cfg, work, k)
  }

  ghost predicate AllFaithful(cfg: Config, work: Work, script: seq<Answers>)
    requires Compiled(cfg.ir)
  {
    forall i :: 0 <= i < |script| ==> Faithful(cfg, work, script[i])
  }

  lemma FaithfulIsDelivered(cfg: Config, work: Work, s: State, answers: Answers)
    requires Inv(cfg, s) && Compiled(cfg.ir) && Follows(cfg, work, s) && Faithful(cfg, work, answers)
    ensures Delivered(work, s, answers)
  {
    hide Inv, Compiled, ReferenceGoes, ReferenceInput, Whole, AnswerFor, AnswerOf;
    forall n | n in s.inflight && n in s.inputs
      ensures AnswerFor(answers, n) == StillRunning || AnswerFor(answers, n) == AnswerOf(work(n, s.inputs[n]))
    {
      RunningHasNoOutput(cfg, s, n);
      var k :| 0 <= k < |cfg.ir.order| && cfg.ir.order[k] == n;
      assert FollowsAt(cfg, work, s, k);
    }
  }

  lemma {:induction false} FaithfulFrom(cfg: Config, work: Work, s: State, script: seq<Answers>)
    requires Inv(cfg, s) && Compiled(cfg.ir) && Scoped(cfg.ir) && Follows(cfg, work, s)
      && AllFaithful(cfg, work, script)
    ensures DeterministicFrom(cfg, work, s, script)
    decreases |script|
  {
    hide Inv, Follows, OnePass, Whole, Scoped, Faithful, Continues, Sweep, Delivered, Compiled;
    if script == [] {
    } else {
      SweepKeeps(cfg, s, |cfg.ir.order|);
      SweepFollows(cfg, work, s, |cfg.ir.order|);
      var swept := Sweep(cfg, s, |cfg.ir.order|);
      if swept.Some? { FaithfulIsDelivered(cfg, work, swept.value, script[0]); }
      PassKeeps(cfg, s, script[0]);
      PassFollows(cfg, work, s, script[0]);
      match OnePass(cfg, s, script[0])
      case Going(t) => FaithfulFrom(cfg, work, t, script[1..]);
      case Ended(_) =>
      case Aborted =>
    }
  }

  /** A script written down from the reference evaluation is one a deterministic engine gives. */
  lemma ReferenceAnswersAreDeterministic(cfg: Config, work: Work, script: seq<Answers>)
    requires Compiled(cfg.ir) && Scoped(cfg.ir) && AllFaithful(cfg, work, script)
    ensures Deterministic(cfg, work, script)
  {
    hide Inv, Compiled, Scoped, Follows, DeterministicFrom, AllFaithful, Start;
    StartHolds(cfg);
    StartFollows(cfg, work);
    FaithfulFrom(cfg, work, Start(cfg), script);
  }

  lemma SettledIsReference(cfg: Config, work: Work, t: State, n: Node)
    requires Inv(cfg, t) && Follows(cfg, work, t) && Terminal(t.statuses, n)
    ensures n in cfg.ir.order && SameAt(Table(t.statuses, t.outputs), Whole(cfg, work), n)
  {
    hide Reference, Whole, SameAt, Compiled;
    assert n in Elements(cfg.ir.order);
    var k :| 0 <= k < |cfg.ir.order| && cfg.ir.order[k] == n;
    assert FollowsAt(cfg, work, t, k);
  }

  lemma WholeIsKnown(cfg: Config, work: Work)
    requires Compiled(cfg.ir)
    ensures Whole(cfg, work).statuses.Keys <= Elements(cfg.ir.order)
      && Whole(cfg, work).outputs.Keys <= Whole(cfg, work).statuses.Keys
    ensures forall n :: n in Whole(cfg, work).statuses ==> Whole(cfg, work).statuses[n] in {Completed, Skipped, Failed}
  {
    hide Reference, Compiled;
    ReferenceStatuses(cfg, work, |cfg.ir.order|);
    assert cfg.ir.order[..|cfg.ir.order|] == cfg.ir.order;
  }

  /** A run that failed had a node fail that fails in the reference evaluation too. */
  lemma FailedIsNotClean(cfg: Config, work: Work, t: State)
    requires Inv(cfg, t) && Follows(cfg, work, t) && t.failed
    ensures !Clean(cfg, Whole(cfg, work))
  {
    hide Reference, Whole, Compiled;
    var n :| n in t.statuses && Bad(t.statuses[n]);
    SettledIsReference(cfg, work, t, n);
    WholeIsKnown(cfg, work);
  }

  /** An empty run that has not failed settled every node. */
  lemma AllSettled(cfg: Config, t: State)
    requires Inv(cfg, t) && !t.failed && t.pending == {} && t.inflight == []
    ensures t.statuses.Keys == Elements(cfg.ir.order)
    ensures forall n :: n in t.statuses ==> Terminal(t.statuses, n) && t.statuses[n] != Failed
    ensures t.outputs.Keys <= t.statuses.Keys
  {
    hide Compiled;
    forall n | n in cfg.ir.order ensures n in t.statuses {
      assert n !in t.pending;
    }
    forall n | n in t.statuses ensures t.statuses[n] != Running && t.statuses[n] != Failed {
      assert n !in t.inflight;
    }
  }

  lemma SameTables(a: Table, b: Table)
    requires a.outputs.Keys <= a.statuses.Keys && b.outputs.Keys <= b.statuses.Keys
      && b.statuses.Keys <= a.statuses.Keys
    requires forall n :: n in a.statuses ==> SameAt(a, b, n)
    ensures a == b
  {
    assert a.statuses == b.statuses;
    assert a.outputs == b.outputs;
  }

  lemma EndMatches(cfg: Config, work: Work, t: State)
    requires Inv(cfg, t) && Follows(cfg, work, t)
    requires t.failed || (t.pending == {} && t.inflight == [])
    ensures !t.failed <==> Clean(cfg, Whole(cfg, work))
    ensures !t.failed ==> t.statuses == Whole(cfg, work).statuses && t.outputs == Whole(cfg, work).outputs
  {
    CompiledRuns(cfg, t);
    hide Inv, Follows, Whole, SameAt, Compiled;
    if t.failed {
      FailedIsNotClean(cfg, work, t);
    } else {
      AllSettled(cfg, t);
      WholeIsKnown(cfg, work);
      forall n | n in t.statuses ensures SameAt(Table(t.statuses, t.outputs), Whole(cfg, work), n) {
        SettledIsReference(cfg, work, t, n);
      }
      SameTables(Table(t.statuses, t.outputs), Whole(cfg, work));
    }
  }
}
