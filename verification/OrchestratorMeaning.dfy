/** What every node's status, input and output mean, wherever a run of the orchestrator stands. */
module OrchestratorMeaning {
  import opened Graphs
  import opened Wrappers
  import opened Json
  import opened WhenValues
  import opened OrchestratorSpec
  import opened OrchestratorInvariant
  import opened OrchestratorRuns
  import opened MergeLaws

  function View(cfg: Config, s: State): Snapshot { Snapshot(cfg.input, s.outputs) }

  ghost predicate SourceCompleted(s: State, e: InEdge) {
    e.source in s.statuses && s.statuses[e.source] == Completed
  }

  /** The edge's source completed and its condition, if it has one, is true. */
  ghost predicate Fires(cfg: Config, s: State, e: InEdge) {
    SourceCompleted(s, e) && (e.when == "" || Holds(e.when, View(cfg, s), cfg.ir.trigger) == Some(true))
  }

  /** Evaluating the edge's condition, if it comes to that, is no error. */
  ghost predicate Decided(cfg: Config, s: State, e: InEdge) {
    SourceCompleted(s, e) && e.when != "" ==> Holds(e.when, View(cfg, s), cfg.ir.trigger).Some?
  }

  ghost predicate AllDecided(cfg: Config, s: State, edges: seq<InEdge>) {
    forall i :: 0 <= i < |edges| ==> Decided(cfg, s, edges[i])
  }

  /** The edges that fire, in order. */
  ghost function Fired(cfg: Config, s: State, edges: seq<InEdge>): (r: seq<InEdge>)
    ensures forall e :: e in r <==> e in edges && Fires(cfg, s, e)
  {
    if edges == [] then []
    else
      var n := |edges| - 1;
      assert edges == edges[..n] + [edges[n]];
      Fired(cfg, s, edges[..n]) + (if Fires(cfg, s, edges[n]) then [edges[n]] else [])
  }

  /** A payload has a type's required fields, not null, and no field the type does not have. */
  ghost predicate Fits(fields: Fields, p: Payload) {
    fields != map[] ==>
      && (forall f :: f in fields && fields[f] ==> f in p && p[f] != Null)
      && forall f :: f in p ==> f in fields
  }

  /** What a node's task is given: the trigger input; nothing, if no edge leads to the node; or what the mappings of
      the firing edges, of which there are some, merge to. */
  ghost predicate InputIs(cfg: Config, s: State, n: Node, input: Payload)
    requires n in cfg.ir.incoming
  {
    if n == cfg.ir.trigger then input == cfg.input
    else if cfg.ir.incoming[n] == [] then input == map[]
    else
      var fired := Fired(cfg, s, cfg.ir.incoming[n]);
      && AllDecided(cfg, s, cfg.ir.incoming[n]) && fired != []
      && Resolvable(AllEntries(fired), View(cfg, s), cfg.ir.trigger)
      && !Clash(AllEntries(fired), View(cfg, s), cfg.ir.trigger)
      && MergesTo(AllEntries(fired), View(cfg, s), cfg.ir.trigger, input)
  }

  ghost predicate MayStart(cfg: Config, n: Node, input: Payload)
    requires n in cfg.ir.specs
  {
    Fits(cfg.ir.specs[n].inFields, input) && cfg.ir.specs[n].executable
  }

  ghost predicate StartedOn(cfg: Config, s: State, n: Node, input: Payload)
    requires n in cfg.ir.incoming && n in cfg.ir.specs
  {
    InputIs(cfg, s, n, input) && MayStart(cfg, n, input) && cfg.starts(n, input)
  }

  /** No edge into the node fires. */
  ghost predicate Unreached(cfg: Config, s: State, n: Node)
    requires n in cfg.ir.incoming
  {
    && n != cfg.ir.trigger && cfg.ir.incoming[n] != []
    && AllDecided(cfg, s, cfg.ir.incoming[n]) && Fired(cfg, s, cfg.ir.incoming[n]) == []
  }

  /** The firing edges' mappings clash, or they merge to an input the node cannot be started on. */
  ghost predicate Unstartable(cfg: Config, s: State, n: Node)
    requires n in cfg.ir.incoming && n in cfg.ir.specs
  {
    || (&& n != cfg.ir.trigger && cfg.ir.incoming[n] != [] && AllDecided(cfg, s, cfg.ir.incoming[n])
        && exists j: nat :: ClashesAt(Fired(cfg, s, cfg.ir.incoming[n]), View(cfg, s), cfg.ir.trigger, j))
    || exists input :: InputIs(cfg, s, n, input) && !MayStart(cfg, n, input)
  }

  /** Some poll of the node gave the answer. */
  ghost predicate Gave(past: seq<Answers>, n: Node, answer: Answer) {
    exists i :: 0 <= i < |past| && n in past[i] && past[i][n] == answer
  }

  /** The output is what a poll delivered, an empty dictionary if it delivered nothing. */
  ghost predicate OutputIs(cfg: Config, past: seq<Answers>, s: State, n: Node)
    requires n in cfg.ir.specs
  {
    n in s.outputs && exists o: Option<Payload> ::
      && Gave(past, n, Finished(o))
      && var p: Payload := (match o case Some(x) => x case None => map[]);
         s.outputs[n] == Obj(p) && Fits(cfg.ir.specs[n].outFields, p)
  }

  /** A node's status, and what it says. */
  ghost predicate StatusIs(cfg: Config, past: seq<Answers>, s: State, n: Node)
    requires n in cfg.ir.incoming && n in cfg.ir.specs && n in s.statuses
  {
    if n in s.inputs then
      && StartedOn(cfg, s, n, s.inputs[n])
      && match s.statuses[n]
         case Running => true
         case Completed => OutputIs(cfg, past, s, n)
         case Failed => Gave(past, n, Broken)
         case TimedOut => Gave(past, n, Late)
         case Skipped => false
    else
      match s.statuses[n]
      case Skipped => Unreached(cfg, s, n)
      case Failed => Unstartable(cfg, s, n)
      case _ => false
  }

  /** A node's events in the log. */
  function EventsOf(log: seq<Event>, n: Node): seq<Event> {
    if log == [] then []
    else
      var last := log[|log| - 1];
      EventsOf(log[..|log| - 1], n) + (if last.node == n then [last] else [])
  }

  /** What a node's status and its start, if it was started, leave in the log. */
  function HistoryOf(s: State, n: Node): seq<Event> {
    (if n in s.inputs then [Event(NodeScheduled, n, Running)] else [])
    + (if n !in s.statuses then []
       else match s.statuses[n]
         case Running => []
         case Completed => [Event(NodeCompleted, n, Completed)]
         case Skipped => [Event(NodeCompleted, n, Skipped)]
         case Failed => [Event(NodeFailed, n, Failed)]
         case TimedOut => [Event(NodeFailed, n, TimedOut)])
  }

  /** The log tells every node's history, and nothing else of it. */
  ghost predicate Logged(s: State) {
    forall n :: EventsOf(s.log, n) == HistoryOf(s, n)
  }

  ghost predicate Meaning(cfg: Config, past: seq<Answers>, s: State) {
    && s.inputs.Keys <= s.statuses.Keys <= cfg.ir.incoming.Keys * cfg.ir.specs.Keys
    && (forall n :: n in s.statuses ==> StatusIs(cfg, past, s, n))
    && Logged(s)
  }

  // ------------------------------------------------------------------ what stays

  /** The sources have settled, and nothing settled has changed. */
  ghost predicate Later(s: State, t: State, edges: seq<InEdge>) {
    Continues(s, t) && AllTerminal(edges, s.statuses)
  }

  lemma ViewExtends(cfg: Config, s: State, t: State)
    requires Continues(s, t)
    ensures Extends(View(cfg, s), View(cfg, t))
  {
  }

  lemma EdgeStays(cfg: Config, s: State, t: State, edges: seq<InEdge>, i: nat)
    requires Later(s, t, edges) && i < |edges| && Decided(cfg, s, edges[i])
    ensures Decided(cfg, t, edges[i]) && (Fires(cfg, s, edges[i]) <==> Fires(cfg, t, edges[i]))
  {
    assert Terminal(s.statuses, edges[i].source);
    ViewExtends(cfg, s, t);
    hide Holds, Extends;
    if SourceCompleted(s, edges[i]) && edges[i].when != "" {
      HoldsStays(edges[i].when, View(cfg, s), View(cfg, t), cfg.ir.trigger);
    }
  }

  lemma {:induction false} FiredStays(cfg: Config, s: State, t: State, edges: seq<InEdge>)
    requires Later(s, t, edges) && AllDecided(cfg, s, edges)
    ensures AllDecided(cfg, t, edges) && Fired(cfg, s, edges) == Fired(cfg, t, edges)
  {
    hide Decided, Fires, Continues, Terminal;
    if edges == [] {
    } else {
      var n := |edges| - 1;
      EdgeStays(cfg, s, t, edges, n);
      FiredStays(cfg, s, t, edges[..n]);
    }
  }

  lemma ValueStays(m: Mapped, a: Snapshot, b: Snapshot, trigger: Node)
    requires Extends(a, b) && HasValue(m, a, trigger)
    ensures HasValue(m, b, trigger) && forall v :: StandsFor(m, a, trigger, v) <==> StandsFor(m, b, trigger, v)
  {
    hide Extends, ResolvePath;
    var v :| StandsFor(m, a, trigger, v);
    if m.Reference? { ResolveStays(m.path, a, b, trigger); }
    assert StandsFor(m, b, trigger, v);
  }

  lemma EntriesStay(entries: Entries, a: Snapshot, b: Snapshot, trigger: Node)
    requires Extends(a, b) && Resolvable(entries, a, trigger)
    ensures Resolvable(entries, b, trigger)
    ensures Clash(entries, a, trigger) <==> Clash(entries, b, trigger)
    ensures forall p :: MergesTo(entries, a, trigger, p) ==> MergesTo(entries, b, trigger, p)
  {
    hide Extends, StandsFor, HasValue, PyEq;
    forall i | 0 <= i < |entries|
      ensures HasValue(entries[i].1, b, trigger)
      ensures forall v :: StandsFor(entries[i].1, a, trigger, v) <==> StandsFor(entries[i].1, b, trigger, v)
    {
      ValueStays(entries[i].1, a, b, trigger);
    }
    ClashStays(entries, a, b, trigger);
  }

  lemma ClashStays(entries: Entries, a: Snapshot, b: Snapshot, trigger: Node)
    requires forall i, v :: 0 <= i < |entries| ==>
      (StandsFor(entries[i].1, a, trigger, v) <==> StandsFor(entries[i].1, b, trigger, v))
    ensures Clash(entries, a, trigger) <==> Clash(entries, b, trigger)
  {
  }

  /** The trigger, or a node whose sources have settled. */
  ghost predicate Ready(cfg: Config, s: State, n: Node)
    requires n in cfg.ir.incoming
  {
    n == cfg.ir.trigger || AllTerminal(cfg.ir.incoming[n], s.statuses)
  }

  lemma InputStays(cfg: Config, s: State, t: State, n: Node, input: Payload)
    requires n in cfg.ir.incoming && Continues(s, t) && Ready(cfg, s, n) && InputIs(cfg, s, n, input)
    ensures InputIs(cfg, t, n, input)
  {
    hide Continues, AllTerminal, Resolvable, Clash, MergesTo, AllDecided;
    if n != cfg.ir.trigger && cfg.ir.incoming[n] != [] {
      var edges := cfg.ir.incoming[n];
      FiredStays(cfg, s, t, edges);
      ViewExtends(cfg, s, t);
      EntriesStay(AllEntries(Fired(cfg, s, edges)), View(cfg, s), View(cfg, t), cfg.ir.trigger);
    }
  }

  lemma UnreachedStays(cfg: Config, s: State, t: State, n: Node)
    requires n in cfg.ir.incoming && Continues(s, t) && Ready(cfg, s, n) && Unreached(cfg, s, n)
    ensures Unreached(cfg, t, n)
  {
    hide Continues, AllTerminal, AllDecided;
    FiredStays(cfg, s, t, cfg.ir.incoming[n]);
  }

  lemma PrefixIsResolvable(edges: seq<InEdge>, view: Snapshot, trigger: Node, j: nat)
    requires j < |edges| && Resolvable(AllEntries(edges[..j + 1]), view, trigger)
    ensures Resolvable(AllEntries(edges[..j]), view, trigger)
  {
    hide HasValue;
    assert edges[..j + 1][..j] == edges[..j];
    var all := AllEntries(edges[..j + 1]);
    forall i | 0 <= i < |AllEntries(edges[..j])| ensures HasValue(AllEntries(edges[..j])[i].1, view, trigger) {
      assert all[i] == AllEntries(edges[..j])[i];
    }
  }

  lemma ClashesAtStays(edges: seq<InEdge>, a: Snapshot, b: Snapshot, trigger: Node, j: nat)
    requires Extends(a, b) && ClashesAt(edges, a, trigger, j)
    ensures ClashesAt(edges, b, trigger, j)
  {
    hide Extends, Resolvable, Clash, MergesTo, AllEntries;
    PrefixIsResolvable(edges, a, trigger, j);
    EntriesStay(AllEntries(edges[..j + 1]), a, b, trigger);
    EntriesStay(AllEntries(edges[..j]), a, b, trigger);
  }

  lemma UnstartableStays(cfg: Config, s: State, t: State, n: Node)
    requires n in cfg.ir.incoming && n in cfg.ir.specs && Continues(s, t) && Ready(cfg, s, n) && Unstartable(cfg, s, n)
    ensures Unstartable(cfg, t, n)
  {
    hide Continues, AllTerminal, AllDecided, InputIs, ClashesAt, MayStart;
    if input :| InputIs(cfg, s, n, input) && !MayStart(cfg, n, input) {
      InputStays(cfg, s, t, n, input);
    } else {
      var edges := cfg.ir.incoming[n];
      FiredStays(cfg, s, t, edges);
      ViewExtends(cfg, s, t);
      var j: nat :| ClashesAt(Fired(cfg, s, edges), View(cfg, s), cfg.ir.trigger, j);
      ClashesAtStays(Fired(cfg, s, edges), View(cfg, s), View(cfg, t), cfg.ir.trigger, j);
    }
  }

  lemma GaveStays(past: seq<Answers>, more: seq<Answers>, n: Node, answer: Answer)
    requires Gave(past, n, answer)
    ensures Gave(past + more, n, answer)
  {
    var i :| 0 <= i < |past| && n in past[i] && past[i][n] == answer;
    assert (past + more)[i] == past[i];
  }

  lemma OutputStays(cfg: Config, past: seq<Answers>, more: seq<Answers>, s: State, t: State, n: Node)
    requires n in cfg.ir.specs && Continues(s, t) && OutputIs(cfg, past, s, n)
    ensures OutputIs(cfg, past + more, t, n)
  {
    hide Fits, Gave;
    var o: Option<Payload> :|
      && Gave(past, n, Finished(o))
      && var p: Payload := (match o case Some(x) => x case None => map[]);
         s.outputs[n] == Obj(p) && Fits(cfg.ir.specs[n].outFields, p);
    GaveStays(past, more, n, Finished(o));
  }

  lemma StatusIsReady(cfg: Config, s: State, n: Node)
    requires Inv(cfg, s) && n in s.statuses
    ensures n in cfg.ir.incoming && n in cfg.ir.specs && Ready(cfg, s, n)
  {
    assert n in Elements(cfg.ir.order);
  }

  /** What a status says stays true. */
  lemma StatusStays(cfg: Config, past: seq<Answers>, more: seq<Answers>, s: State, t: State, n: Node)
    requires Inv(cfg, s) && Continues(s, t) && n in s.statuses && n in t.statuses && t.statuses[n] == s.statuses[n]
    requires n in s.inputs <==> n in t.inputs
    requires n in s.inputs ==> t.inputs[n] == s.inputs[n]
    requires n in cfg.ir.incoming && n in cfg.ir.specs && StatusIs(cfg, past, s, n)
    ensures StatusIs(cfg, past + more, t, n)
  {
    hide Inv, Continues, InputIs, MayStart, Unreached, Unstartable, OutputIs, Gave, Ready;
    StatusIsReady(cfg, s, n);
    if n in s.inputs {
      InputStays(cfg, s, t, n, s.inputs[n]);
      match s.statuses[n]
      case Completed => OutputStays(cfg, past, more, s, t, n);
      case Failed => GaveStays(past, more, n, Broken);
      case TimedOut => GaveStays(past, more, n, Late);
      case Running =>
    } else if s.statuses[n] == Skipped {
      UnreachedStays(cfg, s, t, n);
    } else {
      UnstartableStays(cfg, s, t, n);
    }
  }

  // ------------------------------------------------------------------ scheduling

  lemma {:induction false} FiringMeans(cfg: Config, s: State, edges: seq<InEdge>)
    ensures match Firing(edges, s.statuses, View(cfg, s), cfg.ir.trigger)
      case Some(f) => AllDecided(cfg, s, edges) && f == Fired(cfg, s, edges)
      case None => !AllDecided(cfg, s, edges)
  {
    hide Holds;
    if edges == [] {
    } else {
      var n := |edges| - 1;
      FiringMeans(cfg, s, edges[..n]);
      if !AllDecided(cfg, s, edges[..n]) {
        var i :| 0 <= i < n && !Decided(cfg, s, edges[..n][i]);
        assert !Decided(cfg, s, edges[i]);
      }
    }
  }

  /** An escaping exception while a node is scheduled: a condition that cannot be evaluated, a mapping that does not
      resolve, or an adapter that does not start the task. */
  ghost predicate CannotSchedule(cfg: Config, s: State, n: Node)
    requires n in cfg.ir.incoming && n in cfg.ir.specs
  {
    && Ready(cfg, s, n)
    && (|| (n != cfg.ir.trigger && !AllDecided(cfg, s, cfg.ir.incoming[n]))
        || (n != cfg.ir.trigger && AllDecided(cfg, s, cfg.ir.incoming[n])
            && exists j: nat :: RaisesAt(Fired(cfg, s, cfg.ir.incoming[n]), View(cfg, s), cfg.ir.trigger, j))
        || exists input :: InputIs(cfg, s, n, input) && MayStart(cfg, n, input) && !cfg.starts(n, input))
  }

  lemma CheckedMeans(cfg: Config, s: State, n: Node, input: Payload)
    requires n in cfg.ir.incoming && n in cfg.ir.specs && InputIs(cfg, s, n, input)
    ensures match Checked(cfg.ir.specs[n], input)
      case Go(x) => x == input && MayStart(cfg, n, input)
      case Fails => Unstartable(cfg, s, n)
      case _ => false
  {
    hide InputIs;
    if !MayStart(cfg, n, input) { assert Unstartable(cfg, s, n); }
  }

  /** What the scheduler finds for a node, in terms of the edges into it. */
  lemma DecisionMeans(cfg: Config, s: State, n: Node)
    requires n in cfg.ir.incoming && n in cfg.ir.specs
    requires cfg.ir.trigger in cfg.ir.incoming && cfg.ir.incoming[cfg.ir.trigger] == []
    ensures match Readying(cfg, n, s.statuses, s.outputs)
      case NotReady => n != cfg.ir.trigger && !AllTerminal(cfg.ir.incoming[n], s.statuses)
      case Skip => Ready(cfg, s, n) && Unreached(cfg, s, n)
      case Fails => Ready(cfg, s, n) && Unstartable(cfg, s, n)
      case Raises => CannotSchedule(cfg, s, n)
      case Go(input) => Ready(cfg, s, n) && InputIs(cfg, s, n, input) && MayStart(cfg, n, input)
  {
    hide Firing, MergeEdges, MayStart, Checked, AllDecided, MergesTo, Clash, Resolvable, ClashesAt, RaisesAt;
    var edges := cfg.ir.incoming[n];
    if n == cfg.ir.trigger {
      CheckedMeans(cfg, s, n, cfg.input);
    } else if edges == [] {
      CheckedMeans(cfg, s, n, map[]);
    } else {
      FiringMeans(cfg, s, edges);
      var fired := Fired(cfg, s, edges);
      MergeMeans(fired, View(cfg, s), cfg.ir.trigger);
      match MergeEdges(fired, View(cfg, s), cfg.ir.trigger)
      case Merged(input) =>
        if AllDecided(cfg, s, edges) && fired != [] { CheckedMeans(cfg, s, n, input); }
      case _ =>
    }
  }

  lemma TriggerIsFirst(cfg: Config, s: State)
    requires Inv(cfg, s)
    ensures cfg.ir.trigger in cfg.ir.incoming && cfg.ir.incoming[cfg.ir.trigger] == []
  {
    assert cfg.ir.trigger in Elements(cfg.ir.order);
  }

  lemma PendingIsNew(cfg: Config, s: State, n: Node)
    requires Inv(cfg, s) && n in s.pending
    ensures n !in s.statuses && n in cfg.ir.incoming && n in cfg.ir.specs
  {
    assert n in Elements(cfg.ir.order);
  }

  /** The node's own status after it has been scheduled. */
  lemma ScheduledMeans(cfg: Config, past: seq<Answers>, s: State, n: Node, t: State)
    requires Inv(cfg, s) && Meaning(cfg, past, s) && n in s.pending && n in cfg.ir.incoming && n in cfg.ir.specs
    requires Schedule(cfg, s, n) == Some(t) && t != s && Continues(s, t)
    ensures n in t.statuses && StatusIs(cfg, past, t, n) && t.inputs.Keys <= s.inputs.Keys + {n}
  {
    hide Inv, Continues, InputIs, MayStart, Unreached, Unstartable, OutputIs, Ready, CannotSchedule, Readying;
    PendingIsNew(cfg, s, n);
    TriggerIsFirst(cfg, s);
    DecisionMeans(cfg, s, n);
    match Readying(cfg, n, s.statuses, s.outputs)
    case Skip => UnreachedStays(cfg, s, t, n);
    case Fails => UnstartableStays(cfg, s, t, n);
    case Go(input) => InputStays(cfg, s, t, n, input);
    case _ =>
  }

  lemma OneMoreEvent(log: seq<Event>, e: Event, n: Node)
    ensures EventsOf(log + [e], n) == EventsOf(log, n) + (if e.node == n then [e] else [])
  {
    assert (log + [e])[..|log|] == log;
  }

  /** Statuses and inputs differ at one node at most. */
  ghost predicate OnlyChanges(s: State, t: State, n: Node) {
    forall m :: m != n ==>
      && (m in t.statuses <==> m in s.statuses) && (m in s.statuses ==> t.statuses[m] == s.statuses[m])
      && (m in t.inputs <==> m in s.inputs) && (m in s.inputs ==> t.inputs[m] == s.inputs[m])
  }

  /** The step adds one event, which is the next of the node's history. */
  ghost predicate Adds(s: State, t: State, n: Node) {
    OnlyChanges(s, t, n) && exists e :: IsNext(s, t, n, e)
  }

  ghost predicate IsNext(s: State, t: State, n: Node, e: Event) {
    t.log == s.log + [e] && e.node == n && HistoryOf(t, n) == HistoryOf(s, n) + [e]
  }

  lemma LogStep(s: State, t: State, n: Node)
    requires Logged(s) && Adds(s, t, n)
    ensures Logged(t)
  {
    hide EventsOf;
    var e :| IsNext(s, t, n, e);
    forall m ensures EventsOf(t.log, m) == HistoryOf(t, m) {
      assert EventsOf(s.log, m) == HistoryOf(s, m);
      OneMoreEvent(s.log, e, m);
      assert m != n ==> HistoryOf(t, m) == HistoryOf(s, m);
    }
  }

  lemma NextOf(s: State, t: State, n: Node, e: Event)
    requires OnlyChanges(s, t, n) && n !in s.statuses && n !in s.inputs && n in t.statuses && t.log == s.log + [e]
    requires e.node == n && e.status == t.statuses[n] && e.status in [Running, Skipped, Failed]
    requires n in t.inputs <==> e.status == Running
    requires e.name == if e.status == Running then NodeScheduled else if e.status == Skipped then NodeCompleted
      else NodeFailed
    ensures Adds(s, t, n)
  {
    hide OnlyChanges;
    assert IsNext(s, t, n, e);
  }

  lemma ScheduleAdds(cfg: Config, s: State, n: Node, t: State)
    requires n !in s.statuses && n !in s.inputs && n in cfg.ir.incoming && n in cfg.ir.specs
    requires Schedule(cfg, s, n) == Some(t) && t.log != s.log
    ensures Adds(s, t, n)
  {
    hide Readying;
    ScheduleTouchesOne(cfg, s, n, t);
    match Readying(cfg, n, s.statuses, s.outputs)
    case Skip => NextOf(s, t, n, Event(NodeCompleted, n, Skipped));
    case Fails => NextOf(s, t, n, Event(NodeFailed, n, Failed));
    case Go(_) => NextOf(s, t, n, Event(NodeScheduled, n, Running));
    case _ =>
  }

  lemma ScheduleMovesOrAdds(cfg: Config, s: State, n: Node, t: State)
    requires n in cfg.ir.incoming && n in cfg.ir.specs && Schedule(cfg, s, n) == Some(t)
    ensures t == s || t.log != s.log
  {
    hide Readying;
  }

  lemma ScheduleLogs(cfg: Config, s: State, n: Node, t: State)
    requires Inv(cfg, s) && Logged(s) && n in s.pending && n !in s.inputs && n in cfg.ir.incoming && n in cfg.ir.specs
    requires Schedule(cfg, s, n) == Some(t) && t != s
    ensures Logged(t)
  {
    hide Inv, Schedule, Logged, Adds;
    PendingIsNew(cfg, s, n);
    ScheduleMovesOrAdds(cfg, s, n, t);
    ScheduleAdds(cfg, s, n, t);
    LogStep(s, t, n);
  }

  lemma PollLogs(cfg: Config, s: State, n: Node, answer: Answer, t: State)
    requires Logged(s) && n in s.inputs && n in s.statuses && s.statuses[n] == Running && n in cfg.ir.specs
    requires Poll(cfg, s, n, answer) == Some(t) && answer != StillRunning
    ensures Logged(t)
  {
    hide Logged, Without, ValidPayload;
    assert IsNext(s, t, n, t.log[|s.log|]);
    LogStep(s, t, n);
  }

  lemma ScheduleTouchesOne(cfg: Config, s: State, n: Node, t: State)
    requires n in cfg.ir.incoming && n in cfg.ir.specs && Schedule(cfg, s, n) == Some(t)
    ensures OnlyChanges(s, t, n)
  {
    ScheduleChanges(cfg, s, n, t);
    hide Schedule;
  }

  lemma ScheduleChanges(cfg: Config, s: State, n: Node, t: State)
    requires n in cfg.ir.incoming && n in cfg.ir.specs && Schedule(cfg, s, n) == Some(t)
    ensures t.statuses == s.statuses || (n in t.statuses && t.statuses == s.statuses[n := t.statuses[n]])
    ensures t.inputs == s.inputs || (n in t.inputs && t.inputs == s.inputs[n := t.inputs[n]])
  {
    hide Readying;
    match Readying(cfg, n, s.statuses, s.outputs)
    case Skip => assert t.statuses == s.statuses[n := Skipped];
    case Fails => assert t.statuses == s.statuses[n := Failed];
    case Go(input) => assert t.statuses == s.statuses[n := Running] && t.inputs == s.inputs[n := input];
    case _ =>
  }

  lemma OtherStays(cfg: Config, past: seq<Answers>, s: State, t: State, n: Node, m: Node)
    requires Inv(cfg, s) && Meaning(cfg, past, s) && Continues(s, t) && OnlyChanges(s, t, n) && m != n
      && m in t.statuses
    ensures m in cfg.ir.incoming && m in cfg.ir.specs && StatusIs(cfg, past, t, m)
  {
    hide Inv, Continues, StatusIs;
    StatusStays(cfg, past, [], s, t, m);
    assert past + [] == past;
  }

  lemma OneChange(cfg: Config, past: seq<Answers>, s: State, t: State, n: Node)
    requires Inv(cfg, s) && Meaning(cfg, past, s) && Continues(s, t) && OnlyChanges(s, t, n)
    requires n in cfg.ir.incoming && n in cfg.ir.specs && n in t.statuses && StatusIs(cfg, past, t, n) && Logged(t)
    ensures Meaning(cfg, past, t)
  {
    hide Inv, Continues, StatusIs, Logged;
    forall m | m in t.statuses
      ensures m in cfg.ir.incoming && m in cfg.ir.specs && StatusIs(cfg, past, t, m)
    {
      if m != n { OtherStays(cfg, past, s, t, n, m); }
    }
  }

  lemma MeaningIsLogged(cfg: Config, past: seq<Answers>, s: State)
    requires Meaning(cfg, past, s)
    ensures Logged(s)
  {
  }

  lemma NotStartedYet(cfg: Config, past: seq<Answers>, s: State, n: Node)
    requires Inv(cfg, s) && Meaning(cfg, past, s) && n in s.pending
    ensures n !in s.inputs
  {
    PendingIsNew(cfg, s, n);
  }

  lemma StartedWhenRunning(cfg: Config, past: seq<Answers>, s: State, n: Node)
    requires Meaning(cfg, past, s) && n in s.statuses && s.statuses[n] == Running
    ensures n in s.inputs
  {
  }

  lemma ScheduleMeans(cfg: Config, past: seq<Answers>, s: State, n: Node)
    requires Inv(cfg, s) && Meaning(cfg, past, s) && n in s.pending
    ensures n in cfg.ir.incoming && n in cfg.ir.specs
    ensures match Schedule(cfg, s, n)
      case Some(t) => Meaning(cfg, past, t)
      case None => CannotSchedule(cfg, s, n)
  {
    PendingIsNew(cfg, s, n);
    ScheduleKeeps(cfg, s, n);
    hide *;
    match Schedule(cfg, s, n)
    case None => ScheduleRaises(cfg, s, n);
    case Some(t) =>
      if t != s {
        ScheduledMeans(cfg, past, s, n, t);
        NotStartedYet(cfg, past, s, n);
        MeaningIsLogged(cfg, past, s);
        ScheduleLogs(cfg, s, n, t);
        ScheduleTouchesOne(cfg, s, n, t);
        OneChange(cfg, past, s, t, n);
      }
  }

  lemma ScheduleRaises(cfg: Config, s: State, n: Node)
    requires Inv(cfg, s) && n in cfg.ir.incoming && n in cfg.ir.specs && Schedule(cfg, s, n) == None
    ensures CannotSchedule(cfg, s, n)
  {
    hide Inv, InputIs, MayStart, Unreached, Unstartable, Ready, Readying, AllDecided, RaisesAt;
    TriggerIsFirst(cfg, s);
    DecisionMeans(cfg, s, n);
  }

  // ------------------------------------------------------------------ polling

  /** An escaping exception while a task is polled: the adapter raises, or delivers an output that does not fit. */
  ghost predicate CannotPoll(cfg: Config, n: Node, answer: Answer)
    requires n in cfg.ir.specs
  {
    || answer == PollRaises
    || exists o: Option<Payload> ::
         answer == Finished(o) && !Fits(cfg.ir.specs[n].outFields, match o case Some(x) => x case None => map[])
  }

  lemma PolledMeans(cfg: Config, past: seq<Answers>, s: State, n: Node, answer: Answer, t: State)
    requires Inv(cfg, s) && Meaning(cfg, past, s) && n in s.inflight && Gave(past, n, answer)
    requires n in cfg.ir.incoming && n in cfg.ir.specs && n in s.statuses && s.statuses[n] == Running
    requires Poll(cfg, s, n, answer) == Some(t) && answer != StillRunning && Continues(s, t)
    ensures n in t.statuses && StatusIs(cfg, past, t, n) && t.inputs == s.inputs
  {
    hide Inv, Continues, InputIs, MayStart, Unreached, Unstartable, Ready, Without, Gave;
    StatusIsReady(cfg, s, n);
    assert n in s.inputs;
    InputStays(cfg, s, t, n, s.inputs[n]);
    if answer.Finished? {
      assert t.outputs[n] == Obj(match answer.output case Some(x) => x case None => map[]);
      assert OutputIs(cfg, past, t, n);
    }
  }

  lemma PollTouchesOne(cfg: Config, s: State, n: Node, answer: Answer, t: State)
    requires n in cfg.ir.specs && Poll(cfg, s, n, answer) == Some(t)
    ensures OnlyChanges(s, t, n)
  {
    hide Without, ValidPayload;
  }

  lemma InflightIsRunning(cfg: Config, s: State, n: Node)
    requires Inv(cfg, s) && n in s.inflight
    ensures n in cfg.ir.incoming && n in cfg.ir.specs && n in s.statuses && s.statuses[n] == Running
  {
    assert n in Elements(cfg.ir.order);
  }

  lemma PollMeans(cfg: Config, past: seq<Answers>, s: State, n: Node, answer: Answer)
    requires Inv(cfg, s) && Meaning(cfg, past, s) && n in s.inflight
      && (answer == StillRunning || Gave(past, n, answer))
    ensures n in cfg.ir.specs
    ensures match Poll(cfg, s, n, answer)
      case Some(t) => Meaning(cfg, past, t)
      case None => CannotPoll(cfg, n, answer)
  {
    hide *;
    InflightIsRunning(cfg, s, n);
    PollKeeps(cfg, s, n, answer);
    PollRaisesIf(cfg, s, n, answer);
    if Poll(cfg, s, n, answer).Some? && answer != StillRunning {
      var t := Poll(cfg, s, n, answer).value;
      PolledMeans(cfg, past, s, n, answer, t);
      StartedWhenRunning(cfg, past, s, n);
      MeaningIsLogged(cfg, past, s);
      PollLogs(cfg, s, n, answer, t);
      PollTouchesOne(cfg, s, n, answer, t);
      OneChange(cfg, past, s, t, n);
    }
  }

  lemma PollRaisesIf(cfg: Config, s: State, n: Node, answer: Answer)
    requires n in cfg.ir.specs
    ensures Poll(cfg, s, n, answer) == None <==> CannotPoll(cfg, n, answer)
  {
  }

  // ------------------------------------------------------------------ runs

  /** Somewhere in the run, with every status meaning what it should, an exception escaped: a pending node could not
      be scheduled, or a task could not be polled. */
  ghost predicate Escaped(cfg: Config, past: seq<Answers>, u: State, n: Node) {
    && Inv(cfg, u) && Meaning(cfg, past, u) && n in cfg.ir.incoming && n in cfg.ir.specs
    && (|| (n in u.pending && CannotSchedule(cfg, u, n))
        || (n in u.inflight && past != [] && CannotPoll(cfg, n, AnswerFor(past[|past| - 1], n))))
  }

  ghost predicate SomeEscape(cfg: Config, past: seq<Answers>) {
    exists u, n :: Escaped(cfg, past, u, n)
  }

  ghost predicate EscapesWithin(cfg: Config, script: seq<Answers>) {
    exists i :: 0 <= i <= |script| && SomeEscape(cfg, script[..i])
  }

  /** Every status means what it says, or an exception escaped. */
  ghost predicate ProgressMeans(cfg: Config, past: seq<Answers>, r: Progress) {
    if r.Aborted? then EscapesWithin(cfg, past) else Inv(cfg, r.s) && Meaning(cfg, past, r.s)
  }

  lemma EscapesHere(cfg: Config, past: seq<Answers>)
    requires SomeEscape(cfg, past)
    ensures EscapesWithin(cfg, past)
  {
    assert past[..|past|] == past;
  }

  lemma EscapesStays(cfg: Config, past: seq<Answers>, more: seq<Answers>)
    requires EscapesWithin(cfg, past)
    ensures EscapesWithin(cfg, past + more)
  {
    hide SomeEscape;
    var i :| 0 <= i <= |past| && SomeEscape(cfg, past[..i]);
    assert (past + more)[..i] == past[..i];
  }

  lemma PastGrows(cfg: Config, past: seq<Answers>, more: seq<Answers>, s: State)
    requires Inv(cfg, s) && Meaning(cfg, past, s)
    ensures Meaning(cfg, past + more, s)
  {
    hide Inv, StatusIs;
    ContinuesSelf(s);
    hide Continues;
    forall n | n in s.statuses ensures StatusIs(cfg, past + more, s, n) { StatusStays(cfg, past, more, s, s, n); }
  }

  lemma StartMeans(cfg: Config)
    requires Compiled(cfg.ir)
    ensures Meaning(cfg, [], Start(cfg))
  {
  }

  lemma {:induction false} SweepMeans(cfg: Config, past: seq<Answers>, s: State, k: nat)
    requires Inv(cfg, s) && Meaning(cfg, past, s) && k <= |cfg.ir.order|
    ensures Elements(cfg.ir.order) <= cfg.ir.incoming.Keys * cfg.ir.specs.Keys
    ensures var r := Sweep(cfg, s, k);
      if r.Some? then Inv(cfg, r.value) && Meaning(cfg, past, r.value) else SomeEscape(cfg, past)
  {
    hide Inv, Meaning, Schedule, Continues, Work, CannotSchedule;
    SweepKeeps(cfg, s, k);
    if k == 0 {
    } else {
      SweepMeans(cfg, past, s, k - 1);
      var t, n := Sweep(cfg, s, k - 1), cfg.ir.order[k - 1];
      if t.Some? && n in t.value.pending {
        ScheduleMeans(cfg, past, t.value, n);
        if Schedule(cfg, t.value, n) == None { assert Escaped(cfg, past, t.value, n); }
      }
    }
  }

  lemma AnswerIsGiven(past: seq<Answers>, n: Node)
    requires past != []
    ensures var answer := AnswerFor(past[|past| - 1], n); answer == StillRunning || Gave(past, n, answer)
  {
  }

  lemma {:induction false} PollPassMeans(cfg: Config, past: seq<Answers>, s: State, k: nat)
    requires Inv(cfg, s) && Meaning(cfg, past, s) && past != [] && k <= |s.inflight|
    ensures Elements(s.inflight) <= cfg.ir.specs.Keys
    ensures var r := PollPass(cfg, s, s.inflight, past[|past| - 1], k);
      if r.Some? then Inv(cfg, r.value) && Meaning(cfg, past, r.value) else SomeEscape(cfg, past)
  {
    hide Inv, Meaning, Poll, Continues, CannotPoll, CannotSchedule, Gave, AnswerFor, SomeAnswer, Work;
    var answers := past[|past| - 1];
    PollPassKeeps(cfg, s, answers, k);
    if k == 0 {
    } else {
      PollPassKeeps(cfg, s, answers, k - 1);
      PollPassMeans(cfg, past, s, k - 1);
      var t, n := PollPass(cfg, s, s.inflight, answers, k - 1), s.inflight[k - 1];
      if t.Some? {
        AnswerIsGiven(past, n);
        InflightIsRunning(cfg, t.value, n);
        PollMeans(cfg, past, t.value, n, AnswerFor(answers, n));
        if Poll(cfg, t.value, n, AnswerFor(answers, n)) == None { assert Escaped(cfg, past, t.value, n); }
      }
    }
  }

  lemma PassMeans(cfg: Config, past: seq<Answers>, s: State)
    requires Inv(cfg, s) && past != [] && Meaning(cfg, past, s)
    ensures ProgressMeans(cfg, past, OnePass(cfg, s, past[|past| - 1]))
  {
    hide Inv, Meaning, Sweep, PollPass, Continues, Work, SomeEscape, EscapesWithin, SomeAnswer;
    SweepKeeps(cfg, s, |cfg.ir.order|);
    SweepMeans(cfg, past, s, |cfg.ir.order|);
    var swept := Sweep(cfg, s, |cfg.ir.order|);
    if swept.Some? {
      PollPassMeans(cfg, past, swept.value, |swept.value.inflight|);
    }
    if OnePass(cfg, s, past[|past| - 1]).Aborted? { EscapesHere(cfg, past); }
  }

  lemma {:induction false} RunMeans(cfg: Config, past: seq<Answers>, s: State, script: seq<Answers>)
    requires Inv(cfg, s) && Meaning(cfg, past, s)
    ensures ProgressMeans(cfg, past + script, Run(cfg, s, script))
    decreases |script|
  {
    hide Inv, Meaning, OnePass, Continues, EscapesWithin, Work;
    if script == [] {
      assert past + script == past;
    } else {
      var here, rest := past + [script[0]], script[1..];
      assert past + script == here + rest;
      PastGrows(cfg, past, [script[0]], s);
      PassKeeps(cfg, s, script[0]);
      PassMeans(cfg, here, s);
      match OnePass(cfg, s, script[0])
      case Going(t) => RunMeans(cfg, here, t, rest);
      case Ended(t) => PastGrows(cfg, here, rest, t);
      case Aborted =>
        EscapesStays(cfg, here, rest);
    }
  }

  /** Wherever a run stands or ends, every status means what it says: a started node was given what the mappings of
      its firing edges merge to, a completed one delivered its output, a failed or timed-out one was polled so, a
      skipped one is reached by no edge, and one that failed without being started could not be. A run aborts only
      where an exception escapes. */
  lemma StatusesMean(cfg: Config, script: seq<Answers>)
    requires Compiled(cfg.ir)
    ensures Inv(cfg, Start(cfg))
    ensures ProgressMeans(cfg, script, Run(cfg, Start(cfg), script))
  {
    hide Inv, Meaning, Run, EscapesWithin, Start, Compiled;
    StartHolds(cfg);
    StartMeans(cfg);
    RunMeans(cfg, [], Start(cfg), script);
    assert [] + script == script;
  }

  /** A node that has a status was skipped if and only if no edge into it fires, the trigger and nodes without
      incoming edges aside. */
  lemma SkippedIff(cfg: Config, past: seq<Answers>, s: State, n: Node)
    requires Inv(cfg, s) && Meaning(cfg, past, s) && n in s.statuses
    ensures n in cfg.ir.incoming
    ensures s.statuses[n] == Skipped <==>
      n != cfg.ir.trigger && cfg.ir.incoming[n] != [] && forall e :: e in cfg.ir.incoming[n] ==> !Fires(cfg, s, e)
  {
    hide Inv, Fires, OutputIs, Gave, MayStart, ClashesAt;
    var fired := Fired(cfg, s, cfg.ir.incoming[n]);
    if fired == [] {
      forall e | e in cfg.ir.incoming[n] ensures !Fires(cfg, s, e) { assert e !in fired; }
    } else {
      assert fired[0] in fired;
    }
    NothingFiredNoClash(View(cfg, s), cfg.ir.trigger);
  }

  lemma NothingFiredNoClash(view: Snapshot, trigger: Node)
    ensures forall j: nat :: !ClashesAt([], view, trigger, j)
  {
  }

  // ------------------------------------------------------------------ a node that cannot be started ends the run

  /** Every node that failed was started. */
  ghost predicate FailuresWereStarted(s: State) {
    forall n :: n in s.statuses && Bad(s.statuses[n]) ==> n in s.inputs
  }

  lemma {:induction false} PollPassTouchesInflight(cfg: Config, s: State, answers: Answers, k: nat)
    requires k <= |s.inflight| && Elements(s.inflight) <= cfg.ir.specs.Keys
    requires PollPass(cfg, s, s.inflight, answers, k).Some?
    ensures var t := PollPass(cfg, s, s.inflight, answers, k).value;
      t.inputs == s.inputs && forall n :: n in t.statuses && n !in s.inflight ==>
        n in s.statuses && t.statuses[n] == s.statuses[n]
  {
    hide Poll;
    if k == 0 {
    } else {
      PollPassTouchesInflight(cfg, s, answers, k - 1);
      var t, n := PollPass(cfg, s, s.inflight, answers, k - 1).value, s.inflight[k - 1];
      assert n in Elements(s.inflight);
      PollTouchesStatus(cfg, t, n, AnswerFor(answers, n));
    }
  }

  lemma PollTouchesStatus(cfg: Config, s: State, n: Node, answer: Answer)
    requires n in cfg.ir.specs && Poll(cfg, s, n, answer).Some?
    ensures var t := Poll(cfg, s, n, answer).value;
      t.inputs == s.inputs
      && forall m :: m in t.statuses && m != n ==> m in s.statuses && t.statuses[m] == s.statuses[m]
  {
    hide Without, ValidPayload;
  }

  lemma InflightWasStarted(cfg: Config, past: seq<Answers>, s: State)
    requires Inv(cfg, s) && Meaning(cfg, past, s)
    ensures forall n :: n in s.inflight ==> n in s.inputs
  {
    hide StatusIs, Logged;
    forall n | n in s.inflight ensures n in s.inputs {
      InflightIsRunning(cfg, s, n);
      StartedWhenRunning(cfg, past, s, n);
    }
  }

  lemma UnfailedHasNoFailures(cfg: Config, s: State)
    requires Inv(cfg, s) && !s.failed
    ensures forall n :: n in s.statuses ==> !Bad(s.statuses[n])
  {
  }

  lemma GoingFailuresWereStarted(cfg: Config, past: seq<Answers>, s: State)
    requires Inv(cfg, s) && past != [] && Meaning(cfg, past, s)
    ensures var r := OnePass(cfg, s, past[|past| - 1]); r.Going? ==> FailuresWereStarted(r.s)
  {
    hide Inv, Meaning, Sweep, PollPass, Continues, Work, SomeEscape, Bad;
    SweepKeeps(cfg, s, |cfg.ir.order|);
    SweepMeans(cfg, past, s, |cfg.ir.order|);
    var swept := Sweep(cfg, s, |cfg.ir.order|);
    if OnePass(cfg, s, past[|past| - 1]).Going? {
      UnfailedHasNoFailures(cfg, swept.value);
      InflightWasStarted(cfg, past, swept.value);
      PollPassKeeps(cfg, swept.value, past[|past| - 1], |swept.value.inflight|);
      PollPassTouchesInflight(cfg, swept.value, past[|past| - 1], |swept.value.inflight|);
    }
  }

  /** While a run goes on, only tasks that were started have failed: a node that cannot be started ends the run in the
      pass that finds out. */
  lemma {:induction false} UnstartableEndsTheRun(cfg: Config, past: seq<Answers>, s: State, script: seq<Answers>)
    requires Inv(cfg, s) && Meaning(cfg, past, s) && FailuresWereStarted(s)
    ensures Run(cfg, s, script).Going? ==> FailuresWereStarted(Run(cfg, s, script).s)
    decreases |script|
  {
    hide Inv, Meaning, OnePass, Continues, Work, FailuresWereStarted;
    if script == [] {
    } else {
      var here := past + [script[0]];
      PastGrows(cfg, past, [script[0]], s);
      PassKeeps(cfg, s, script[0]);
      PassMeans(cfg, here, s);
      GoingFailuresWereStarted(cfg, here, s);
      match OnePass(cfg, s, script[0])
      case Going(t) => UnstartableEndsTheRun(cfg, here, t, script[1..]);
      case _ =>
    }
  }
}
