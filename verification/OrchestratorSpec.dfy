/** The orchestrator's steps as functions of its state. */
module OrchestratorSpec {
  import opened Graphs
  import opened Wrappers
  import opened Json
  import opened WhenValues

  type Node = string
  type Payload = map<string, Json>

  /** A mapping value: a literal, or a dotted reference. */
  datatype Mapped = Constant(v: Json) | Reference(path: string)

  /** An incoming edge; an empty condition text counts as no condition. */
  datatype InEdge = InEdge(source: Node, when: string, mapping: seq<(string, Mapped)>)

  /** Field names, true where the field is required; no fields means no checking. */
  type Fields = map<string, bool>

  datatype NodeSpec = NodeSpec(executable: bool, inFields: Fields, outFields: Fields)

  datatype IR = IR(order: seq<Node>, trigger: Node, incoming: map<Node, seq<InEdge>>, specs: map<Node, NodeSpec>)

  datatype Status = Running | Completed | Skipped | Failed | TimedOut

  datatype EventName = NodeScheduled | NodeCompleted | NodeFailed

  datatype Event = Event(name: EventName, node: Node, status: Status)

  /** What the engine adapter answers when a task is polled; Late stands for a passed deadline. */
  datatype Answer = StillRunning | Finished(output: Option<Payload>) | Broken | Late | PollRaises

  /** start_node raises for some nodes and inputs. */
  datatype Config = Config(ir: IR, input: Payload, starts: (Node, Payload) -> bool)

  /** `inflight` are the tasks being polled, `inputs` what each task started so far was given. */
  datatype State = State(pending: set<Node>, inflight: seq<Node>, inputs: map<Node, Payload>,
                         statuses: map<Node, Status>, outputs: map<Node, Json>, log: seq<Event>, failed: bool)

  /** What compilation guarantees: a topological order, nothing leading into the trigger. */
  ghost predicate Compiled(ir: IR) {
    && Distinct(ir.order)
    && ir.trigger in ir.order
    && ir.incoming.Keys == ir.specs.Keys == Elements(ir.order)
    && ir.incoming[ir.trigger] == []
    && forall i :: 0 <= i < |ir.order| ==> SourcesIn(ir.incoming[ir.order[i]], ir.order[..i])
  }

  ghost predicate SourcesIn(edges: seq<InEdge>, nodes: seq<Node>) {
    forall e :: e in edges ==> e.source in nodes
  }

  function Start(cfg: Config): State {
    State(set n | n in cfg.ir.order, [], map[], map[], map[], [], false)
  }

  predicate Terminal(statuses: map<Node, Status>, n: Node) {
    n in statuses && statuses[n] != Running
  }

  predicate IsCompleted(statuses: map<Node, Status>, n: Node) {
    n in statuses && statuses[n] == Completed
  }

  predicate ValidPayload(fields: Fields, payload: Payload) {
    fields == map[]
    || ((forall f :: f in fields && fields[f] ==> f in payload && payload[f] != Null) && payload.Keys <= fields.Keys)
  }

  // ------------------------------------------------------------------ one node's input

  /** The edges that fire, in order; None when a condition raises. */
  function Firing(edges: seq<InEdge>, statuses: map<Node, Status>, view: Snapshot, trigger: Node): Option<seq<InEdge>> {
    if edges == [] then Some([])
    else
      var last := edges[|edges| - 1];
      match Firing(edges[..|edges| - 1], statuses, view, trigger)
      case None => None
      case Some(fired) =>
        if !IsCompleted(statuses, last.source) then Some(fired)
        else if last.when == "" then Some(fired + [last])
        else
          match Holds(last.when, view, trigger)
          case None => None
          case Some(b) => Some(if b then fired + [last] else fired)
  }

  function MappedValue(m: Mapped, view: Snapshot, trigger: Node): Option<Json> {
    match m
    case Constant(v) => Some(v)
    case Reference(path) => ResolvePath(path, view, trigger)
  }

  /** resolve_mapping: all values of one edge, or None when a reference cannot be resolved. */
  function ResolveAll(mapping: seq<(string, Mapped)>, view: Snapshot, trigger: Node): Option<seq<(string, Json)>> {
    if mapping == [] then Some([])
    else
      var last := mapping[|mapping| - 1];
      match ResolveAll(mapping[..|mapping| - 1], view, trigger)
      case None => None
      case Some(values) =>
        match MappedValue(last.1, view, trigger)
        case None => None
        case Some(v) => Some(values + [(last.0, v)])
  }

  datatype Merge = Conflict | MergeRaises | Merged(payload: Payload)

  /** Later values overwrite equal earlier ones; unequal ones conflict. */
  function Put(m: Merge, values: seq<(string, Json)>): Merge {
    if values == [] || !m.Merged? then m
    else
      var last := values[|values| - 1];
      match Put(m, values[..|values| - 1])
      case Conflict => Conflict
      case MergeRaises => MergeRaises
      case Merged(p) => if last.0 in p && !PyEq(p[last.0], last.1) then Conflict else Merged(p[last.0 := last.1])
  }

  function MergeEdges(edges: seq<InEdge>, view: Snapshot, trigger: Node): Merge {
    if edges == [] then Merged(map[])
    else
      var m := MergeEdges(edges[..|edges| - 1], view, trigger);
      if !m.Merged? then m
      else
        match ResolveAll(edges[|edges| - 1].mapping, view, trigger)
        case None => MergeRaises
        case Some(values) => Put(m, values)
  }

  /** What the scheduler finds for a pending node. */
  datatype Readiness = NotReady | Skip | Fails | Raises | Go(input: Payload)

  function Checked(spec: NodeSpec, input: Payload): Readiness {
    if ValidPayload(spec.inFields, input) && spec.executable then Go(input) else Fails
  }

  function Readying(cfg: Config, n: Node, statuses: map<Node, Status>, outputs: map<Node, Json>): Readiness
    requires n in cfg.ir.incoming && n in cfg.ir.specs
  {
    var ir := cfg.ir;
    var edges := ir.incoming[n];
    var view := Snapshot(cfg.input, outputs);
    if n == ir.trigger then Checked(ir.specs[n], cfg.input)
    else if edges == [] then Checked(ir.specs[n], map[])
    else if exists i :: 0 <= i < |edges| && !Terminal(statuses, edges[i].source) then NotReady
    else
      match Firing(edges, statuses, view, ir.trigger)
      case None => Raises
      case Some(fired) =>
        if fired == [] then Skip
        else
          match MergeEdges(fired, view, ir.trigger)
          case Conflict => Fails
          case MergeRaises => Raises
          case Merged(input) => Checked(ir.specs[n], input)
  }

  // ------------------------------------------------------------------ steps

  /** _schedule_if_ready and the bookkeeping around it; None when an exception escapes. */
  function Schedule(cfg: Config, s: State, n: Node): Option<State>
    requires n in cfg.ir.incoming && n in cfg.ir.specs
  {
    match Readying(cfg, n, s.statuses, s.outputs)
    case NotReady => Some(s)
    case Raises => None
    case Skip => Some(s.(pending := s.pending - {n}, statuses := s.statuses[n := Skipped],
                         log := s.log + [Event(NodeCompleted, n, Skipped)]))
    case Fails => Some(s.(pending := s.pending - {n}, statuses := s.statuses[n := Failed],
                          log := s.log + [Event(NodeFailed, n, Failed)], failed := true))
    case Go(input) =>
      if !cfg.starts(n, input) then None
      else Some(s.(pending := s.pending - {n}, inflight := s.inflight + [n], inputs := s.inputs[n := input],
                   statuses := s.statuses[n := Running], log := s.log + [Event(NodeScheduled, n, Running)]))
  }

  /** One scheduling pass over the first k nodes of the order. */
  function Sweep(cfg: Config, s: State, k: nat): Option<State>
    requires k <= |cfg.ir.order| && Elements(cfg.ir.order) <= cfg.ir.incoming.Keys * cfg.ir.specs.Keys
  {
    if k == 0 then Some(s)
    else
      match Sweep(cfg, s, k - 1)
      case None => None
      case Some(t) =>
        var n := cfg.ir.order[k - 1];
        assert n in Elements(cfg.ir.order);
        if n in t.pending then Schedule(cfg, t, n) else Some(t)
  }

  function Without(s: seq<Node>, n: Node): seq<Node> {
    if s == [] then []
    else Without(s[..|s| - 1], n) + (if s[|s| - 1] == n then [] else [s[|s| - 1]])
  }

  function PayloadOf(output: Option<Payload>): Payload {
    if output.Some? then output.value else map[]
  }

  /** The outcome of polling one task; None when an exception escapes, an invalid output included. */
  function Poll(cfg: Config, s: State, n: Node, answer: Answer): Option<State>
    requires n in cfg.ir.specs
  {
    match answer
    case StillRunning => Some(s)
    case PollRaises => None
    case Finished(output) =>
      if !ValidPayload(cfg.ir.specs[n].outFields, PayloadOf(output)) then None
      else Some(s.(inflight := Without(s.inflight, n), statuses := s.statuses[n := Completed],
                   outputs := s.outputs[n := Obj(PayloadOf(output))],
                   log := s.log + [Event(NodeCompleted, n, Completed)]))
    case Broken => Some(s.(inflight := Without(s.inflight, n), statuses := s.statuses[n := Failed],
                           log := s.log + [Event(NodeFailed, n, Failed)], failed := true))
    case Late => Some(s.(inflight := Without(s.inflight, n), statuses := s.statuses[n := TimedOut],
                         log := s.log + [Event(NodeFailed, n, TimedOut)], failed := true))
  }

  /** The answers of one polling pass; a node without an entry is still running. */
  type Answers = map<Node, Answer>

  function AnswerFor(answers: Answers, n: Node): Answer {
    if n in answers then answers[n] else StillRunning
  }

  /** Polls the first k tasks of the snapshot taken before the pass. */
  function PollPass(cfg: Config, s: State, tasks: seq<Node>, answers: Answers, k: nat): Option<State>
    requires k <= |tasks| && Elements(tasks) <= cfg.ir.specs.Keys
  {
    if k == 0 then Some(s)
    else
      match PollPass(cfg, s, tasks, answers, k - 1)
      case None => None
      case Some(t) =>
        assert tasks[k - 1] in Elements(tasks);
        Poll(cfg, t, tasks[k - 1], AnswerFor(answers, tasks[k - 1]))
  }

  /** Where the loop is after a pass: it goes on, has left the loop, or an exception has escaped. */
  datatype Progress = Going(s: State) | Ended(s: State) | Aborted

  // ------------------------------------------------------------------ replay

  /** Statuses rebuilt from the log, event by event. */
  function Replay(log: seq<Event>): map<Node, Status> {
    if log == [] then map[]
    else
      var e := log[|log| - 1];
      var before := Replay(log[..|log| - 1]);
      match e.name
      case NodeScheduled => before[e.node := Running]
      case NodeCompleted => before[e.node := e.status]
      case NodeFailed => before[e.node := e.status]
  }

  datatype RunStatus = RunRunning | RunCompleted | RunFailed

  predicate AllSucceeded(statuses: map<Node, Status>) {
    forall n :: n in statuses ==> statuses[n] == Completed || statuses[n] == Skipped
  }

  /** The run status derived from replayed node statuses. */
  function DerivedStatus(statuses: map<Node, Status>): RunStatus {
    if exists n :: n in statuses && (statuses[n] == Failed || statuses[n] == TimedOut) then RunFailed
    else if statuses != map[] && AllSucceeded(statuses) then RunCompleted
    else RunRunning
  }
}
