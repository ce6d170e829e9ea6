/** The linear runtime: what visiting one node does to the run, as functions of the run's state. */
module LinearSpec {
  import opened Graphs
  import opened Wrappers
  import opened Json
  import opened WhenValues
  import Mappings = OrchestratorSpec

  type Node = string
  type Payload = map<string, Json>

  datatype Base = Opaque | BoolBase | NumberBase | StringBase | EnumBase(values: seq<string>) | ListBase

  datatype FieldType = FieldType(required: bool, base: Base)

  type Fields = map<string, FieldType>

  /** An edge's failure action; a route or notification may lack its target. */
  datatype OnFailure = Route(to: Option<Node>) | Notify(node: Option<Node>) | FailRun

  /** An incoming edge; without a guard it fires whenever its source completed. */
  datatype ChainEdge = ChainEdge(plain: Mappings.InEdge, guarded: bool, onFailure: Option<OnFailure>)

  /** An escalation rule of the process policy. */
  datatype Rule = Rule(node: Node, event: string, afterAttempts: int, routeTo: Node)

  datatype NodeSpec = NodeSpec(inFields: Fields, outFields: Fields, maxAttempts: nat, retryable: set<string>,
                               timeoutOutput: Option<Payload>, stable: seq<string>, unstable: seq<string>)

  /** A compiled process; `trigger` is the node the run starts from, `alias` the name the process gives its
      trigger, which is what paths that begin with `trigger` mean - a different name when the trigger is a
      module instance. One trigger input, the nodes policy or a missing provider blocks, the digest behind
      idempotency keys, and what redaction does to logged values. */
  datatype Config = Config(order: seq<Node>, trigger: Node, alias: Node,
                           incoming: map<Node, seq<ChainEdge>>, specs: map<Node, NodeSpec>,
                           rules: seq<Rule>, input: Payload, blocked: set<Node>,
                           digest: (Node, Payload) -> string, redact: (Node, Json) -> Json)

  ghost predicate Compiled(cfg: Config) {
    && Distinct(cfg.order) && cfg.trigger in cfg.order
    && cfg.incoming.Keys == cfg.specs.Keys == Elements(cfg.order)
    && (forall n :: n in cfg.specs ==> cfg.specs[n].maxAttempts >= 1)
    && forall i :: 0 <= i < |cfg.order| ==> SourcesIn(cfg.incoming[cfg.order[i]], cfg.order[..i])
  }

  ghost predicate SourcesIn(edges: seq<ChainEdge>, nodes: seq<Node>) {
    forall e :: e in edges ==> e.plain.source in nodes
  }

  /** What one attempt at a node's provider comes to. A cancelled attempt is an error with code "cancelled". */
  datatype Attempt = Output(o: Option<Payload>) | Error(code: string, text: string, retryable: bool) | RanOut

  type Provider = (Node, Payload, nat) -> Attempt

  datatype Status = Completed | Failed | Skipped | TimedOut | Cancelled

  datatype RunStatus = Running | RunFailed | RunCancelled | RunCompleted

  /** A log entry: absent key and output are fields the entry does not have. */
  datatype Entry = Entry(node: Node, status: Status, key: Option<string>, output: Option<Json>)

  datatype RunState = RunState(outputs: map<Node, Json>, statuses: map<Node, Status>, log: seq<Entry>,
                               routes: map<Node, Payload>, recoverable: seq<Node>, run: RunStatus)

  /** The partial state a node function returns, its run status filled in. */
  datatype Update = Update(status: Status, output: Option<Json>, entry: Entry, routes: map<Node, Payload>,
                           recoverable: bool, run: RunStatus)

  /** The state reducers. */
  function Apply(s: RunState, n: Node, u: Update): RunState {
    RunState(if u.output.Some? then s.outputs[n := u.output.value] else s.outputs,
             s.statuses[n := u.status], s.log + [u.entry], s.routes + u.routes,
             s.recoverable + (if u.recoverable then [n] else []), u.run)
  }

  // ------------------------------------------------------------------ payloads

  predicate HasBase(v: Json, base: Base) {
    match base
    case Opaque => true
    case BoolBase => v.Bool?
    case NumberBase => v.Num?
    case StringBase => v.Str?
    case EnumBase(values) => values == [] || (v.Str? && v.s in values)
    case ListBase => v.Arr?
  }

  /** _validate_payload. */
  predicate Accepts(fields: Fields, payload: Payload) {
    fields == map[]
    || (&& (forall f :: f in fields && fields[f].required ==> f in payload && payload[f] != Null)
        && payload.Keys <= fields.Keys
        && forall f :: f in payload && f in fields && payload[f] != Null ==> HasBase(payload[f], fields[f].base))
  }

  /** The part of an input that identifies the call. */
  function Identifying(spec: NodeSpec, payload: Payload): Payload {
    if spec.stable != [] then map f | f in payload && f in spec.stable :: payload[f]
    else map f | f in payload && f !in spec.unstable :: payload[f]
  }

  function KeyOf(cfg: Config, n: Node, input: Payload): string
    requires n in cfg.specs
  {
    cfg.digest(n, Identifying(cfg.specs[n], input))
  }

  // ------------------------------------------------------------------ activation

  function Plain(edges: seq<ChainEdge>): (r: seq<Mappings.InEdge>)
    ensures |r| == |edges| && forall i :: 0 <= i < |edges| ==> r[i] == edges[i].plain
  {
    seq(|edges|, i requires 0 <= i < |edges| => edges[i].plain)
  }

  /** Its source completed and its condition, if it has one, evaluates to true. */
  predicate Fires(cfg: Config, s: RunState, e: ChainEdge) {
    && e.plain.source in s.statuses && s.statuses[e.plain.source] == Completed
    && (!e.guarded || Holds(e.plain.when, Snapshot(cfg.input, s.outputs), cfg.alias) == Some(true))
  }

  function FiringEdges(cfg: Config, s: RunState, edges: seq<ChainEdge>): (fired: seq<ChainEdge>)
    ensures forall e :: e in fired <==> e in edges && Fires(cfg, s, e)
  {
    if edges == [] then []
    else
      var n := |edges| - 1;
      assert edges == edges[..n] + [edges[n]];
      FiringEdges(cfg, s, edges[..n]) + (if Fires(cfg, s, edges[n]) then [edges[n]] else [])
  }

  /** What brings a node to life: a failure route's payload, or the merged mappings of the firing edges. */
  datatype Activation = Idle | Conflicting | Raises | Active(input: Payload, fired: seq<ChainEdge>)

  function Activate(cfg: Config, s: RunState, n: Node): Activation
    requires n in cfg.incoming
  {
    if n in s.routes then Active(s.routes[n], [])
    else
      var fired := FiringEdges(cfg, s, cfg.incoming[n]);
      if fired == [] then Idle
      else
        match Mappings.MergeEdges(Plain(fired), Snapshot(cfg.input, s.outputs), cfg.alias)
        case Conflict => Conflicting
        case MergeRaises => Raises
        case Merged(input) => Active(input, fired)
  }

  // ------------------------------------------------------------------ attempts

  /** No further attempt follows: a result, a timeout, or an error that is not retried. */
  predicate Decisive(spec: NodeSpec, a: Attempt) {
    match a
    case Output(_) => true
    case RanOut => true
    case Error(code, _, retryable) => !retryable || (spec.retryable != {} && code !in spec.retryable)
  }

  /** How many attempts are made, counting the first k. */
  function AttemptsUsed(spec: NodeSpec, provider: Provider, n: Node, input: Payload, k: nat): (used: nat)
    requires k < spec.maxAttempts
    ensures k < used <= spec.maxAttempts
    ensures forall j :: k <= j < used - 1 ==> !Decisive(spec, provider(n, input, j))
    ensures used == spec.maxAttempts || Decisive(spec, provider(n, input, used - 1))
    decreases spec.maxAttempts - k
  {
    if Decisive(spec, provider(n, input, k)) || k + 1 == spec.maxAttempts then k + 1
    else AttemptsUsed(spec, provider, n, input, k + 1)
  }

  // ------------------------------------------------------------------ failures

  function Escalations(rules: seq<Rule>, n: Node, event: string, attempts: nat, payload: Payload): map<Node, Payload> {
    if rules == [] then map[]
    else
      var last := rules[|rules| - 1];
      var before := Escalations(rules[..|rules| - 1], n, event, attempts, payload);
      if last.node == n && last.event == event && attempts >= last.afterAttempts && last.routeTo != ""
      then before[last.routeTo := payload] else before
  }

  function WithFailure(input: Payload, n: Node, code: string, text: string): Payload {
    input["__failure__" := Obj(map["node" := Str(n), "code" := Str(code), "error" := Str(text)])]
  }

  /** The routes the firing edges' failure actions add, and whether one of them forces failure. */
  datatype Reaction = Reaction(routes: map<Node, Payload>, forced: bool)

  function React(fired: seq<ChainEdge>, n: Node, input: Payload, code: string, text: string): Reaction {
    if fired == [] then Reaction(map[], false)
    else
      var r := React(fired[..|fired| - 1], n, input, code, text);
      match fired[|fired| - 1].onFailure
      case None => r
      case Some(Route(to)) => if to.Some? then r.(routes := r.routes[to.value := input]) else r
      case Some(Notify(m)) =>
        if m.Some? then r.(routes := r.routes[m.value := WithFailure(input, n, code, text)]) else r
      case Some(FailRun) => r.(forced := true)
  }

  // ------------------------------------------------------------------ one node

  /** A node function's result: its update, the attempts it made, and the result it cached. */
  datatype Visit = Visit(u: Update, attempts: nat, cached: Option<(string, Payload)>)

  function Quiet(u: Update): Visit { Visit(u, 0, None) }

  function Plainly(n: Node, status: Status, run: RunStatus): Visit {
    Quiet(Update(status, None, Entry(n, status, None, None), map[], false, run))
  }

  function JsonOf(output: Option<Payload>): Json {
    match output case None => Null case Some(p) => Obj(p)
  }

  function AfterTimeout(cfg: Config, s: RunState, n: Node, input: Payload, used: nat): Visit
    requires n in cfg.specs
  {
    var spec, key := cfg.specs[n], Some(KeyOf(cfg, n, input));
    match spec.timeoutOutput
    case Some(out) =>
      var entry := Entry(n, TimedOut, key, Some(cfg.redact(n, Obj(out))));
      Visit(Update(Completed, Some(Obj(out)), entry, map[], false, s.run), used, None)
    case None =>
      var routes := Escalations(cfg.rules, n, "timeout", spec.maxAttempts, input);
      var run := if routes == map[] then RunFailed else s.run;
      Visit(Update(TimedOut, None, Entry(n, TimedOut, key, None), routes, false, run), used, None)
  }

  function AfterError(cfg: Config, s: RunState, n: Node, input: Payload, fired: seq<ChainEdge>, code: string,
                      text: string, used: nat): Visit
    requires n in cfg.specs
  {
    var reaction := React(fired, n, input, code, text);
    var escalated :=
      if reaction.forced then map[] else Escalations(cfg.rules, n, "failure", cfg.specs[n].maxAttempts, input);
    var routes := reaction.routes + escalated;
    var status := if code == "cancelled" then Cancelled else Failed;
    var run := if code == "cancelled" then RunCancelled
               else if reaction.forced || routes == map[] then RunFailed else s.run;
    Visit(Update(status, None, Entry(n, status, Some(KeyOf(cfg, n, input)), None), routes, routes != map[], run), used,
          None)
  }

  function AfterOutput(cfg: Config, s: RunState, n: Node, input: Payload, output: Option<Payload>, used: nat): Visit
    requires n in cfg.specs
  {
    if output.Some? && !Accepts(cfg.specs[n].outFields, output.value) then
      Plainly(n, Failed, RunFailed).(attempts := used)
    else
      var key := KeyOf(cfg, n, input);
      Visit(Update(Completed, Some(JsonOf(output)),
                   Entry(n, Completed, Some(key), Some(cfg.redact(n, JsonOf(output)))), map[], false, s.run),
            used, Some((key, if output.Some? then output.value else map[])))
  }

  function Call(cfg: Config, provider: Provider, s: RunState, n: Node, input: Payload, fired: seq<ChainEdge>): Visit
    requires n in cfg.specs && cfg.specs[n].maxAttempts >= 1
  {
    var used := AttemptsUsed(cfg.specs[n], provider, n, input, 0);
    match provider(n, input, used - 1)
    case RanOut => AfterTimeout(cfg, s, n, input, used)
    case Error(code, text, _) => AfterError(cfg, s, n, input, fired, code, text, used)
    case Output(o) => AfterOutput(cfg, s, n, input, o, used)
  }

  function Execute(cfg: Config, provider: Provider, cache: map<string, Payload>, s: RunState, n: Node, input: Payload,
                   fired: seq<ChainEdge>): Visit
    requires n in cfg.specs && cfg.specs[n].maxAttempts >= 1
  {
    var key := KeyOf(cfg, n, input);
    if !Accepts(cfg.specs[n].inFields, input) then Plainly(n, Failed, s.run)
    else if n in cfg.blocked then Plainly(n, Failed, RunFailed)
    else if key in cache then
      var out := Obj(cache[key]);
      Quiet(Update(Completed, Some(out), Entry(n, Completed, Some(key), Some(cfg.redact(n, out))), map[], false, s.run))
    else Call(cfg, provider, s, n, input, fired)
  }

  function PassTrigger(cfg: Config, s: RunState, n: Node): Visit {
    Quiet(Update(Completed, Some(Obj(cfg.input)), Entry(n, Completed, None, Some(cfg.redact(n, Obj(cfg.input)))),
                 map[], false, s.run))
  }

  /** node_fn; None when resolving a mapping raises. */
  function VisitNode(cfg: Config, provider: Provider, cache: map<string, Payload>, s: RunState, n: Node): Option<Visit>
    requires n in cfg.specs && n in cfg.incoming && cfg.specs[n].maxAttempts >= 1
  {
    if s.run == RunFailed then Some(Plainly(n, Skipped, RunFailed))
    else if s.run == RunCancelled then Some(Plainly(n, Cancelled, RunCancelled))
    else if n == cfg.trigger then Some(PassTrigger(cfg, s, n))
    else
      match Activate(cfg, s, n)
      case Idle => Some(Plainly(n, Skipped, s.run))
      case Conflicting => Some(Plainly(n, Failed, RunFailed))
      case Raises => None
      case Active(input, fired) => Some(Execute(cfg, provider, cache, s, n, input, fired))
  }

  // ------------------------------------------------------------------ a run

  /** The state, the result cache, and the nodes whose provider was called, once per attempt. */
  datatype World = World(state: RunState, cache: map<string, Payload>, calls: seq<Node>)

  function Repeat(n: Node, k: nat): (r: seq<Node>)
    ensures |r| == k && forall x :: x in r ==> x == n
  {
    seq(k, i => n)
  }

  function Absorb(w: World, n: Node, v: Visit): World {
    World(Apply(w.state, n, v.u), if v.cached.Some? then w.cache[v.cached.value.0 := v.cached.value.1] else w.cache,
          w.calls + Repeat(n, v.attempts))
  }

  function Begin(cache: map<string, Payload>): World {
    World(RunState(map[], map[], [], map[], [], Running), cache, [])
  }

  lemma NodeIsKnown(cfg: Config, k: nat)
    requires Compiled(cfg) && k < |cfg.order|
    ensures cfg.order[k] in cfg.incoming && cfg.order[k] in cfg.specs && cfg.specs[cfg.order[k]].maxAttempts >= 1
  {
    assert cfg.order[k] in Elements(cfg.order);
  }

  /** The first k nodes of the chain; None when an exception escapes. */
  ghost function After(cfg: Config, provider: Provider, cache: map<string, Payload>, k: nat): Option<World>
    requires Compiled(cfg) && k <= |cfg.order|
  {
    if k == 0 then Some(Begin(cache))
    else
      match After(cfg, provider, cache, k - 1)
      case None => None
      case Some(w) =>
        NodeIsKnown(cfg, k - 1);
        match VisitNode(cfg, provider, w.cache, w.state, cfg.order[k - 1])
        case None => None
        case Some(v) => Some(Absorb(w, cfg.order[k - 1], v))
  }

  /** The status run() reports. */
  function FinalStatus(s: RunState): RunStatus {
    if s.run != Running then s.run
    else if exists n :: n in s.statuses && s.statuses[n] == Cancelled then RunCancelled
    else if exists n :: n in s.statuses && s.statuses[n] == Failed && n !in s.recoverable then RunFailed
    else RunCompleted
  }
}
