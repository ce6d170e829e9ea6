/** What every node's status, output and failure routes mean in a run of the linear chain. */
module LinearMeaning {
  import opened Graphs
  import opened Wrappers
  import opened Json
  import opened WhenValues
  import opened MergeLaws
  import opened LinearSpec
  import opened LinearRuns
  import Mappings = OrchestratorSpec

  function View(cfg: Config, s: RunState): Snapshot { Snapshot(cfg.input, s.outputs) }

  /** The edge's source completed and its guard, if it has one, is true; a guard that raises is not. */
  ghost predicate EdgeFires(cfg: Config, s: RunState, e: ChainEdge) {
    && e.plain.source in s.statuses && s.statuses[e.plain.source] == Completed
    && (!e.guarded || Holds(e.plain.when, View(cfg, s), cfg.alias) == Some(true))
  }

  /** The edges that fire, in order. */
  ghost function Fired(cfg: Config, s: RunState, edges: seq<ChainEdge>): (r: seq<ChainEdge>)
    ensures forall e :: e in r <==> e in edges && EdgeFires(cfg, s, e)
  {
    if edges == [] then []
    else
      var n := |edges| - 1;
      assert edges == edges[..n] + [edges[n]];
      Fired(cfg, s, edges[..n]) + (if EdgeFires(cfg, s, edges[n]) then [edges[n]] else [])
  }

  function Mapped(edges: seq<ChainEdge>): Entries { AllEntries(Plain(edges)) }

  /** What a node is run on: the payload a failure route brought, or what the firing edges' mappings merge to. */
  ghost predicate InputIs(cfg: Config, s: RunState, n: Node, input: Payload)
    requires n in cfg.incoming
  {
    if n in s.routes then input == s.routes[n]
    else
      var fired := Fired(cfg, s, cfg.incoming[n]);
      && fired != [] && Resolvable(Mapped(fired), View(cfg, s), cfg.alias)
      && !Clash(Mapped(fired), View(cfg, s), cfg.alias) && MergesTo(Mapped(fired), View(cfg, s), cfg.alias, input)
  }

  /** Neither a failure route nor an edge leads to the node. */
  ghost predicate Unreached(cfg: Config, s: RunState, n: Node)
    requires n in cfg.incoming
  {
    n != cfg.trigger && n !in s.routes && forall e :: e in cfg.incoming[n] ==> !EdgeFires(cfg, s, e)
  }

  /** The mappings of the firing edges clash. */
  ghost predicate Clashes(cfg: Config, s: RunState, n: Node)
    requires n in cfg.incoming
  {
    && n != cfg.trigger && n !in s.routes
    && exists j: nat :: ClashesAt(Plain(Fired(cfg, s, cfg.incoming[n])), View(cfg, s), cfg.alias, j)
  }

  /** An entry of a firing edge's mapping does not resolve. */
  ghost predicate Stops(cfg: Config, s: RunState, n: Node)
    requires n in cfg.incoming
  {
    && n != cfg.trigger && n !in s.routes
    && exists j: nat :: RaisesAt(Plain(Fired(cfg, s, cfg.incoming[n])), View(cfg, s), cfg.alias, j)
  }

  ghost predicate HasType(v: Json, base: Base) {
    match base
    case Opaque => true
    case BoolBase => v.Bool?
    case NumberBase => v.Num?
    case StringBase => v.Str?
    case EnumBase(values) => values != [] ==> exists x :: x in values && v == Str(x)
    case ListBase => v.Arr?
  }

  /** A payload has a type's required fields, not null, no field the type does not have, and values of the fields'
      types or null. */
  ghost predicate Fits(fields: Fields, p: Payload) {
    fields != map[] ==>
      && (forall f :: f in fields && fields[f].required ==> f in p && p[f] != Null)
      && forall f :: f in p ==> f in fields && (p[f] != Null ==> HasType(p[f], fields[f].base))
  }

  /** An error the retry policy tries again. */
  ghost predicate Retried(spec: NodeSpec, a: Attempt) {
    a.Error? && a.retryable && (spec.retryable == {} || a.code in spec.retryable)
  }

  /** The attempts made: each but the last was tried again, the last was not or was the last allowed. */
  ghost predicate LastAttempt(spec: NodeSpec, provider: Provider, n: Node, input: Payload, used: nat, a: Attempt) {
    && 1 <= used <= spec.maxAttempts && a == provider(n, input, used - 1)
    && (forall j :: 0 <= j < used - 1 ==> Retried(spec, provider(n, input, j)))
    && (used == spec.maxAttempts || !Retried(spec, a))
  }

  // ------------------------------------------------------------------ routes

  /** A policy rule for the node and the event sends the node's input to the target. */
  ghost predicate RuleRoutes(rules: seq<Rule>, n: Node, event: string, attempts: nat, to: Node) {
    exists r :: r in rules && Covers(r, n, event, attempts, to)
  }

  ghost predicate Covers(r: Rule, n: Node, event: string, attempts: nat, to: Node) {
    r.node == n && r.event == event && attempts >= r.afterAttempts && r.routeTo == to && to != ""
  }

  /** A firing edge's failure action names the target. */
  ghost predicate EdgeRoutes(fired: seq<ChainEdge>, to: Node) {
    exists e :: e in fired && e.onFailure == Some(Route(Some(to)))
  }

  ghost predicate EdgeNotifies(fired: seq<ChainEdge>, to: Node) {
    exists e :: e in fired && e.onFailure == Some(Notify(Some(to)))
  }

  predicate NamesTarget(e: ChainEdge, to: Node) {
    e.onFailure == Some(Route(Some(to))) || e.onFailure == Some(Notify(Some(to)))
  }

  /** The last of the firing edges whose failure action names the target. */
  ghost predicate LastToName(fired: seq<ChainEdge>, to: Node, i: nat) {
    i < |fired| && NamesTarget(fired[i], to) && forall j :: i < j < |fired| ==> !NamesTarget(fired[j], to)
  }

  ghost predicate EdgeForces(fired: seq<ChainEdge>) {
    exists e :: e in fired && e.onFailure == Some(FailRun)
  }

  /** What a notified node is given: the input, and what failed how. */
  ghost predicate Notice(input: Payload, n: Node, code: string, text: string, p: Payload) {
    && p.Keys == input.Keys + {"__failure__"} && (forall k :: k in input && k != "__failure__" ==> p[k] == input[k])
    && p["__failure__"] == Obj(map["node" := Str(n), "code" := Str(code), "error" := Str(text)])
  }

  /** The routes are exactly the rules' targets, each with the payload. */
  ghost predicate RoutesOfRules(m: map<Node, Payload>, rules: seq<Rule>, n: Node, event: string, attempts: nat,
                                payload: Payload)
  {
    && (forall to :: to in m <==> RuleRoutes(rules, n, event, attempts, to))
    && (forall to :: to in m ==> m[to] == payload)
  }

  lemma OneMoreRule(rules: seq<Rule>, last: Rule, n: Node, event: string, attempts: nat, to: Node)
    ensures RuleRoutes(rules + [last], n, event, attempts, to) <==>
      RuleRoutes(rules, n, event, attempts, to) || Covers(last, n, event, attempts, to)
  {
    hide Covers;
    assert (rules + [last])[|rules|] == last;
  }

  lemma {:induction false} EscalationsMean(rules: seq<Rule>, n: Node, event: string, attempts: nat, payload: Payload)
    ensures RoutesOfRules(Escalations(rules, n, event, attempts, payload), rules, n, event, attempts, payload)
  {
    hide RuleRoutes;
    if rules == [] {
      NoRules(n, event, attempts);
    } else {
      var k := |rules| - 1;
      EscalationsMean(rules[..k], n, event, attempts, payload);
      assert rules == rules[..k] + [rules[k]];
      forall to ensures RuleRoutes(rules, n, event, attempts, to) <==>
        RuleRoutes(rules[..k], n, event, attempts, to) || Covers(rules[k], n, event, attempts, to)
      {
        OneMoreRule(rules[..k], rules[k], n, event, attempts, to);
      }
    }
  }

  lemma NoRules(n: Node, event: string, attempts: nat)
    ensures forall to :: !RuleRoutes([], n, event, attempts, to)
  {
  }

  lemma NoticeIs(input: Payload, n: Node, code: string, text: string)
    ensures Notice(input, n, code, text, WithFailure(input, n, code, text))
  {
  }

  /** A target is given what the last edge that names it says: the input, or a notice. */
  ghost predicate LastDecides(fired: seq<ChainEdge>, n: Node, input: Payload, code: string, text: string, to: Node,
                              p: Payload)
  {
    forall i: nat :: LastToName(fired, to, i) ==>
      if fired[i].onFailure == Some(Route(Some(to))) then p == input else Notice(input, n, code, text, p)
  }

  /** Whether failure is forced, and the targets named, each with the input or a notice. */
  ghost predicate ReactionIs(r: Reaction, fired: seq<ChainEdge>, n: Node, input: Payload, code: string, text: string) {
    && (r.forced <==> EdgeForces(fired))
    && (forall to :: to in r.routes <==> EdgeRoutes(fired, to) || EdgeNotifies(fired, to))
    && (forall to :: to in r.routes ==> LastDecides(fired, n, input, code, text, to, r.routes[to]))
  }

  lemma {:induction false} ReactMeans(fired: seq<ChainEdge>, n: Node, input: Payload, code: string, text: string)
    ensures ReactionIs(React(fired, n, input, code, text), fired, n, input, code, text)
  {
    hide ReactionIs;
    if fired == [] {
      NoReaction(n, input, code, text);
    } else {
      var k := |fired| - 1;
      ReactMeans(fired[..k], n, input, code, text);
      ReactStep(fired, n, input, code, text);
    }
  }

  lemma NoReaction(n: Node, input: Payload, code: string, text: string)
    ensures ReactionIs(Reaction(map[], false), [], n, input, code, text)
  {
  }

  lemma ReactStep(fired: seq<ChainEdge>, n: Node, input: Payload, code: string, text: string)
    requires fired != []
    requires var before := fired[..|fired| - 1];
      ReactionIs(React(before, n, input, code, text), before, n, input, code, text)
    ensures ReactionIs(React(fired, n, input, code, text), fired, n, input, code, text)
  {
    hide WithFailure, Notice, EdgeForces, EdgeRoutes, EdgeNotifies, LastDecides, LastToName;
    var k := |fired| - 1;
    var r := React(fired, n, input, code, text);
    NoticeIs(input, n, code, text);
    assert fired == fired[..k] + [fired[k]];
    OneMoreAction(fired[..k], fired[k]);
    forall to | to in r.routes ensures LastDecides(fired, n, input, code, text, to, r.routes[to]) {
      if NamesTarget(fired[k], to) {
        NewDecides(fired[..k], fired[k], n, input, code, text, to, r.routes[to]);
      } else {
        OldDecides(fired[..k], fired[k], n, input, code, text, to, r.routes[to]);
      }
    }
  }

  lemma NewDecides(fired: seq<ChainEdge>, e: ChainEdge, n: Node, input: Payload, code: string, text: string, to: Node,
                   p: Payload)
    requires if e.onFailure == Some(Route(Some(to))) then p == input else Notice(input, n, code, text, p)
    requires NamesTarget(e, to)
    ensures LastDecides(fired + [e], n, input, code, text, to, p)
  {
    hide Notice;
    assert (fired + [e])[|fired|] == e;
  }

  lemma OldDecides(fired: seq<ChainEdge>, e: ChainEdge, n: Node, input: Payload, code: string, text: string, to: Node,
                   p: Payload)
    requires !NamesTarget(e, to) && LastDecides(fired, n, input, code, text, to, p)
    ensures LastDecides(fired + [e], n, input, code, text, to, p)
  {
    hide Notice;
    var all := fired + [e];
    forall i: nat | LastToName(all, to, i)
      ensures if all[i].onFailure == Some(Route(Some(to))) then p == input else Notice(input, n, code, text, p)
    {
      assert all[i] == fired[i];
      assert forall j :: i < j < |fired| ==> all[j] == fired[j];
      assert LastToName(fired, to, i);
    }
  }

  lemma OneMoreAction(fired: seq<ChainEdge>, e: ChainEdge)
    ensures EdgeForces(fired + [e]) <==> EdgeForces(fired) || e.onFailure == Some(FailRun)
    ensures forall to :: EdgeRoutes(fired + [e], to) <==> EdgeRoutes(fired, to) || e.onFailure == Some(Route(Some(to)))
    ensures forall to :: EdgeNotifies(fired + [e], to) <==>
      EdgeNotifies(fired, to) || e.onFailure == Some(Notify(Some(to)))
  {
    assert (fired + [e])[|fired|] == e;
  }

  // ------------------------------------------------------------------ one node

  /** What a node's turn leaves behind. */
  datatype Turn = Turn(status: Status, output: Option<Json>, entry: Entry, run: RunStatus, routes: map<Node, Payload>,
                           recovers: bool, attempts: nat, cached: Option<(string, Payload)>)

  /** The step from w to t is this result of node n. */
  ghost predicate Leaves(w: World, t: World, n: Node, r: Turn) {
    && t.state.statuses == w.state.statuses[n := r.status]
    && t.state.outputs == (match r.output case Some(v) => w.state.outputs[n := v] case None => w.state.outputs)
    && t.state.log == w.state.log + [r.entry] && t.state.run == r.run && t.state.routes == w.state.routes + r.routes
    && t.state.recoverable == w.state.recoverable + (if r.recovers then [n] else [])
    && t.cache == (match r.cached case Some((key, out)) => w.cache[key := out] case None => w.cache)
    && |t.calls| == |w.calls| + r.attempts && w.calls <= t.calls && forall i :: |w.calls| <= i < |t.calls| ==>
      t.calls[i] == n
  }

  /** No call, no output, no route. */
  predicate JustStatus(r: Turn, n: Node, status: Status, run: RunStatus) {
    r == Turn(status, None, Entry(n, status, None, None), run, map[], false, 0, None)
  }

  /** Completed, and logged with the redacted output. */
  predicate Completes(cfg: Config, r: Turn, n: Node, v: Json, logged: Status, key: Option<string>) {
    && r.status == Completed && r.output == Some(v) && r.run == Running && r.routes == map[] && !r.recovers
    && r.entry == Entry(n, logged, key, Some(cfg.redact(n, v)))
  }

  /** The part of an input that the key is made of: the stable fields, if any are declared, else all but the unstable.
      */
  ghost predicate IdentityIs(spec: NodeSpec, input: Payload, q: Payload) {
    forall f :: (f in q <==> f in input && (if spec.stable != [] then f in spec.stable else f !in spec.unstable))
                && (f in q ==> q[f] == input[f])
  }

  ghost predicate KeyIs(cfg: Config, n: Node, input: Payload, key: string)
    requires n in cfg.specs
  {
    exists q :: IdentityIs(cfg.specs[n], input, q) && key == cfg.digest(n, q)
  }

  ghost predicate TimesOut(cfg: Config, n: Node, input: Payload, key: string, r: Turn)
    requires n in cfg.specs
  {
    r.cached == None &&
    match cfg.specs[n].timeoutOutput
    case Some(out) => Completes(cfg, r, n, Obj(out), TimedOut, Some(key))
    case None =>
      && r.status == TimedOut && r.output == None && r.entry == Entry(n, TimedOut, Some(key), None) && !r.recovers
      && RoutesOfRules(r.routes, cfg.rules, n, "timeout", cfg.specs[n].maxAttempts, input)
      && r.run == (if r.routes == map[] then RunFailed else Running)
  }

  /** The routes of the firing edges' failure actions, and those of the policy unless failure is forced. */
  ghost predicate FailureRoutes(cfg: Config, n: Node, input: Payload, fired: seq<ChainEdge>, code: string,
                                text: string, to: Node, routes: map<Node, Payload>)
    requires n in cfg.specs
  {
    var rules := !EdgeForces(fired) && RuleRoutes(cfg.rules, n, "failure", cfg.specs[n].maxAttempts, to);
    && (to in routes <==> rules || EdgeRoutes(fired, to) || EdgeNotifies(fired, to))
    && (to in routes ==>
          if rules then routes[to] == input else LastDecides(fired, n, input, code, text, to, routes[to]))
  }

  ghost predicate FailsWith(cfg: Config, n: Node, input: Payload, key: string, fired: seq<ChainEdge>, code: string,
                            text: string, r: Turn)
    requires n in cfg.specs
  {
    var status := if code == "cancelled" then Cancelled else Failed;
    && r.status == status && r.output == None && r.entry == Entry(n, status, Some(key), None) && r.cached == None
    && (forall to :: FailureRoutes(cfg, n, input, fired, code, text, to, r.routes))
    && r.recovers == (r.routes != map[])
    && r.run == (if code == "cancelled" then RunCancelled
                 else if EdgeForces(fired) || r.routes == map[] then RunFailed else Running)
  }

  ghost predicate Delivers(cfg: Config, n: Node, key: string, o: Option<Payload>, r: Turn)
    requires n in cfg.specs
  {
    if o.Some? && !Fits(cfg.specs[n].outFields, o.value)
    then JustStatus(r.(attempts := 0), n, Failed, RunFailed)
    else Completes(cfg, r, n, match o case Some(p) => Obj(p) case None => Null, Completed, Some(key))
         && r.cached == Some((key, match o case Some(p) => p case None => map[]))
  }

  /** What running a node on an input leaves, the result cache and the provider given. */
  ghost predicate RunsOn(cfg: Config, provider: Provider, cache: map<string, Payload>, n: Node, input: Payload,
                         fired: seq<ChainEdge>, r: Turn)
    requires n in cfg.specs
  {
    if !Fits(cfg.specs[n].inFields, input) then JustStatus(r, n, Failed, Running)
    else if n in cfg.blocked then JustStatus(r, n, Failed, RunFailed)
    else exists key ::
      && KeyIs(cfg, n, input, key)
      && if key in cache then r.attempts == 0 && r.cached == None
        && Completes(cfg, r, n, Obj(cache[key]), Completed, Some(key))
         else exists a ::
           LastAttempt(cfg.specs[n], provider, n, input, r.attempts, a) && Ends(cfg, n, input, key, fired, a, r)
  }

  ghost predicate Ends(cfg: Config, n: Node, input: Payload, key: string, fired: seq<ChainEdge>, a: Attempt, r: Turn)
    requires n in cfg.specs
  {
    match a
    case Output(o) => Delivers(cfg, n, key, o, r)
    case RanOut => TimesOut(cfg, n, input, key, r)
    case Error(code, text, _) => FailsWith(cfg, n, input, key, fired, code, text, r)
  }

  /** The result of a node whose turn comes while the run is going. */
  ghost predicate TurnIs(cfg: Config, provider: Provider, cache: map<string, Payload>, s: RunState, n: Node, r: Turn)
    requires n in cfg.incoming && n in cfg.specs
  {
    if n == cfg.trigger then r.attempts == 0 && r.cached == None
      && Completes(cfg, r, n, Obj(cfg.input), Completed, None)
    else if Unreached(cfg, s, n) then JustStatus(r, n, Skipped, Running)
    else if Clashes(cfg, s, n) then JustStatus(r, n, Failed, RunFailed)
    else exists input ::
      && InputIs(cfg, s, n, input)
      && RunsOn(cfg, provider, cache, n, input, if n in s.routes then [] else Fired(cfg, s, cfg.incoming[n]), r)
  }

  // ------------------------------------------------------------------ that it is so

  function TurnOf(v: Visit): Turn {
    Turn(v.u.status, v.u.output, v.u.entry, v.u.run, v.u.routes, v.u.recoverable, v.attempts, v.cached)
  }

  lemma AcceptsIsFits(fields: Fields, p: Payload)
    ensures Accepts(fields, p) <==> Fits(fields, p)
  {
    if fields != map[] {
      forall v, base ensures HasBase(v, base) <==> HasType(v, base) { BaseIsType(v, base); }
    }
  }

  lemma BaseIsType(v: Json, base: Base)
    ensures HasBase(v, base) <==> HasType(v, base)
  {
  }

  lemma {:induction false} FiringIsFired(cfg: Config, s: RunState, edges: seq<ChainEdge>)
    ensures FiringEdges(cfg, s, edges) == Fired(cfg, s, edges)
  {
    hide Holds;
    if edges == [] {
    } else {
      FiringIsFired(cfg, s, edges[..|edges| - 1]);
    }
  }

  ghost predicate ActivationIs(cfg: Config, s: RunState, n: Node, a: Activation)
    requires n in cfg.incoming
  {
    match a
    case Idle => Unreached(cfg, s, n) && !Stops(cfg, s, n)
    case Conflicting => Clashes(cfg, s, n) && !Unreached(cfg, s, n) && !Stops(cfg, s, n)
    case Raises => Stops(cfg, s, n)
    case Active(input, fired) =>
      && InputIs(cfg, s, n, input) && !Unreached(cfg, s, n) && !Clashes(cfg, s, n) && !Stops(cfg, s, n)
      && fired == (if n in s.routes then [] else Fired(cfg, s, cfg.incoming[n]))
  }

  lemma ActivationMeans(cfg: Config, s: RunState, n: Node)
    requires n in cfg.incoming && n != cfg.trigger
    ensures ActivationIs(cfg, s, n, Activate(cfg, s, n))
  {
    if n in s.routes {
      hide Fired;
    } else {
      UnreachedIsNothingFired(cfg, s, n);
      FiringIsFired(cfg, s, cfg.incoming[n]);
      var fired := Fired(cfg, s, cfg.incoming[n]);
      hide Unreached, Fired, FiringEdges, Resolvable, Clash, MergesTo, AllEntries, ClashesAt, RaisesAt,
        Mappings.MergeEdges;
      NothingToMerge(View(cfg, s), cfg.alias);
      MergeMeans(Plain(fired), View(cfg, s), cfg.alias);
      MergeFailsIff(Plain(fired), View(cfg, s), cfg.alias);
      if fired == [] { assert Plain(fired) == []; }
    }
  }

  lemma UnreachedIsNothingFired(cfg: Config, s: RunState, n: Node)
    requires n in cfg.incoming && n != cfg.trigger && n !in s.routes
    ensures Unreached(cfg, s, n) <==> Fired(cfg, s, cfg.incoming[n]) == []
  {
    hide EdgeFires;
    var fired := Fired(cfg, s, cfg.incoming[n]);
    if fired == [] {
      forall e | e in cfg.incoming[n] ensures !EdgeFires(cfg, s, e) { assert e !in fired; }
    } else {
      assert fired[0] in fired;
    }
  }

  lemma NothingToMerge(view: Snapshot, trigger: Node)
    ensures Mappings.MergeEdges([], view, trigger).Merged?
  {
  }

  lemma KeyMeans(cfg: Config, n: Node, input: Payload)
    requires n in cfg.specs
    ensures KeyIs(cfg, n, input, KeyOf(cfg, n, input))
  {
    assert IdentityIs(cfg.specs[n], input, Identifying(cfg.specs[n], input));
  }

  lemma DecisiveIsNotRetried(spec: NodeSpec, a: Attempt)
    ensures Decisive(spec, a) <==> !Retried(spec, a)
  {
  }

  lemma AttemptsMean(spec: NodeSpec, provider: Provider, n: Node, input: Payload)
    requires spec.maxAttempts >= 1
    ensures var used := AttemptsUsed(spec, provider, n, input, 0);
      used >= 1 && LastAttempt(spec, provider, n, input, used, provider(n, input, used - 1))
  {
    var used := AttemptsUsed(spec, provider, n, input, 0);
    forall j | 0 <= j < used ensures Decisive(spec, provider(n, input, j)) <==> !Retried(spec, provider(n, input, j)) {
      DecisiveIsNotRetried(spec, provider(n, input, j));
    }
  }

  lemma OutputMeans(cfg: Config, s: RunState, n: Node, input: Payload, o: Option<Payload>, used: nat)
    requires n in cfg.specs && s.run == Running
    ensures Delivers(cfg, n, KeyOf(cfg, n, input), o, TurnOf(AfterOutput(cfg, s, n, input, o, used)))
  {
    hide Accepts, Fits, KeyOf;
    if o.Some? { AcceptsIsFits(cfg.specs[n].outFields, o.value); }
  }

  lemma TimeoutMeans(cfg: Config, s: RunState, n: Node, input: Payload, used: nat)
    requires n in cfg.specs && s.run == Running
    ensures TimesOut(cfg, n, input, KeyOf(cfg, n, input), TurnOf(AfterTimeout(cfg, s, n, input, used)))
  {
    hide KeyOf, Escalations, RoutesOfRules;
    EscalationsMean(cfg.rules, n, "timeout", cfg.specs[n].maxAttempts, input);
  }

  lemma RoutesMean(cfg: Config, n: Node, input: Payload, fired: seq<ChainEdge>, code: string, text: string)
    requires n in cfg.specs
    ensures var reaction := React(fired, n, input, code, text);
      var escalated := if reaction.forced then map[]
        else Escalations(cfg.rules, n, "failure", cfg.specs[n].maxAttempts, input);
      && reaction.forced == EdgeForces(fired)
      && forall to :: FailureRoutes(cfg, n, input, fired, code, text, to, reaction.routes + escalated)
  {
    hide Notice, EdgeForces, EdgeRoutes, EdgeNotifies, RuleRoutes, React, Escalations;
    ReactMeans(fired, n, input, code, text);
    EscalationsMean(cfg.rules, n, "failure", cfg.specs[n].maxAttempts, input);
  }

  lemma ErrorMeans(cfg: Config, s: RunState, n: Node, input: Payload, fired: seq<ChainEdge>, code: string,
                   text: string, used: nat)
    requires n in cfg.specs && s.run == Running
    ensures FailsWith(cfg, n, input, KeyOf(cfg, n, input), fired, code, text,
                      TurnOf(AfterError(cfg, s, n, input, fired, code, text, used)))
  {
    hide KeyOf, React, Escalations, FailureRoutes, EdgeForces;
    RoutesMean(cfg, n, input, fired, code, text);
  }

  lemma CallMeans(cfg: Config, provider: Provider, s: RunState, n: Node, input: Payload, fired: seq<ChainEdge>)
    returns (a: Attempt)
    requires n in cfg.specs && cfg.specs[n].maxAttempts >= 1 && s.run == Running
    ensures var r := TurnOf(Call(cfg, provider, s, n, input, fired));
      && LastAttempt(cfg.specs[n], provider, n, input, r.attempts, a)
      && Ends(cfg, n, input, KeyOf(cfg, n, input), fired, a, r)
  {
    hide KeyOf, LastAttempt, AttemptsUsed, Delivers, TimesOut, FailsWith, AfterOutput, AfterTimeout, AfterError;
    AttemptsMean(cfg.specs[n], provider, n, input);
    var used := AttemptsUsed(cfg.specs[n], provider, n, input, 0);
    a := provider(n, input, used - 1);
    match a
    case Output(o) => OutputMeans(cfg, s, n, input, o, used); OutputAttempts(cfg, s, n, input, o, used);
    case RanOut => TimeoutMeans(cfg, s, n, input, used); TimeoutAttempts(cfg, s, n, input, used);
    case Error(code, text, _) =>
      ErrorMeans(cfg, s, n, input, fired, code, text, used);
      ErrorAttempts(cfg, s, n, input, fired, code, text, used);
  }

  lemma OutputAttempts(cfg: Config, s: RunState, n: Node, input: Payload, o: Option<Payload>, used: nat)
    requires n in cfg.specs
    ensures AfterOutput(cfg, s, n, input, o, used).attempts == used
  {
    hide Accepts, KeyOf;
  }

  lemma TimeoutAttempts(cfg: Config, s: RunState, n: Node, input: Payload, used: nat)
    requires n in cfg.specs
    ensures AfterTimeout(cfg, s, n, input, used).attempts == used
  {
    hide KeyOf, Escalations;
  }

  lemma ErrorAttempts(cfg: Config, s: RunState, n: Node, input: Payload, fired: seq<ChainEdge>, code: string,
                      text: string, used: nat)
    requires n in cfg.specs
    ensures AfterError(cfg, s, n, input, fired, code, text, used).attempts == used
  {
    hide KeyOf, Escalations, React;
  }

  lemma ExecuteMeans(cfg: Config, provider: Provider, cache: map<string, Payload>, s: RunState, n: Node,
                     input: Payload, fired: seq<ChainEdge>)
    requires n in cfg.specs && cfg.specs[n].maxAttempts >= 1 && s.run == Running
    ensures RunsOn(cfg, provider, cache, n, input, fired, TurnOf(Execute(cfg, provider, cache, s, n, input, fired)))
  {
    hide Accepts, Fits, KeyOf, KeyIs, Call, Ends, LastAttempt;
    AcceptsIsFits(cfg.specs[n].inFields, input);
    KeyMeans(cfg, n, input);
    var a := CallMeans(cfg, provider, s, n, input, fired);
  }

  lemma VisitMeans(cfg: Config, provider: Provider, cache: map<string, Payload>, s: RunState, n: Node, v: Visit)
    requires n in cfg.specs && n in cfg.incoming && cfg.specs[n].maxAttempts >= 1 && s.run == Running
    requires VisitNode(cfg, provider, cache, s, n) == Some(v)
    ensures TurnIs(cfg, provider, cache, s, n, TurnOf(v))
  {
    hide Activate, Execute, Unreached, Clashes, InputIs, RunsOn;
    if n != cfg.trigger {
      ActivationMeans(cfg, s, n);
      match Activate(cfg, s, n)
      case Active(input, fired) => ExecuteMeans(cfg, provider, cache, s, n, input, fired);
      case _ =>
    }
  }

  // ------------------------------------------------------------------ runs

  lemma AbsorbLeaves(w: World, n: Node, v: Visit)
    ensures Leaves(w, Absorb(w, n, v), n, TurnOf(v))
  {
    assert w.calls <= w.calls + Repeat(n, v.attempts);
  }

  /** What node k's turn left behind. */
  ghost function TurnAt(c: Chain, k: nat): Turn
    requires Reaches(c, k + 1)
  {
    TurnOf(VisitAt(c, k))
  }

  lemma TurnLeaves(c: Chain, k: nat)
    requires Reaches(c, k + 1)
    ensures Reaches(c, k) && Leaves(At(c, k), At(c, k + 1), c.cfg.order[k], TurnAt(c, k))
  {
    hide VisitNode, Compiled, Leaves;
    Visiting(c, k);
    AbsorbLeaves(At(c, k), c.cfg.order[k], VisitAt(c, k));
  }

  /** Every node whose turn comes while the run is going ends as the edges into it, the failure routes opened so far,
      its types, the cache and its provider's attempts say. */
  lemma NodesMean(c: Chain, k: nat)
    requires Reaches(c, k + 1) && At(c, k).state.run == Running
    ensures c.cfg.order[k] in c.cfg.incoming && c.cfg.order[k] in c.cfg.specs
    ensures TurnIs(c.cfg, c.provider, At(c, k).cache, At(c, k).state, c.cfg.order[k], TurnAt(c, k))
    ensures Leaves(At(c, k), At(c, k + 1), c.cfg.order[k], TurnAt(c, k))
  {
    hide VisitNode, Compiled, Leaves, TurnIs, After;
    Visiting(c, k);
    VisitMeans(c.cfg, c.provider, At(c, k).cache, At(c, k).state, c.cfg.order[k], VisitAt(c, k));
    TurnLeaves(c, k);
  }

  lemma StopsIsNone(cfg: Config, provider: Provider, cache: map<string, Payload>, s: RunState, n: Node)
    requires n in cfg.specs && n in cfg.incoming && cfg.specs[n].maxAttempts >= 1
    ensures VisitNode(cfg, provider, cache, s, n).None? <==>
      s.run != RunFailed && s.run != RunCancelled && Stops(cfg, s, n)
  {
    hide Activate, Execute, InputIs, Unreached, Clashes;
    if n != cfg.trigger { ActivationMeans(cfg, s, n); }
  }

  /** A run gets past a node unless, while it is going, an entry of a firing edge's mapping does not resolve: nothing
      else lets an exception escape. */
  lemma StopsIff(c: Chain, k: nat)
    requires Reaches(c, k) && k < |c.cfg.order|
    ensures c.cfg.order[k] in c.cfg.incoming
    ensures !Reaches(c, k + 1) <==> At(c, k).state.run == Running && Stops(c.cfg, At(c, k).state, c.cfg.order[k])
  {
    hide VisitNode, Stops, Compiled;
    NodeIsKnown(c.cfg, k);
    NeverMarkedCompleted(c, k);
    StopsIsNone(c.cfg, c.provider, At(c, k).cache, At(c, k).state, c.cfg.order[k]);
    if VisitNode(c.cfg, c.provider, At(c, k).cache, At(c, k).state, c.cfg.order[k]).Some? {
      ReachesNext(c, k);
    } else {
      NotReached(c, k);
    }
  }

  lemma NotReached(c: Chain, k: nat)
    requires Reaches(c, k) && k < |c.cfg.order|
    requires c.cfg.order[k] in c.cfg.incoming && c.cfg.order[k] in c.cfg.specs
      && c.cfg.specs[c.cfg.order[k]].maxAttempts >= 1
    requires VisitNode(c.cfg, c.provider, At(c, k).cache, At(c, k).state, c.cfg.order[k]).None?
    ensures !Reaches(c, k + 1)
  {
    hide VisitNode, Compiled;
  }

  /** A node whose turn comes while the run is going is skipped if and only if it is not the trigger, no failure
      route leads to it and no edge into it fires. */
  lemma SkippedIff(c: Chain, k: nat)
    requires Reaches(c, k + 1) && At(c, k).state.run == Running
    ensures c.cfg.order[k] in c.cfg.incoming && c.cfg.order[k] in At(c, k + 1).state.statuses
    ensures At(c, k + 1).state.statuses[c.cfg.order[k]] == Skipped <==>
      && c.cfg.order[k] != c.cfg.trigger && c.cfg.order[k] !in At(c, k).state.routes
      && forall e :: e in c.cfg.incoming[c.cfg.order[k]] ==> !EdgeFires(c.cfg, At(c, k).state, e)
  {
    hide After, Compiled, EdgeFires, Clashes, InputIs, At;
    NodesMean(c, k);
    var r := TurnAt(c, k);
    ReachedBefore(c, k, k + 1);
    if !Unreached(c.cfg, At(c, k).state, c.cfg.order[k]) {
      NotSkipped(c.cfg, c.provider, At(c, k).cache, At(c, k).state, c.cfg.order[k], r);
    }
  }

  lemma NotSkipped(cfg: Config, provider: Provider, cache: map<string, Payload>, s: RunState, n: Node, r: Turn)
    requires n in cfg.incoming && n in cfg.specs && TurnIs(cfg, provider, cache, s, n, r) && !Unreached(cfg, s, n)
    ensures r.status != Skipped
  {
    hide Unreached, Clashes, InputIs, Fits, KeyIs, LastAttempt, FailureRoutes, RoutesOfRules, EdgeForces;
  }

  // ------------------------------------------------------------------ clean runs

  /** Whatever the node is run on it accepts, it is not blocked, and its provider answers with outputs that fit. */
  ghost predicate CleanNode(cfg: Config, provider: Provider, s: RunState, n: Node)
    requires n in cfg.incoming && n in cfg.specs
  {
    n != cfg.trigger ==>
      && !Clashes(cfg, s, n)
      && forall input :: InputIs(cfg, s, n, input) ==>
           && Fits(cfg.specs[n].inFields, input) && n !in cfg.blocked
           && forall j :: 0 <= j < cfg.specs[n].maxAttempts ==> CleanAttempt(cfg.specs[n], provider(n, input, j))
  }

  ghost predicate CleanAttempt(spec: NodeSpec, a: Attempt) {
    a.Output? && (a.o.Some? ==> Fits(spec.outFields, a.o.value))
  }

  ghost predicate CleanSoFar(s: RunState) {
    && s.run == Running && s.routes == map[]
    && forall n :: n in s.statuses ==> s.statuses[n] == Completed || s.statuses[n] == Skipped
  }

  ghost predicate CleanAt(c: Chain, k: nat)
    requires Reaches(c, k) && k < |c.cfg.order|
  {
    && c.cfg.order[k] in c.cfg.incoming && c.cfg.order[k] in c.cfg.specs
    && (At(c, k).state.run == Running ==> CleanNode(c.cfg, c.provider, At(c, k).state, c.cfg.order[k]))
  }

  lemma CleanTurn(cfg: Config, provider: Provider, cache: map<string, Payload>, s: RunState, n: Node, r: Turn)
    requires n in cfg.incoming && n in cfg.specs
    requires TurnIs(cfg, provider, cache, s, n, r) && CleanNode(cfg, provider, s, n)
    ensures (r.status == Completed || r.status == Skipped) && r.run == Running && r.routes == map[] && !r.recovers
  {
    hide Unreached, Clashes, InputIs, Fits, KeyIs, Retried, RoutesOfRules, FailureRoutes, EdgeForces, Fired;
  }

  lemma CleanStep(w: World, t: World, n: Node, r: Turn)
    requires CleanSoFar(w.state) && Leaves(w, t, n, r)
    requires (r.status == Completed || r.status == Skipped) && r.run == Running && r.routes == map[]
    ensures CleanSoFar(t.state)
  {
  }

  lemma {:induction false} CleanPrefix(c: Chain, k: nat)
    requires Reaches(c, k) && forall i :: 0 <= i < k ==> Reaches(c, i) && CleanAt(c, i)
    ensures CleanSoFar(At(c, k).state)
  {
    hide TurnIs, CleanNode, CleanSoFar, Leaves, Compiled, After;
    if k == 0 {
      CleanStart(c);
    } else {
      assert CleanAt(c, k - 1);
      CleanPrefix(c, k - 1);
      CleanIsRunning(At(c, k - 1).state);
      NodesMean(c, k - 1);
      var r := TurnAt(c, k - 1);
      CleanTurn(c.cfg, c.provider, At(c, k - 1).cache, At(c, k - 1).state, c.cfg.order[k - 1], r);
      CleanStep(At(c, k - 1), At(c, k), c.cfg.order[k - 1], r);
    }
  }

  lemma CleanStart(c: Chain)
    requires Reaches(c, 0)
    ensures CleanSoFar(At(c, 0).state)
  {
  }

  lemma CleanIsRunning(s: RunState)
    requires CleanSoFar(s)
    ensures s.run == Running
  {
  }

  // ------------------------------------------------------------------ the report

  /** The run is still going after every one of the first m nodes, or one of them ended it. */
  lemma {:induction false} RunIsLastChange(c: Chain, m: nat)
    requires Reaches(c, m)
    ensures At(c, m).state.run == Running <==> forall k: nat :: k < m ==> RunningAfter(c, k)
    ensures At(c, m).state.run != Running ==> exists k: nat :: k < m && EndsAt(c, k, At(c, m).state.run)
    ensures forall k: nat, r :: k < m && EndsAt(c, k, r) ==> r == At(c, m).state.run
  {
    hide After, Compiled;
    if m == 0 {
      StartsRunning(c);
    } else {
      ReachedBefore(c, m - 1, m);
      RunIsLastChange(c, m - 1);
      assert RunningAfter(c, m - 1) <==> At(c, m).state.run == Running;
      if At(c, m - 1).state.run != Running {
        EndedRunIsFrozen(c, m - 1, m);
      } else if At(c, m).state.run != Running {
        assert EndsAt(c, m - 1, At(c, m).state.run);
      }
    }
  }

  ghost predicate RunningAfter(c: Chain, k: nat) {
    Reaches(c, k + 1) && At(c, k + 1).state.run == Running
  }

  lemma StartsRunning(c: Chain)
    requires Reaches(c, 0)
    ensures At(c, 0).state.run == Running && At(c, 0).state.recoverable == []
  {
  }

  /** Node k's turn ended the run with this status. */
  ghost predicate EndsAt(c: Chain, k: nat, status: RunStatus) {
    Reaches(c, k + 1) && Reaches(c, k) && At(c, k).state.run == Running && At(c, k + 1).state.run == status != Running
  }

  ghost predicate RecoversAt(c: Chain, k: nat, n: Node) {
    k < |c.cfg.order| && Reaches(c, k + 1) && c.cfg.order[k] == n && TurnAt(c, k).recovers
  }

  /** The nodes listed as recoverable are those whose turns opened a way to recover. */
  lemma {:induction false} RecoverableAre(c: Chain, m: nat, n: Node)
    requires Reaches(c, m)
    ensures n in At(c, m).state.recoverable <==> exists k: nat :: k < m && RecoversAt(c, k, n)
  {
    hide After, Compiled, TurnAt;
    if m == 0 {
      StartsRunning(c);
    } else {
      TurnLeaves(c, m - 1);
      RecoverableAre(c, m - 1, n);
      if TurnAt(c, m - 1).recovers && c.cfg.order[m - 1] == n { assert RecoversAt(c, m - 1, n); }
    }
  }

  /** The run goes on after node k's turn, which did not leave it failed with no way to recover. */
  ghost predicate GoesOnAt(c: Chain, k: nat) {
    && RunningAfter(c, k)
    && (TurnAt(c, k).status == Failed ==> TurnAt(c, k).recovers)
  }

  lemma FailedIsRecoverable(c: Chain, k: nat)
    requires Reaches(c, |c.cfg.order|) && k < |c.cfg.order|
    ensures Reaches(c, k + 1)
    ensures var s, n := At(c, |c.cfg.order|).state, c.cfg.order[k];
      && n in s.statuses && s.statuses[n] == TurnAt(c, k).status
      && (n in s.recoverable <==> TurnAt(c, k).recovers)
  {
    hide After, VisitAt;
    StatusStays(c, k, |c.cfg.order|);
    RecoverableAre(c, |c.cfg.order|, c.cfg.order[k]);
    if TurnAt(c, k).recovers { assert RecoversAt(c, k, c.cfg.order[k]); }
    hide SourcesIn, TurnAt;
    assert forall j: nat :: j < |c.cfg.order| && c.cfg.order[j] == c.cfg.order[k] ==> j == k;
  }

  lemma AllNodesShown(c: Chain)
    requires Reaches(c, |c.cfg.order|)
    ensures forall n :: n in At(c, |c.cfg.order|).state.statuses <==> n in c.cfg.order
  {
    hide After, Consistent, Healthy;
    RunKeeps(c, |c.cfg.order|);
    assert c.cfg.order[..|c.cfg.order|] == c.cfg.order;
  }

  /** What a finished run is to be reported as: cancelled if and only if some node's turn cancelled it, completed if and
      only if it went on to the end and every failed node opened a way to recover; otherwise failed. */
  ghost predicate ReportIs(c: Chain, report: RunStatus) {
    && Reaches(c, |c.cfg.order|) && report != Running
    && (report == RunCancelled <==> exists k: nat :: k < |c.cfg.order| && EndsAt(c, k, RunCancelled))
    && (report == RunCompleted <==> forall k: nat :: k < |c.cfg.order| ==> GoesOnAt(c, k))
  }

  lemma ReportMeans(c: Chain)
    requires Reaches(c, |c.cfg.order|)
    ensures ReportIs(c, FinalStatus(At(c, |c.cfg.order|).state))
  {
    hide After, Compiled, TurnAt, EndsAt, VisitAt;
    var m, s := |c.cfg.order|, At(c, |c.cfg.order|).state;
    RunIsLastChange(c, m);
    NeverMarkedCompleted(c, m);
    CancelledMeanCancelled(c);
    if FinalStatus(s) == RunCompleted {
      forall k: nat | k < m ensures GoesOnAt(c, k) {
        assert RunningAfter(c, k);
        FailedIsRecoverable(c, k);
      }
    }
    if forall k: nat :: k < m ==> GoesOnAt(c, k) {
      assert forall k: nat :: k < m ==> RunningAfter(c, k) by {
        forall k: nat | k < m ensures RunningAfter(c, k) { assert GoesOnAt(c, k); }
      }
      AllNodesShown(c);
      forall n | n in s.statuses && s.statuses[n] == Failed ensures n in s.recoverable {
        var k: nat :| k < m && c.cfg.order[k] == n;
        assert GoesOnAt(c, k);
        FailedIsRecoverable(c, k);
      }
    }
  }

  lemma CancelledMeanCancelled(c: Chain)
    requires Reaches(c, |c.cfg.order|)
    ensures var s := At(c, |c.cfg.order|).state;
      (exists n :: n in s.statuses && s.statuses[n] == Cancelled) ==> s.run != Running
  {
    hide After, Compiled, At;
    var s := At(c, |c.cfg.order|).state;
    if n :| n in s.statuses && s.statuses[n] == Cancelled { CancelledNodesCancelTheRun(c, n); }
  }

  lemma NeverMarkedCompleted(c: Chain, m: nat)
    requires Reaches(c, m)
    ensures At(c, m).state.run != RunCompleted
  {
    hide After, Compiled, Consistent;
    RunKeeps(c, m);
    EndedIsNotCompleted(c.cfg, At(c, m), m);
  }

  /** A run in which no mappings clash, every input is accepted, no node that gets one is blocked, and every attempt
      delivers an output that fits, completes or skips every node and is reported completed. */
  lemma CleanRunCompletes(c: Chain, report: RunStatus)
    requires Reaches(c, |c.cfg.order|) && forall i :: 0 <= i < |c.cfg.order| ==> Reaches(c, i) && CleanAt(c, i)
    requires ReportIs(c, report)
    ensures var s := At(c, |c.cfg.order|).state;
      && s.statuses.Keys == Elements(c.cfg.order)
      && forall n :: n in s.statuses ==> s.statuses[n] == Completed || s.statuses[n] == Skipped
    ensures report == RunCompleted
  {
    hide After, CleanAt, EndsAt, TurnAt, Compiled;
    var m, s := |c.cfg.order|, At(c, |c.cfg.order|).state;
    CleanPrefix(c, m);
    AllNodesShown(c);
    RunIsLastChange(c, m);
    forall k: nat | k < m ensures GoesOnAt(c, k) {
      assert RunningAfter(c, k);
      FailedIsRecoverable(c, k);
    }
  }
}
