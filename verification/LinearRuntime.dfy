/** The linear runtime's node functions and its loop over the chain, with the cache they share. */
module LinearRuntime {
  import opened Graphs
  import opened Wrappers
  import opened Json
  import opened WhenValues
  import opened LinearSpec
  import LinearMeaning
  import LinearRuns
  import Orchestrator
  import WhenEvaluator

  method CollectFiring(cfg: Config, s: RunState, incoming: seq<ChainEdge>) returns (fired: seq<ChainEdge>)
    ensures fired == FiringEdges(cfg, s, incoming)
  {
    fired := [];
    for i := 0 to |incoming|
      invariant fired == FiringEdges(cfg, s, incoming[..i])
    {
      var edge := incoming[i];
      assert incoming[..i + 1][..i] == incoming[..i];
      if edge.plain.source in s.statuses && s.statuses[edge.plain.source] == Completed {
        var met := true;
        if edge.guarded {
          var value := WhenEvaluator.EvalWhen(edge.plain.when, Snapshot(cfg.input, s.outputs), cfg.alias);
          met := value == Val(Bool(true));
        }
        if met {
          fired := fired + [edge];
        }
      }
    }
    assert incoming[..|incoming|] == incoming;
  }

  method Escalate(rules: seq<Rule>, n: Node, event: string, attempts: nat, payload: Payload)
    returns (routes: map<Node, Payload>)
    ensures routes == Escalations(rules, n, event, attempts, payload)
  {
    routes := map[];
    for i := 0 to |rules|
      invariant routes == Escalations(rules[..i], n, event, attempts, payload)
    {
      var rule := rules[i];
      assert rules[..i + 1][..i] == rules[..i];
      if rule.node != n || rule.event != event || attempts < rule.afterAttempts {
        continue;
      }
      if rule.routeTo != "" {
        routes := routes[rule.routeTo := payload];
      }
    }
    assert rules[..|rules|] == rules;
  }

  method ReactToFailure(fired: seq<ChainEdge>, n: Node, input: Payload, code: string, text: string)
    returns (routes: map<Node, Payload>, forced: bool)
    ensures Reaction(routes, forced) == React(fired, n, input, code, text)
  {
    routes, forced := map[], false;
    for i := 0 to |fired|
      invariant Reaction(routes, forced) == React(fired[..i], n, input, code, text)
    {
      assert fired[..i + 1][..i] == fired[..i];
      match fired[i].onFailure
      case None =>
      case Some(Route(to)) => if to.Some? { routes := routes[to.value := input]; }
      case Some(Notify(m)) => if m.Some? { routes := routes[m.value := WithFailure(input, n, code, text)]; }
      case Some(FailRun) => forced := true;
    }
    assert fired[..|fired|] == fired;
  }

  class LangGraphRuntime {
    const cfg: Config
    const provider: Provider
    var cache: map<string, Payload>
    var calls: seq<Node>

    constructor (cfg: Config, provider: Provider, initialResultCache: map<string, Payload>)
      ensures this.cfg == cfg && this.provider == provider && cache == initialResultCache && calls == []
    {
      this.cfg, this.provider, cache, calls := cfg, provider, initialResultCache, [];
    }

    /** The retry loop. */
    method Attempts(n: Node, input: Payload) returns (used: nat, last: Attempt)
      requires n in cfg.specs && cfg.specs[n].maxAttempts >= 1
      modifies this`calls
      ensures used == AttemptsUsed(cfg.specs[n], provider, n, input, 0) && last == provider(n, input, used - 1)
      ensures calls == old(calls) + Repeat(n, used)
    {
      var spec := cfg.specs[n];
      used, last := 0, RanOut;
      assert calls == old(calls) + Repeat(n, 0);
      hide Repeat;
      hide AttemptsUsed;
      for attempt := 0 to spec.maxAttempts
        invariant calls == old(calls) + Repeat(n, attempt) && used == attempt
        invariant forall j :: 0 <= j < attempt ==> !Decisive(spec, provider(n, input, j))
        invariant attempt > 0 ==> last == provider(n, input, attempt - 1)
      {
        used := attempt + 1;
        calls := calls + [n];
        last := provider(n, input, attempt);
        RepeatOnce(n, attempt);
        if last.RanOut? || last.Output? {
          break;
        }
        if !last.retryable {
          break;
        }
        if spec.retryable != {} && last.code !in spec.retryable {
          break;
        }
      }
      AttemptsAre(spec, provider, n, input, 0, used);
    }

    /** Everything after a node's input has passed validation and policy, and no cached result exists. */
    method Invoke(s: RunState, n: Node, input: Payload, fired: seq<ChainEdge>) returns (u: Update)
      requires n in cfg.specs && cfg.specs[n].maxAttempts >= 1
      modifies this
      ensures var v := Call(cfg, provider, s, n, input, fired);
        && u == v.u && calls == old(calls) + Repeat(n, v.attempts)
        && cache == if v.cached.Some? then old(cache)[v.cached.value.0 := v.cached.value.1] else old(cache)
    {
      hide Identifying, Accepts, React, Escalations, AttemptsUsed, Repeat, KeyOf;
      var spec, key := cfg.specs[n], KeyOf(cfg, n, input);
      var used, last := Attempts(n, input);
      match last
      case RanOut =>
        if spec.timeoutOutput.Some? {
          var out := Obj(spec.timeoutOutput.value);
          return Update(Completed, Some(out), Entry(n, TimedOut, Some(key), Some(cfg.redact(n, out))), map[], false,
                        s.run);
        }
        var routes := Escalate(cfg.rules, n, "timeout", spec.maxAttempts, input);
        return Update(TimedOut, None, Entry(n, TimedOut, Some(key), None), routes, false,
                      if routes == map[] then RunFailed else s.run);
      case Error(code, text, _) =>
        var routes, forced := ReactToFailure(fired, n, input, code, text);
        if !forced {
          var escalated := Escalate(cfg.rules, n, "failure", spec.maxAttempts, input);
          routes := routes + escalated;
        }
        var status := if code == "cancelled" then Cancelled else Failed;
        var run := if code == "cancelled" then RunCancelled else if forced || routes == map[] then RunFailed else s.run;
        return Update(status, None, Entry(n, status, Some(key), None), routes, routes != map[], run);
      case Output(output) =>
        if output.Some? && !Accepts(spec.outFields, output.value) {
          return Update(Failed, None, Entry(n, Failed, None, None), map[], false, RunFailed);
        }
        cache := cache[key := if output.Some? then output.value else map[]];
        return Update(Completed, Some(JsonOf(output)),
                      Entry(n, Completed, Some(key), Some(cfg.redact(n, JsonOf(output)))), map[], false, s.run);
    }

    /** node_fn: one node of the chain; None when resolving a mapping raises. */
    method NodeFn(s: RunState, n: Node) returns (u: Option<Update>)
      requires n in cfg.specs && n in cfg.incoming && cfg.specs[n].maxAttempts >= 1
      modifies this
      ensures u.Some? == VisitNode(cfg, provider, old(cache), s, n).Some?
      ensures u.Some? ==>
        var v := VisitNode(cfg, provider, old(cache), s, n).value;
        u.value == v.u && World(Apply(s, n, u.value), cache, calls) == Absorb(World(s, old(cache), old(calls)), n, v)
    {
      hide Call, FiringEdges, Accepts, Identifying;
      assert calls == old(calls) + Repeat(n, 0);
      if s.run == RunFailed {
        return Some(Update(Skipped, None, Entry(n, Skipped, None, None), map[], false, RunFailed));
      }
      if s.run == RunCancelled {
        return Some(Update(Cancelled, None, Entry(n, Cancelled, None, None), map[], false, RunCancelled));
      }
      if n == cfg.trigger {
        return Some(Update(Completed, Some(Obj(cfg.input)),
                           Entry(n, Completed, None, Some(cfg.redact(n, Obj(cfg.input)))), map[], false, s.run));
      }
      var input: Payload, fired: seq<ChainEdge> := map[], [];
      if n in s.routes {
        input := s.routes[n];
      } else {
        fired := CollectFiring(cfg, s, cfg.incoming[n]);
        if fired == [] {
          return Some(Update(Skipped, None, Entry(n, Skipped, None, None), map[], false, s.run));
        }
        var merged := Orchestrator.MergeInputs(Plain(fired), Snapshot(cfg.input, s.outputs), cfg.alias);
        match merged
        case Conflict => return Some(Update(Failed, None, Entry(n, Failed, None, None), map[], false, RunFailed));
        case MergeRaises => return None;
        case Merged(payload) => input := payload;
      }
      if !Accepts(cfg.specs[n].inFields, input) {
        return Some(Update(Failed, None, Entry(n, Failed, None, None), map[], false, s.run));
      }
      if n in cfg.blocked {
        return Some(Update(Failed, None, Entry(n, Failed, None, None), map[], false, RunFailed));
      }
      var key := KeyOf(cfg, n, input);
      if key in cache {
        var out := Obj(cache[key]);
        return Some(Update(Completed, Some(out), Entry(n, Completed, Some(key), Some(cfg.redact(n, out))), map[],
                           false, s.run));
      }
      var done := Invoke(s, n, input, fired);
      return Some(done);
    }

    /** The chain of node functions in topological order, each update merged into the run state, and the
        run status settled at the end; None when the trigger input is rejected or an exception escapes. */
    method Run() returns (r: Option<RunState>)
      requires Compiled(cfg) && calls == []
      modifies this
      ensures var w := After(cfg, provider, old(cache), |cfg.order|);
        && cfg.trigger in cfg.specs && r.Some? == (Accepts(cfg.specs[cfg.trigger].inFields, cfg.input) && w.Some?)
        && (r.Some? ==> cache == w.value.cache && calls == w.value.calls
                        && r.value == w.value.state.(run := FinalStatus(w.value.state)))
      ensures r.Some? ==> LinearMeaning.ReportIs(LinearRuns.Chain(cfg, provider, old(cache)), r.value.run)
    {
      assert cfg.trigger in Elements(cfg.order);
      hide Compiled, VisitNode, FinalStatus, Apply, Accepts, After, Absorb;
      Starts(cfg, provider, cache);
      if !Accepts(cfg.specs[cfg.trigger].inFields, cfg.input) {
        return None;
      }
      var s := Begin(cache).state;
      for k := 0 to |cfg.order|
        invariant After(cfg, provider, old(cache), k) == Some(World(s, cache, calls))
      {
        NodeIsKnown(cfg, k);
        NextNode(cfg, provider, old(cache), k, World(s, cache, calls));
        var u := NodeFn(s, cfg.order[k]);
        if u.None? {
          AbortsForGood(cfg, provider, old(cache), k + 1);
          return None;
        }
        s := Apply(s, cfg.order[k], u.value);
      }
      LinearMeaning.ReportMeans(LinearRuns.Chain(cfg, provider, old(cache)));
      return Some(s.(run := FinalStatus(s)));
    }
  }

  /** Attempts up to the first decisive one, or the last allowed, are all that are made. */
  lemma {:induction false} AttemptsAre(spec: NodeSpec, provider: Provider, n: Node, input: Payload, k: nat, used: nat)
    requires k < used <= spec.maxAttempts && forall j :: k <= j < used - 1 ==> !Decisive(spec, provider(n, input, j))
    requires used == spec.maxAttempts || Decisive(spec, provider(n, input, used - 1))
    ensures AttemptsUsed(spec, provider, n, input, k) == used
    decreases used - k
  {
    hide Decisive;
    if k + 1 < used { AttemptsAre(spec, provider, n, input, k + 1, used); }
  }

  lemma RepeatOnce(n: Node, k: nat)
    ensures Repeat(n, k + 1) == Repeat(n, k) + [n]
  {
  }

  lemma Starts(cfg: Config, provider: Provider, cache: map<string, Payload>)
    requires Compiled(cfg)
    ensures After(cfg, provider, cache, 0) == Some(Begin(cache))
  {
  }

  lemma NextNode(cfg: Config, provider: Provider, cache: map<string, Payload>, k: nat, w: World)
    requires Compiled(cfg) && k < |cfg.order| && After(cfg, provider, cache, k) == Some(w)
    ensures cfg.order[k] in cfg.incoming && cfg.order[k] in cfg.specs && cfg.specs[cfg.order[k]].maxAttempts >= 1
    ensures After(cfg, provider, cache, k + 1) ==
      match VisitNode(cfg, provider, w.cache, w.state, cfg.order[k])
      case None => None
      case Some(v) => Some(Absorb(w, cfg.order[k], v))
  {
    hide VisitNode, Absorb;
    NodeIsKnown(cfg, k);
  }

  lemma {:induction false} AbortsForGood(cfg: Config, provider: Provider, cache: map<string, Payload>, k: nat)
    requires Compiled(cfg) && k <= |cfg.order| && After(cfg, provider, cache, k).None?
    ensures After(cfg, provider, cache, |cfg.order|).None?
    decreases |cfg.order| - k
  {
    hide Compiled, VisitNode;
    if k == |cfg.order| {
    } else {
      AbortsForGood(cfg, provider, cache, k + 1);
    }
  }
}
