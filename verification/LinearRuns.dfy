/** What holds of every run of the linear chain. */
module LinearRuns {
  import opened Graphs
  import opened Wrappers
  import opened LinearSpec

  /** A process, a provider and the results cached beforehand: everything a run depends on. */
  datatype Chain = Chain(cfg: Config, provider: Provider, cache: map<string, Payload>)

  /** The first k nodes of the chain are visited without an escaping exception. */
  ghost predicate Reaches(c: Chain, k: nat) {
    Compiled(c.cfg) && k <= |c.cfg.order| && After(c.cfg, c.provider, c.cache, k).Some?
  }

  ghost function At(c: Chain, k: nat): World
    requires Reaches(c, k)
  {
    After(c.cfg, c.provider, c.cache, k).value
  }

  lemma {:induction false} ReachedBefore(c: Chain, i: nat, k: nat)
    requires Reaches(c, k) && i <= k
    ensures Reaches(c, i)
    decreases k
  {
    hide Compiled, VisitNode;
    if i == k {
    } else {
      ReachedBefore(c, i, k - 1);
    }
  }

  /** The visit of the chain's node k. */
  ghost function VisitAt(c: Chain, k: nat): Visit
    requires Reaches(c, k + 1)
  {
    ReachedBefore(c, k, k + 1);
    NodeIsKnown(c.cfg, k);
    VisitNode(c.cfg, c.provider, At(c, k).cache, At(c, k).state, c.cfg.order[k]).value
  }

  lemma Visiting(c: Chain, k: nat)
    requires Reaches(c, k + 1)
    ensures Reaches(c, k) && c.cfg.order[k] in c.cfg.incoming && c.cfg.order[k] in c.cfg.specs
      && c.cfg.specs[c.cfg.order[k]].maxAttempts >= 1
    ensures VisitNode(c.cfg, c.provider, At(c, k).cache, At(c, k).state, c.cfg.order[k]) == Some(VisitAt(c, k))
    ensures At(c, k + 1) == Absorb(At(c, k), c.cfg.order[k], VisitAt(c, k))
  {
    hide VisitNode, Compiled;
    ReachedBefore(c, k, k + 1);
    NodeIsKnown(c.cfg, k);
  }

  lemma ReachesNext(c: Chain, i: nat)
    requires Reaches(c, i) && i < |c.cfg.order|
    requires c.cfg.order[i] in c.cfg.incoming && c.cfg.order[i] in c.cfg.specs
      && c.cfg.specs[c.cfg.order[i]].maxAttempts >= 1
    requires VisitNode(c.cfg, c.provider, At(c, i).cache, At(c, i).state, c.cfg.order[i]).Some?
    ensures Reaches(c, i + 1)
    ensures VisitAt(c, i) == VisitNode(c.cfg, c.provider, At(c, i).cache, At(c, i).state, c.cfg.order[i]).value
  {
    hide VisitNode, Compiled;
  }

  // ------------------------------------------------------------------ one visit

  /** Some escalation rule of the policy covers this event, given that all attempts were made. */
  ghost predicate Escalates(cfg: Config, n: Node, event: string) {
    n in cfg.specs && exists r ::
      r in cfg.rules && r.node == n && r.event == event && cfg.specs[n].maxAttempts >= r.afterAttempts
      && r.routeTo != ""
  }

  lemma {:induction false} EscalationsNeedRule(rules: seq<Rule>, n: Node, event: string, attempts: nat,
                                               payload: Payload)
    ensures Escalations(rules, n, event, attempts, payload) != map[] <==>
      exists r :: r in rules && r.node == n && r.event == event && attempts >= r.afterAttempts && r.routeTo != ""
  {
    if rules == [] {
    } else {
      var k := |rules| - 1;
      EscalationsNeedRule(rules[..k], n, event, attempts, payload);
      assert rules == rules[..k] + [rules[k]];
      var before := Escalations(rules[..k], n, event, attempts, payload);
      assert rules[k].routeTo in before[rules[k].routeTo := payload];
    }
  }

  /** The run is going, and the node is the trigger or was brought to life. */
  ghost predicate Lively(cfg: Config, s: RunState, n: Node) {
    s.run == Running && (n == cfg.trigger || (n in cfg.incoming && Activate(cfg, s, n).Active?))
  }

  /** What every visit's update looks like. */
  ghost predicate Sound(cfg: Config, s: RunState, n: Node, v: Visit) {
    && v.u.entry.node == n
    && (v.u.entry.status == v.u.status || (v.u.entry.status == TimedOut && v.u.status == Completed))
    && (v.u.output.Some? <==> v.u.status == Completed)
    && (v.u.recoverable ==> (v.u.status == Failed || v.u.status == Cancelled) && v.u.routes != map[])
    && (v.u.status == Cancelled ==> v.u.run == RunCancelled)
    && (v.u.status == TimedOut && v.u.run == Running ==> Escalates(cfg, n, "timeout"))
    && (v.u.run == s.run || v.u.run == RunFailed || v.u.run == RunCancelled)
    && (v.attempts > 0 || v.cached.Some? || v.u.status == Completed || v.u.routes != map[] ==> Lively(cfg, s, n))
  }

  lemma CallIsSound(cfg: Config, provider: Provider, s: RunState, n: Node, input: Payload, fired: seq<ChainEdge>)
    requires n in cfg.specs && cfg.specs[n].maxAttempts >= 1 && s.run == Running && Lively(cfg, s, n)
    ensures Sound(cfg, s, n, Call(cfg, provider, s, n, input, fired))
  {
    hide Activate, Accepts, KeyOf, Lively, React, AttemptsUsed, Escalations;
    EscalationsNeedRule(cfg.rules, n, "timeout", cfg.specs[n].maxAttempts, input);
  }

  lemma VisitIsSound(cfg: Config, provider: Provider, cache: map<string, Payload>, s: RunState, n: Node)
    requires n in cfg.specs && n in cfg.incoming && cfg.specs[n].maxAttempts >= 1 && s.run != RunCompleted
    requires VisitNode(cfg, provider, cache, s, n).Some?
    ensures Sound(cfg, s, n, VisitNode(cfg, provider, cache, s, n).value)
  {
    hide Call, Accepts, Identifying, FiringEdges;
    if s.run == Running && n != cfg.trigger && Activate(cfg, s, n).Active? {
      CallIsSound(cfg, provider, s, n, Activate(cfg, s, n).input, Activate(cfg, s, n).fired);
    }
  }

  // ------------------------------------------------------------------ the invariant

  /** Exactly the first k nodes have a status, and a log entry, in chain order. */
  ghost predicate Logged(cfg: Config, s: RunState, k: nat) {
    && k <= |cfg.order| && s.statuses.Keys == Elements(cfg.order[..k]) && |s.log| == k
    && forall i :: 0 <= i < k ==> EntryFits(s, cfg.order[i], s.log[i])
  }

  /** A completed node is logged as timed out when its output is the one declared for timeouts. */
  predicate EntryFits(s: RunState, n: Node, e: Entry) {
    e.node == n && n in s.statuses
      && (e.status == s.statuses[n] || (e.status == TimedOut && s.statuses[n] == Completed))
  }

  /** The nodes with an output are the completed ones; only visited nodes that were not skipped were called;
      recoverable nodes failed. */
  ghost predicate Consistent(w: World) {
    var s := w.state;
    && (forall n :: n in s.outputs <==> n in s.statuses && s.statuses[n] == Completed)
    && (forall n :: n in w.calls ==> n in s.statuses && s.statuses[n] != Skipped)
    && forall n :: n in s.recoverable ==> n in s.statuses && (s.statuses[n] == Failed || s.statuses[n] == Cancelled)
  }

  /** While the run is going no node is cancelled and every timed-out node was escalated. */
  ghost predicate Healthy(cfg: Config, s: RunState) {
    && s.run != RunCompleted
    && (s.run == Running ==> forall n :: n in s.statuses ==> s.statuses[n] != Cancelled)
    && (s.run == Running ==> forall n :: n in s.statuses && s.statuses[n] == TimedOut ==> Escalates(cfg, n, "timeout"))
  }

  ghost predicate Inv(cfg: Config, w: World, k: nat) {
    Logged(cfg, w.state, k) && Consistent(w) && Healthy(cfg, w.state)
  }

  lemma ApplyKeepsLog(cfg: Config, s: RunState, k: nat, u: Update)
    requires Distinct(cfg.order) && Logged(cfg, s, k) && k < |cfg.order|
    requires EntryFits(Apply(s, cfg.order[k], u), cfg.order[k], u.entry)
    ensures Logged(cfg, Apply(s, cfg.order[k], u), k + 1)
  {
    var n := cfg.order[k];
    var t := Apply(s, n, u);
    assert cfg.order[..k + 1] == cfg.order[..k] + [n];
    assert t.statuses.Keys == Elements(cfg.order[..k + 1]);
    forall i | 0 <= i < k ensures EntryFits(t, cfg.order[i], t.log[i]) {
      assert EntryFits(s, cfg.order[i], s.log[i]);
    }
  }

  lemma AbsorbKeeps(cfg: Config, w: World, k: nat, v: Visit)
    requires Distinct(cfg.order) && Inv(cfg, w, k) && k < |cfg.order| && Sound(cfg, w.state, cfg.order[k], v)
    requires v.attempts > 0 ==> v.u.status != Skipped
    ensures Inv(cfg, Absorb(w, cfg.order[k], v), k + 1)
  {
    hide Lively, Escalates, Logged;
    var n := cfg.order[k];
    ApplyKeepsLog(cfg, w.state, k, v.u);
    NewNode(cfg, w.state, k);
    assert forall m :: m in Absorb(w, n, v).calls ==> m in w.calls || (m == n && v.attempts > 0);
    assert Consistent(Absorb(w, n, v));
    assert Healthy(cfg, Absorb(w, n, v).state);
  }

  lemma NewNode(cfg: Config, s: RunState, k: nat)
    requires Distinct(cfg.order) && Logged(cfg, s, k) && k < |cfg.order|
    ensures cfg.order[k] !in s.statuses
  {
    assert cfg.order[k] !in cfg.order[..k];
  }

  lemma CalledIsNotSkipped(cfg: Config, provider: Provider, cache: map<string, Payload>, s: RunState, n: Node)
    requires n in cfg.specs && n in cfg.incoming && cfg.specs[n].maxAttempts >= 1
    requires VisitNode(cfg, provider, cache, s, n).Some?
    ensures var v := VisitNode(cfg, provider, cache, s, n).value; v.attempts > 0 ==> v.u.status != Skipped
  {
    hide Activate, Accepts, Identifying, Escalations, React;
  }

  lemma {:induction false} RunKeeps(c: Chain, k: nat)
    requires Reaches(c, k)
    ensures Inv(c.cfg, At(c, k), k)
  {
    hide VisitNode, Absorb, Sound;
    if k == 0 {
      assert Inv(c.cfg, Begin(c.cache), 0);
    } else {
      Visiting(c, k - 1);
      RunKeeps(c, k - 1);
      var n, w := c.cfg.order[k - 1], At(c, k - 1);
      VisitIsSound(c.cfg, c.provider, w.cache, w.state, n);
      CalledIsNotSkipped(c.cfg, c.provider, w.cache, w.state, n);
      AbsorbKeeps(c.cfg, w, k - 1, VisitAt(c, k - 1));
    }
  }

  // ------------------------------------------------------------------ a finished run

  lemma {:induction false} RoutesStay(c: Chain, i: nat, k: nat)
    requires Reaches(c, k) && i < k
    ensures Reaches(c, i + 1) && VisitAt(c, i).u.routes.Keys <= At(c, k).state.routes.Keys
    decreases k
  {
    hide VisitNode, Compiled, After;
    Visiting(c, k - 1);
    if i < k - 1 { RoutesStay(c, i, k - 1); }
  }

  lemma {:induction false} RecoverableOrigin(c: Chain, k: nat, n: Node) returns (i: nat)
    requires Reaches(c, k) && n in At(c, k).state.recoverable
    ensures i < k && Reaches(c, i + 1) && c.cfg.order[i] == n && VisitAt(c, i).u.recoverable
  {
    hide VisitNode, Compiled;
    if k == 0 {
      assert false;
    } else {
      Visiting(c, k - 1);
      if n in At(c, k - 1).state.recoverable {
        i := RecoverableOrigin(c, k - 1, n);
      } else {
        i := k - 1;
      }
    }
  }

  /** Visiting the node opened a failure route, and all its routes are still open. */
  ghost predicate OpenedRoute(c: Chain, n: Node, i: nat)
    requires Reaches(c, |c.cfg.order|)
  {
    && i < |c.cfg.order| && c.cfg.order[i] == n && Reaches(c, i + 1)
    && VisitAt(c, i).u.routes != map[]
    && VisitAt(c, i).u.routes.Keys <= At(c, |c.cfg.order|).state.routes.Keys
  }

  lemma RecoverableOpenedRoute(c: Chain, n: Node)
    requires Reaches(c, |c.cfg.order|) && n in At(c, |c.cfg.order|).state.recoverable
    ensures exists i :: OpenedRoute(c, n, i)
  {
    hide VisitNode, Compiled, After, VisitAt, At;
    var i := RecoverableOrigin(c, |c.cfg.order|, n);
    VisitAtIsSound(c, i);
    RoutesStay(c, i, |c.cfg.order|);
    assert OpenedRoute(c, n, i);
  }

  /** A run that ends completed has no cancelled node, only failed nodes that opened a recovery route, and
      only timed-out nodes the policy escalated. */
  lemma CompletedRunIsRecovered(c: Chain)
    requires Reaches(c, |c.cfg.order|) && FinalStatus(At(c, |c.cfg.order|).state) == RunCompleted
    ensures var s := At(c, |c.cfg.order|).state;
      && s.statuses.Keys == Elements(c.cfg.order)
      && forall n :: n in s.statuses ==>
           && s.statuses[n] != Cancelled
           && (s.statuses[n] == Failed ==> exists i :: OpenedRoute(c, n, i))
           && (s.statuses[n] == TimedOut ==> Escalates(c.cfg, n, "timeout"))
  {
    hide Escalates, Reaches, At, OpenedRoute, Inv;
    RunKeeps(c, |c.cfg.order|);
    var s := At(c, |c.cfg.order|).state;
    CompletedFacts(c.cfg, At(c, |c.cfg.order|), |c.cfg.order|);
    assert c.cfg.order[..|c.cfg.order|] == c.cfg.order;
    forall n | n in s.statuses && s.statuses[n] == Failed ensures exists i :: OpenedRoute(c, n, i) {
      RecoverableOpenedRoute(c, n);
    }
  }

  lemma CompletedFacts(cfg: Config, w: World, k: nat)
    requires Inv(cfg, w, k) && FinalStatus(w.state) == RunCompleted
    ensures w.state.statuses.Keys == Elements(cfg.order[..k])
    ensures forall n :: n in w.state.statuses ==>
      && w.state.statuses[n] != Cancelled
      && (w.state.statuses[n] == Failed ==> n in w.state.recoverable)
      && (w.state.statuses[n] == TimedOut ==> Escalates(cfg, n, "timeout"))
  {
    hide Escalates, EntryFits;
  }

  /** The check for cancelled nodes of a run still going never finds one. */
  lemma CancelledNodesCancelTheRun(c: Chain, n: Node)
    requires Reaches(c, |c.cfg.order|)
    requires n in At(c, |c.cfg.order|).state.statuses && At(c, |c.cfg.order|).state.statuses[n] == Cancelled
    ensures At(c, |c.cfg.order|).state.run != Running
  {
    hide Escalates, After;
    RunKeeps(c, |c.cfg.order|);
  }

  // ------------------------------------------------------------------ no effects after the end

  /** Once the run has failed or been cancelled nothing more happens: the rest of the chain is visited without
      an exception, every later node is skipped (or cancelled), no provider is called, and outputs, cached
      results, routes and the run status stay as they are. */
  lemma {:induction false} EndedRunIsFrozen(c: Chain, k: nat, m: nat)
    requires Reaches(c, k) && k <= m <= |c.cfg.order| && At(c, k).state.run != Running
    ensures Reaches(c, m) && Frozen(c.cfg, At(c, k), k, At(c, m), m)
    decreases m
  {
    hide Inv, Compiled, Reaches, At, Frozen;
    RunKeeps(c, k);
    EndedIsNotCompleted(c.cfg, At(c, k), k);
    if k < m {
      EndedRunIsFrozen(c, k, m - 1);
      EndedStep(c, At(c, k), k, m - 1);
    } else {
      FrozenAtFirst(c.cfg, At(c, k), k);
    }
  }

  /** From node k on nothing happened but skipping (or cancelling) nodes. */
  ghost predicate Frozen(cfg: Config, w: World, k: nat, t: World, m: nat) {
    && k <= m <= |cfg.order|
    && t.calls == w.calls && t.cache == w.cache && t.state.outputs == w.state.outputs
      && t.state.routes == w.state.routes
    && t.state.recoverable == w.state.recoverable && t.state.run == w.state.run
    && forall i :: k <= i < m ==> EndedNode(cfg.order[i], t.state)
  }

  predicate EndedNode(n: Node, s: RunState) {
    n in s.statuses && s.statuses[n] == if s.run == RunFailed then Skipped else Cancelled
  }

  lemma FrozenAtFirst(cfg: Config, w: World, k: nat)
    requires k <= |cfg.order|
    ensures Frozen(cfg, w, k, w, k)
  {
  }

  lemma EndedStep(c: Chain, w: World, k: nat, m: nat)
    requires Reaches(c, m) && m < |c.cfg.order| && Frozen(c.cfg, w, k, At(c, m), m)
      && (w.state.run == RunFailed || w.state.run == RunCancelled)
    ensures Reaches(c, m + 1) && Frozen(c.cfg, w, k, At(c, m + 1), m + 1)
  {
    hide Compiled, Activate, Execute, Frozen;
    NodeIsKnown(c.cfg, m);
    var t := At(c, m);
    assert t.state.run == w.state.run by { FrozenRun(c.cfg, w, k, t, m); }
    FrozenStep(c.cfg, w, k, t, m, At(c, m + 1));
  }

  lemma FrozenRun(cfg: Config, w: World, k: nat, t: World, m: nat)
    requires Frozen(cfg, w, k, t, m)
    ensures t.state.run == w.state.run
  {
  }

  lemma FrozenStep(cfg: Config, w: World, k: nat, t: World, m: nat, u: World)
    requires Frozen(cfg, w, k, t, m) && m < |cfg.order| && (w.state.run == RunFailed || w.state.run == RunCancelled)
    requires u == Absorb(t, cfg.order[m],
                         Plainly(cfg.order[m], if t.state.run == RunFailed then Skipped else Cancelled, t.state.run))
    ensures Frozen(cfg, w, k, u, m + 1)
  {
  }

  lemma EndedIsNotCompleted(cfg: Config, w: World, k: nat)
    requires Inv(cfg, w, k)
    ensures w.state.run != RunCompleted
  {
    hide Escalates, EntryFits;
  }

  // ------------------------------------------------------------------ why a node was called

  /** Node i of the chain made node j run: an edge between them fires for j, or i opened a failure route to
      j, which takes precedence over j's edges. */
  ghost predicate Causes(c: Chain, i: nat, j: nat) {
    i < j && j < |c.cfg.order| && Reaches(c, j) && Reaches(c, i + 1) && c.cfg.order[j] in c.cfg.incoming
    && var s, b := At(c, j).state, c.cfg.order[j];
       if b in s.routes then b in VisitAt(c, i).u.routes
       else exists e :: e in c.cfg.incoming[b] && e.plain.source == c.cfg.order[i] && Fires(c.cfg, s, e)
  }

  /** A chain of causes from the trigger to node j. */
  ghost predicate CausalChain(c: Chain, path: seq<nat>, j: nat) {
    && path != [] && path[|path| - 1] == j && path[0] < |c.cfg.order| && c.cfg.order[path[0]] == c.cfg.trigger
    && forall m :: 0 <= m < |path| - 1 ==> Causes(c, path[m], path[m + 1])
  }

  lemma {:induction false} StatusStays(c: Chain, i: nat, k: nat)
    requires Reaches(c, k) && i < k
    ensures Reaches(c, i + 1) && c.cfg.order[i] in At(c, k).state.statuses
    ensures At(c, k).state.statuses[c.cfg.order[i]] == VisitAt(c, i).u.status
    decreases k
  {
    hide VisitNode, After, SourcesIn;
    Visiting(c, k - 1);
    if i < k - 1 {
      StatusStays(c, i, k - 1);
      assert c.cfg.order[i] != c.cfg.order[k - 1];
    }
  }

  lemma {:induction false} RouteOrigin(c: Chain, k: nat, n: Node) returns (i: nat)
    requires Reaches(c, k) && n in At(c, k).state.routes
    ensures i < k && Reaches(c, i + 1) && n in VisitAt(c, i).u.routes
  {
    hide VisitNode, Compiled;
    if k == 0 {
      assert false;
    } else {
      Visiting(c, k - 1);
      if n in VisitAt(c, k - 1).u.routes { return k - 1; }
      i := RouteOrigin(c, k - 1, n);
    }
  }

  lemma {:induction false} CallOrigin(c: Chain, k: nat, n: Node) returns (i: nat)
    requires Reaches(c, k) && n in At(c, k).calls
    ensures i < k && Reaches(c, i + 1) && c.cfg.order[i] == n && VisitAt(c, i).attempts > 0
  {
    hide VisitNode, Compiled;
    if k == 0 {
      assert false;
    } else {
      Visiting(c, k - 1);
      if n in At(c, k - 1).calls {
        i := CallOrigin(c, k - 1, n);
      } else {
        assert n in Repeat(c.cfg.order[k - 1], VisitAt(c, k - 1).attempts);
        return k - 1;
      }
    }
  }

  lemma VisitAtIsSound(c: Chain, i: nat)
    requires Reaches(c, i + 1)
    ensures Reaches(c, i) && Sound(c.cfg, At(c, i).state, c.cfg.order[i], VisitAt(c, i))
  {
    hide VisitNode, Sound, After, Consistent, Logged, Compiled;
    Visiting(c, i);
    RunKeeps(c, i);
    VisitIsSound(c.cfg, c.provider, At(c, i).cache, At(c, i).state, c.cfg.order[i]);
  }

  /** The source of a firing edge is an earlier node that completed. */
  lemma SourceCompleted(c: Chain, j: nat, e: ChainEdge) returns (i: nat)
    requires j < |c.cfg.order| && Reaches(c, j) && c.cfg.order[j] in c.cfg.incoming
    requires e in c.cfg.incoming[c.cfg.order[j]] && Fires(c.cfg, At(c, j).state, e)
    ensures i < j && Reaches(c, i + 1) && c.cfg.order[i] == e.plain.source && VisitAt(c, i).u.status == Completed
  {
    hide VisitNode, After, VisitAt;
    assert SourcesIn(c.cfg.incoming[c.cfg.order[j]], c.cfg.order[..j]);
    i :| 0 <= i < j && c.cfg.order[..j][i] == e.plain.source;
    StatusStays(c, i, j);
  }

  /** What made a live node other than the trigger run, itself live. */
  lemma CauseOf(c: Chain, j: nat) returns (i: nat)
    requires j < |c.cfg.order| && Reaches(c, j) && c.cfg.order[j] != c.cfg.trigger
    requires Lively(c.cfg, At(c, j).state, c.cfg.order[j])
    ensures i < j && Causes(c, i, j) && Reaches(c, i) && Lively(c.cfg, At(c, i).state, c.cfg.order[i])
  {
    hide VisitNode, After, Fires, VisitAt, Compiled;
    var s, n := At(c, j).state, c.cfg.order[j];
    if n in s.routes {
      i := RouteOrigin(c, j, n);
    } else {
      var fired := FiringEdges(c.cfg, s, c.cfg.incoming[n]);
      assert fired[0] in fired;
      i := SourceCompleted(c, j, fired[0]);
    }
    VisitAtIsSound(c, i);
  }

  /** Every node that comes to life does so through a chain of fired edges and failure routes that starts at
      the trigger. */
  lemma {:induction false} LiveNodesAreCaused(c: Chain, j: nat) returns (path: seq<nat>)
    requires j < |c.cfg.order| && Reaches(c, j) && Lively(c.cfg, At(c, j).state, c.cfg.order[j])
    ensures CausalChain(c, path, j)
  {
    hide Lively, Causes, Compiled, After;
    if c.cfg.order[j] == c.cfg.trigger {
      return [j];
    } else {
      var i := CauseOf(c, j);
      var before := LiveNodesAreCaused(c, i);
      path := before + [j];
      forall m | 0 <= m < |path| - 1 ensures Causes(c, path[m], path[m + 1]) {
        if m == |before| - 1 { assert path[m] == i; }
      }
    }
  }

  /** A node whose provider was called was visited while the run was going, and a chain of fired edges and
      failure routes leads to it from the trigger. */
  lemma CalledNodesAreCaused(c: Chain, k: nat, n: Node) returns (j: nat, path: seq<nat>)
    requires Reaches(c, k) && n in At(c, k).calls
    ensures j < k && c.cfg.order[j] == n && Reaches(c, j) && At(c, j).state.run == Running && CausalChain(c, path, j)
  {
    hide After, Causes, Compiled, CausalChain, VisitAt, At;
    j := CallOrigin(c, k, n);
    VisitAtIsSound(c, j);
    path := LiveNodesAreCaused(c, j);
  }

  lemma CallsAfter(calls: seq<Node>, m: Node, k: nat, n: Node)
    ensures multiset(calls + Repeat(m, k))[n] == multiset(calls)[n] + if m == n then k else 0
  {
    RepeatCount(m, k, n);
  }

  /** A node has been called at most as often as its retry policy allows, and not before its turn. */
  ghost predicate CalledWithin(cfg: Config, calls: seq<Node>, k: nat, n: Node) {
    && k <= |cfg.order|
    && (n in cfg.specs ==> multiset(calls)[n] <= cfg.specs[n].maxAttempts)
    && (n !in cfg.order[..k] ==> multiset(calls)[n] == 0)
  }

  lemma CalledWithinNext(cfg: Config, calls: seq<Node>, k: nat, n: Node, attempts: nat)
    requires Distinct(cfg.order) && k < |cfg.order| && CalledWithin(cfg, calls, k, n) && cfg.order[k] in cfg.specs
    requires attempts <= cfg.specs[cfg.order[k]].maxAttempts
    ensures CalledWithin(cfg, calls + Repeat(cfg.order[k], attempts), k + 1, n)
  {
    hide Repeat;
    CallsAfter(calls, cfg.order[k], attempts, n);
    assert cfg.order[..k + 1] == cfg.order[..k] + [cfg.order[k]];
    assert cfg.order[k] !in cfg.order[..k];
  }

  lemma OrderIsDistinct(cfg: Config)
    requires Compiled(cfg)
    ensures Distinct(cfg.order)
  {
  }

  /** A node's provider is called at most as often as its retry policy allows. */
  lemma {:induction false} CallsAreBounded(c: Chain, k: nat, n: Node)
    requires Reaches(c, k)
    ensures CalledWithin(c.cfg, At(c, k).calls, k, n)
  {
    hide VisitNode, Compiled, CalledWithin, Distinct, After;
    OrderIsDistinct(c.cfg);
    if k > 0 {
      Visiting(c, k - 1);
      CallsAreBounded(c, k - 1, n);
      AttemptsBounded(c.cfg, c.provider, At(c, k - 1).cache, At(c, k - 1).state, c.cfg.order[k - 1]);
      CalledWithinNext(c.cfg, At(c, k - 1).calls, k - 1, n, VisitAt(c, k - 1).attempts);
    } else {
      NotCalledYet(c, n);
    }
  }

  lemma NotCalledYet(c: Chain, n: Node)
    requires Reaches(c, 0)
    ensures CalledWithin(c.cfg, At(c, 0).calls, 0, n)
  {
  }

  lemma AttemptsBounded(cfg: Config, provider: Provider, cache: map<string, Payload>, s: RunState, n: Node)
    requires n in cfg.specs && n in cfg.incoming && cfg.specs[n].maxAttempts >= 1
    requires VisitNode(cfg, provider, cache, s, n).Some?
    ensures VisitNode(cfg, provider, cache, s, n).value.attempts <= cfg.specs[n].maxAttempts
  {
    hide Activate, Accepts, Identifying, Escalations, React;
  }

  lemma {:induction false} RepeatCount(m: Node, k: nat, n: Node)
    ensures multiset(Repeat(m, k))[n] == if m == n then k else 0
  {
    if k == 0 {
    } else {
      RepeatCount(m, k - 1, n);
      assert Repeat(m, k) == Repeat(m, k - 1) + [m];
    }
  }
}
