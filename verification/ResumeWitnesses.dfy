/** Concrete failed runs whose re-execution does not repeat what was logged as completed. */
module ResumeWitnesses {
  import opened Graphs
  import opened Wrappers
  import opened Json
  import opened WhenValues
  import opened LinearSpec
  import opened LinearRuns
  import opened Resume
  import opened Engine
  import Mappings = OrchestratorSpec

  type Redaction = (Node, Json) -> Json

  const START: Node := "start"
  const WORK: Node := "work"
  const LAST: Node := "publish"

  function PlainSpec(): NodeSpec { NodeSpec(map[], map[], 1, {}, None, [], []) }

  function Link(): ChainEdge { ChainEdge(Mappings.InEdge(START, "", []), false, None) }

  /** start -> work and start -> last, no types, no policy rules, keys that are the nodes' names. */
  function Fork(redact: Redaction): Config {
    Config([START, WORK, LAST], START, START, map[START := [], WORK := [Link()], LAST := [Link()]],
           map[START := PlainSpec(), WORK := PlainSpec(), LAST := PlainSpec()], [], map[], {}, (n, p) => n, redact)
  }

  /** The last node fails for good, any other gives the output. */
  function Gives(o: Option<Payload>): Provider {
    (n, p, k) => if n == LAST then Error("unavailable", "", false) else Output(o)
  }

  function Keep(): Redaction { (n, v) => v }

  /** A pii_redaction rule for one field of one node. */
  function MaskSecret(): Redaction {
    (n: Node, v: Json) =>
      if n == WORK && v.Obj? && "secret" in v.fields then Obj(v.fields["secret" := Str("[REDACTED]")]) else v
  }

  lemma ForkCompiles(redact: Redaction)
    ensures Compiled(Fork(redact))
  {
    var cfg := Fork(redact);
    assert Elements(cfg.order) == {START, WORK, LAST};
    assert cfg.incoming.Keys == cfg.specs.Keys == {START, WORK, LAST};
    forall i | 0 <= i < |cfg.order| ensures SourcesIn(cfg.incoming[cfg.order[i]], cfg.order[..i]) {
      if i > 0 { LinkComesFrom(cfg.order, i); }
    }
    hide SourcesIn;
  }

  lemma LinkComesFrom(order: seq<Node>, i: nat)
    requires 0 < i <= |order| && order[0] == START
    ensures SourcesIn([Link()], order[..i])
  {
    assert order[..i][0] == START;
  }

  lemma ForkKeysApart(redact: Redaction)
    ensures KeysApart(Fork(redact))
  {
  }

  // ------------------------------------------------------------------ the three visits

  function StartVisit(redact: Redaction): Visit { PassTrigger(Fork(redact), Begin(map[]).state, START) }

  function AfterStart(redact: Redaction): RunState { Apply(Begin(map[]).state, START, StartVisit(redact).u) }

  lemma IsActivated(redact: Redaction, s: RunState, n: Node)
    requires n == WORK || n == LAST
    requires s.routes == map[] && START in s.statuses && s.statuses[START] == Completed
    ensures Activate(Fork(redact), s, n) == Active(map[], [Link()])
  {
    var cfg := Fork(redact);
    var edges := cfg.incoming[n];
    assert edges == [Link()] && edges[..0] == [];
    assert FiringEdges(cfg, s, edges) == FiringEdges(cfg, s, edges[..0]) + [Link()];
    var plain := Plain([Link()]);
    assert plain == [Link().plain] && plain[..0] == [];
    MergesToNothing(Snapshot(cfg.input, s.outputs), cfg.alias);
  }

  lemma MergesToNothing(view: Snapshot, alias: Node)
    ensures Mappings.MergeEdges([Link().plain], view, alias) == Mappings.Merged(map[])
  {
    assert [Link().plain][..0] == [];
    assert Mappings.MergeEdges([], view, alias) == Mappings.Merged(map[]);
  }

  function WorkEntry(redact: Redaction, output: Json): Entry {
    Entry(WORK, Completed, Some(WORK), Some(redact(WORK, output)))
  }

  /** The second node's visit: answered from the cache, or with the provider's output. */
  function WorkVisit(redact: Redaction, o: Option<Payload>, cache: map<string, Payload>): Visit {
    if WORK in cache then
      Quiet(Update(Completed, Some(Obj(cache[WORK])), WorkEntry(redact, Obj(cache[WORK])), map[], false, Running))
    else
      Visit(Update(Completed, Some(JsonOf(o)), WorkEntry(redact, JsonOf(o)), map[], false, Running), 1,
            Some((WORK, if o.Some? then o.value else map[])))
  }

  lemma WorkIsVisited(redact: Redaction, o: Option<Payload>, cache: map<string, Payload>)
    ensures VisitNode(Fork(redact), Gives(o), cache, AfterStart(redact), WORK) == Some(WorkVisit(redact, o, cache))
  {
    hide Activate, FiringEdges;
    IsActivated(redact, AfterStart(redact), WORK);
  }

  function AfterWork(redact: Redaction, o: Option<Payload>, cache: map<string, Payload>): World {
    Absorb(World(AfterStart(redact), cache, []), WORK, WorkVisit(redact, o, cache))
  }

  /** The third node's visit fails the run. */
  function LastVisit(): Visit {
    Visit(Update(Failed, None, Entry(LAST, Failed, Some(LAST), None), map[], false, RunFailed), 1, None)
  }

  lemma LastIsVisited(redact: Redaction, o: Option<Payload>, cache: map<string, Payload>, w: World)
    requires LAST !in w.cache && w.state.run == Running
    requires w.state.routes == map[] && START in w.state.statuses && w.state.statuses[START] == Completed
    ensures VisitNode(Fork(redact), Gives(o), w.cache, w.state, LAST) == Some(LastVisit())
  {
    hide Activate, FiringEdges;
    IsActivated(redact, w.state, LAST);
    assert React([Link()][..0], LAST, map[], "unavailable", "") == Reaction(map[], false);
    assert React([Link()], LAST, map[], "unavailable", "") == Reaction(map[], false);
    assert Escalations([], LAST, "failure", 1, map[]) == map[];
  }

  /** One more node of a chain. */
  lemma NextWorld(c: Chain, k: nat, w: World, n: Node, v: Visit)
    requires Reaches(c, k) && k < |c.cfg.order| && c.cfg.order[k] == n && At(c, k) == w
    requires Has(c.cfg, n) && VisitNode(c.cfg, c.provider, w.cache, w.state, n) == Some(v)
    ensures Reaches(c, k + 1) && At(c, k + 1) == Absorb(w, n, v)
  {
    hide VisitNode, Absorb;
    ReachesNext(c, k);
    Visiting(c, k);
  }

  lemma ForkRun(redact: Redaction, o: Option<Payload>, cache: map<string, Payload>)
    requires LAST !in cache
    ensures var c := Chain(Fork(redact), Gives(o), cache);
      && |c.cfg.order| == 3 && Reaches(c, 3)
      && At(c, 3) == Absorb(AfterWork(redact, o, cache), LAST, LastVisit())
  {
    ForkNodes(redact);
    hide *;
    WorkLeaves(redact, o, cache);
    ForkPrefix(redact, o, cache);
    LastIsVisited(redact, o, cache, AfterWork(redact, o, cache));
    NextWorld(Chain(Fork(redact), Gives(o), cache), 2, AfterWork(redact, o, cache), LAST, LastVisit());
  }

  lemma ForkPrefix(redact: Redaction, o: Option<Payload>, cache: map<string, Payload>)
    ensures var c := Chain(Fork(redact), Gives(o), cache); Reaches(c, 2) && At(c, 2) == AfterWork(redact, o, cache)
  {
    ForkNodes(redact);
    WorkWorld(redact, o, cache);
    hide *;
    ForkStart(redact, o, cache);
    WorkIsVisited(redact, o, cache);
    NextWorld(Chain(Fork(redact), Gives(o), cache), 1, World(AfterStart(redact), cache, []), WORK,
              WorkVisit(redact, o, cache));
  }

  lemma ForkStart(redact: Redaction, o: Option<Payload>, cache: map<string, Payload>)
    ensures var c := Chain(Fork(redact), Gives(o), cache);
      Reaches(c, 1) && At(c, 1) == World(AfterStart(redact), cache, [])
  {
    ForkNodes(redact);
    hide *;
    ForkCompiles(redact);
    ForkBegins(redact, o, cache);
    StartIsVisited(redact, o, cache);
    NextWorld(Chain(Fork(redact), Gives(o), cache), 0, Begin(cache), START, StartVisit(redact));
  }

  lemma WorkWorld(redact: Redaction, o: Option<Payload>, cache: map<string, Payload>)
    ensures AfterWork(redact, o, cache)
      == Absorb(World(AfterStart(redact), cache, []), WORK, WorkVisit(redact, o, cache))
  {
  }

  predicate Has(cfg: Config, n: Node) {
    n in cfg.incoming && n in cfg.specs && cfg.specs[n].maxAttempts >= 1
  }

  lemma ForkNodes(redact: Redaction)
    ensures Fork(redact).order == [START, WORK, LAST]
    ensures Has(Fork(redact), START) && Has(Fork(redact), WORK) && Has(Fork(redact), LAST)
  {
  }

  lemma ForkBegins(redact: Redaction, o: Option<Payload>, cache: map<string, Payload>)
    requires Compiled(Fork(redact))
    ensures var c := Chain(Fork(redact), Gives(o), cache); Reaches(c, 0) && At(c, 0) == Begin(cache)
  {
    hide Compiled, Fork, Gives;
  }

  lemma WorkLeaves(redact: Redaction, o: Option<Payload>, cache: map<string, Payload>)
    requires LAST !in cache
    ensures var w := AfterWork(redact, o, cache);
      && LAST !in w.cache && w.state.run == Running && w.state.routes == map[]
      && START in w.state.statuses && w.state.statuses[START] == Completed
  {
    hide Fork;
  }

  lemma StartIsVisited(redact: Redaction, o: Option<Payload>, cache: map<string, Payload>)
    ensures VisitNode(Fork(redact), Gives(o), Begin(cache).cache, Begin(cache).state, START) == Some(StartVisit(redact))
    ensures Absorb(Begin(cache), START, StartVisit(redact)) == World(AfterStart(redact), cache, [])
  {
    hide Activate, Execute;
  }

  // ------------------------------------------------------------------ what the run leaves

  /** The run ends failed, with the second node completed; who was asked, and with what result. */
  lemma ForkResult(redact: Redaction, o: Option<Payload>, cache: map<string, Payload>)
    requires LAST !in cache
    ensures var c := Chain(Fork(redact), Gives(o), cache);
      && |c.cfg.order| == 3 && Reaches(c, 3) && FinalStatus(Final(c).state) == RunFailed
      && WORK in Final(c).state.outputs
      && Final(c).state.outputs[WORK] == (if WORK in cache then Obj(cache[WORK]) else JsonOf(o))
      && (WORK in Final(c).calls <==> WORK !in cache)
  {
    ForkRun(redact, o, cache);
    hide Compiled, After, At, Fork, Gives;
    assert Repeat(WORK, 0) == [] && Repeat(WORK, 1) == [WORK] && Repeat(LAST, 1) == [LAST];
  }

  lemma ThreeEntries(a: Entry, b: Entry, c: Entry)
    requires a.node != b.node && a.node != c.node && b.node != c.node
    ensures Persisted(map[], [a, b, c]) == map[a.node := a, b.node := b, c.node := c]
  {
    assert [a, b, c][..2] == [a, b] && [a, b][..1] == [a] && [a][..0] == [];
    assert Persisted(map[], []) == map[];
    assert Persisted(map[], [a]) == map[a.node := a];
    assert Persisted(map[], [a, b]) == map[a.node := a, b.node := b];
  }

  /** What is stored for the three nodes. */
  lemma Stored(redact: Redaction, o: Option<Payload>)
    ensures var c := Chain(Fork(redact), Gives(o), map[]);
      && |c.cfg.order| == 3 && Reaches(c, 3) && |FinalLog(c)| == 3
      && FinalLog(c)[0].key == None && Settled(c.cfg, FinalLog(c)[0])
      && FinalLog(c)[1] == WorkEntry(redact, JsonOf(o)) && FinalLog(c)[2] == LastVisit().u.entry
      && Persisted(map[], FinalLog(c)) == map[START := FinalLog(c)[0], WORK := FinalLog(c)[1], LAST := FinalLog(c)[2]]
  {
    ForkLog(redact, o);
    hide Reaches, At, Gives, Persisted, WorkEntry;
    var log := FinalLog(Chain(Fork(redact), Gives(o), map[]));
    assert WorkEntry(redact, JsonOf(o)).node == WORK by { WorkEntryIs(redact, JsonOf(o)); }
    ThreeEntries(log[0], log[1], log[2]);
    assert log == [log[0], log[1], log[2]];
  }

  lemma WorkEntryIs(redact: Redaction, output: Json)
    ensures WorkEntry(redact, output).node == WORK
  {
  }

  lemma ForkLog(redact: Redaction, o: Option<Payload>)
    ensures var c := Chain(Fork(redact), Gives(o), map[]);
      && |c.cfg.order| == 3 && Reaches(c, 3)
      && FinalLog(c) == [StartVisit(redact).u.entry, WorkEntry(redact, JsonOf(o)), LastVisit().u.entry]
  {
    ForkRun(redact, o, map[]);
    hide Reaches, At, Gives;
  }

  lemma StoredIsCached(redact: Redaction, o: Option<Payload>, out: Payload)
    requires redact(WORK, JsonOf(o)) == Obj(out)
    ensures var c := Chain(Fork(redact), Gives(o), map[]);
      && |c.cfg.order| == 3 && Reaches(c, 3) && SettledPrefix(c.cfg, FinalLog(c), 2)
      && IsCacheOf(map[WORK := out], Persisted(map[], FinalLog(c)))
  {
    Stored(redact, o);
    hide Compiled, After, At, Persisted, Gives;
    var c := Chain(Fork(redact), Gives(o), map[]);
    assert Stands(Persisted(map[], FinalLog(c)), WORK, WORK, out);
  }

  lemma NothingIsCached(redact: Redaction, o: Option<Payload>)
    requires !redact(WORK, JsonOf(o)).Obj?
    ensures var c := Chain(Fork(redact), Gives(o), map[]);
      |c.cfg.order| == 3 && Reaches(c, 3) && IsCacheOf(map[], Persisted(map[], FinalLog(c)))
  {
    Stored(redact, o);
    hide Compiled, After, At, Persisted, Gives, Fork;
  }

  lemma Resumed(redact: Redaction, o: Option<Payload>, cache: map<string, Payload>)
    requires var c := Chain(Fork(redact), Gives(o), map[]);
      |c.cfg.order| == 3 && Reaches(c, 3) && IsCacheOf(cache, Persisted(map[], FinalLog(c)))
    ensures ResumesFrom(Chain(Fork(redact), Gives(o), map[]), Chain(Fork(redact), Gives(o), cache), map[])
  {
    ForkKeysApart(redact);
    hide Compiled, After, At, KeysApart, IsCacheOf, Fork;
  }

  // ------------------------------------------------------------------ the witnesses

  /** A provider that returns nothing completes its node but leaves nothing in the cache: when the run, failed by
      another node, is executed again, the provider is called again. */
  lemma EmptyOutputIsCalledAgain()
    ensures var c := Chain(Fork(Keep()), Gives(None), map[]);
      && ResumesFrom(c, c, map[]) && FinalStatus(Final(c).state) == RunFailed
      && |FinalLog(c)| == 3 && FinalLog(c)[1].node == WORK && FinalLog(c)[1].status == Completed
      && WORK in Final(c).calls && (forall n :: Unredacted(c.cfg, n))
  {
    assert forall n :: Unredacted(Fork(Keep()), n);
    assert Keep()(WORK, JsonOf(None)) == Null;
    hide Compiled, After, At, IsCacheOf, Persisted, FinalStatus, ResumesFrom, Fork, Gives, Keep, Unredacted;
    ForkResult(Keep(), None, map[]);
    Stored(Keep(), None);
    NothingIsCached(Keep(), None);
    Resumed(Keep(), None, map[]);
  }

  const SECRET: Payload := map["secret" := Str("key")]

  const MASKED: Payload := map["secret" := Str("[REDACTED]")]

  lemma SecretIsMasked()
    ensures MaskSecret()(WORK, JsonOf(Some(SECRET))) == Obj(MASKED)
  {
    assert SECRET["secret" := Str("[REDACTED]")] == MASKED;
  }

  /** With one masked field in one node's output, re-executing a failed run goes on with another value than the
      original run had. */
  lemma MaskedOutputIsResumed()
    ensures var c := Chain(Fork(MaskSecret()), Gives(Some(SECRET)), map[]);
      var later := Chain(Fork(MaskSecret()), Gives(Some(SECRET)), map[WORK := MASKED]);
      && ResumesFrom(c, later, map[]) && SettledPrefix(c.cfg, FinalLog(c), 2)
        && FinalStatus(Final(c).state) == RunFailed
      && WORK in Final(c).state.outputs && Final(c).state.outputs[WORK] == Obj(SECRET) != Obj(MASKED)
      && Reaches(later, |later.cfg.order|)
      && WORK in Final(later).state.outputs && Final(later).state.outputs[WORK] == Obj(MASKED)
      && WORK !in Final(later).calls
  {
    SecretIsMasked();
    assert SECRET["secret"] != MASKED["secret"];
    hide Compiled, After, At, IsCacheOf, Persisted, ResumesFrom, SettledPrefix, MaskSecret, Fork, Gives, FinalStatus;
    StoredIsCached(MaskSecret(), Some(SECRET), MASKED);
    Resumed(MaskSecret(), Some(SECRET), map[WORK := MASKED]);
    ForkResult(MaskSecret(), Some(SECRET), map[]);
    ForkResult(MaskSecret(), Some(SECRET), map[WORK := MASKED]);
  }

  // ------------------------------------------------------------------ and how the engine comes to them

  /** The first run, as the engine's trigger makes it. */
  function FirstRun(redact: Redaction, o: Option<Payload>): Chain { Chain(Fork(redact), Gives(o), map[]) }

  lemma NoRecordsNoCache(cache: map<string, Payload>)
    requires IsCacheOf(cache, map[])
    ensures cache == map[]
  {
    forall k ensures k !in cache {
      if k in cache { var n: Node :| Stands(map[], n, k, cache[k]); }
    }
  }

  lemma StoredIsSound(redact: Redaction, o: Option<Payload>)
    requires Reaches(FirstRun(redact, o), |FirstRun(redact, o).cfg.order|)
    ensures RecordsSound(Fork(redact), Persisted(map[], FinalLog(FirstRun(redact, o))))
  {
    hide Reaches, At, KeyOfNode, Fork, Gives;
    RunLogIsSound(FirstRun(redact, o), |FirstRun(redact, o).cfg.order|);
    PersistKeepsSound(Fork(redact), map[], FinalLog(FirstRun(redact, o)));
  }

  lemma ForkFinishes(redact: Redaction, o: Option<Payload>, cache: map<string, Payload>)
    requires LAST !in cache
    ensures var c := Chain(Fork(redact), Gives(o), cache); Finishes(c) && Reported(c) == RunFailed
  {
    ForkCompiles(redact);
    ForkResult(redact, o, cache);
    hide Compiled, At, After, FinalStatus;
  }

  /** The records of the first run have one cache only. */
  lemma StoredCacheIs(redact: Redaction, o: Option<Payload>, cache: map<string, Payload>, other: map<string, Payload>)
    requires Reaches(FirstRun(redact, o), |FirstRun(redact, o).cfg.order|)
    requires IsCacheOf(cache, Persisted(map[], FinalLog(FirstRun(redact, o))))
    requires IsCacheOf(other, Persisted(map[], FinalLog(FirstRun(redact, o))))
    ensures cache == other
  {
    hide Reaches, At, IsCacheOf, RecordsSound, KeysApart, Persisted;
    StoredIsSound(redact, o);
    ForkKeysApart(redact);
    CacheIsDetermined(Fork(redact), Persisted(map[], FinalLog(FirstRun(redact, o))), cache, other);
  }

  /** Triggering the process and stepping its run, failed by the last node, against unchanged providers. */
  method TriggerAndStep(redact: Redaction, o: Option<Payload>, ghost cache: map<string, Payload>)
    returns (engine: Engine)
    requires var c := FirstRun(redact, o);
      |c.cfg.order| == 3 && Reaches(c, 3) && LAST !in cache && IsCacheOf(cache, Persisted(map[], FinalLog(c)))
    ensures fresh(engine) && engine.Valid() && engine.cfg == Fork(redact)
    ensures engine.runs == [FirstRun(redact, o), Chain(Fork(redact), Gives(o), cache)]
    ensures OnlyFailedAreRepeated(engine.runs) && Reported(engine.runs[0]) == RunFailed
  {
    ForkCompiles(redact);
    hide *;
    engine := new Engine(Fork(redact));
    var finished, c := engine.Trigger(Gives(o));
    NoRecordsNoCache(c.cache);
    assert c == FirstRun(redact, o) by { IsFirstRun(redact, o, c); }
    ForkFinishes(redact, o, map[]);
    FirstRunStores(redact, o, engine.records);
    finished, c := engine.Step(Gives(o));
    StoredCacheIs(redact, o, c.cache, cache);
    ForkFinishes(redact, o, cache);
  }

  lemma FirstRunStores(redact: Redaction, o: Option<Payload>, records: Records)
    requires Execution(Fork(redact), map[], FirstRun(redact, o), records)
    ensures Reaches(FirstRun(redact, o), |FirstRun(redact, o).cfg.order|)
      && records == Persisted(map[], FinalLog(FirstRun(redact, o)))
  {
  }

  lemma IsFirstRun(redact: Redaction, o: Option<Payload>, c: Chain)
    requires c.cfg == Fork(redact) && c.provider == Gives(o) && c.cache == map[]
    ensures c == FirstRun(redact, o)
  {
  }
}
