/** Running a process again under the same run id: node records, the result cache built from them, and what
    a later execution repeats. */
module Resume {
  import opened Wrappers
  import opened LinearSpec
  import opened LinearRuns

  type Records = map<Node, Entry>

  /** save_node_record: fields of the new entry over those already stored. */
  function Over(records: Records, e: Entry): Entry {
    if e.node in records
    then Entry(e.node, e.status, if e.key.Some? then e.key else records[e.node].key,
               if e.output.Some? then e.output else records[e.node].output)
    else e
  }

  function Persisted(records: Records, log: seq<Entry>): Records {
    if log == [] then records
    else
      var before := Persisted(records, log[..|log| - 1]);
      before[log[|log| - 1].node := Over(before, log[|log| - 1])]
  }

  method PersistLog(records: Records, log: seq<Entry>) returns (r: Records)
    ensures r == Persisted(records, log)
  {
    r := records;
    for i := 0 to |log|
      invariant r == Persisted(records, log[..i])
    {
      assert log[..i + 1][..i] == log[..i];
      r := r[log[i].node := Over(r, log[i])];
    }
    assert log[..|log|] == log;
  }

  /** Completed, with a key and a dictionary for an output. */
  predicate Usable(e: Entry) {
    e.status == Completed && e.key.Some? && e.output.Some? && e.output.value.Obj?
  }

  ghost predicate Stands(records: Records, n: Node, key: string, out: Payload) {
    n in records && Usable(records[n]) && records[n].key.value == key && records[n].output.value.fields == out
  }

  /** Every usable record's key is cached, and every cached result is some usable record's. */
  ghost predicate IsCacheOf(cache: map<string, Payload>, records: Records) {
    && (forall n :: n in records && Usable(records[n]) ==> records[n].key.value in cache)
    && forall k :: k in cache ==> exists n :: Stands(records, n, k, cache[k])
  }

  /** The cache a new execution starts from, whatever order the records are listed in. */
  method CachedResults(records: Records) returns (cache: map<string, Payload>)
    ensures IsCacheOf(cache, records)
  {
    cache := map[];
    var todo := records.Keys;
    while todo != {}
      invariant todo <= records.Keys
      invariant forall n :: n in records && n !in todo && Usable(records[n]) ==> records[n].key.value in cache
      invariant forall k :: k in cache ==> exists n :: Stands(records, n, k, cache[k])
      decreases |todo|
    {
      var n :| n in todo;
      todo := todo - {n};
      var rec := records[n];
      if rec.status != Completed {
        continue;
      }
      if rec.key.Some? && rec.output.Some? && rec.output.value.Obj? {
        assert Stands(records, n, rec.key.value, rec.output.value.fields);
        ghost var before := cache;
        cache := cache[rec.key.value := rec.output.value.fields];
        forall k | k in cache ensures exists m :: Stands(records, m, k, cache[k]) {
          if k != rec.key.value { assert exists m :: Stands(records, m, k, before[k]); }
        }
      }
    }
  }

  // ------------------------------------------------------------------ keys

  /** Keys of different nodes never coincide. */
  ghost predicate KeysApart(cfg: Config) {
    forall n, m, p, q :: cfg.digest(n, p) == cfg.digest(m, q) ==> n == m
  }

  ghost predicate KeyOfNode(cfg: Config, n: Node, key: string) {
    exists p :: cfg.digest(n, p) == key
  }

  /** Every record belongs to the node it is stored under, and so does its key. */
  ghost predicate RecordsSound(cfg: Config, records: Records) {
    forall n :: n in records ==>
      records[n].node == n && (records[n].key.Some? ==> KeyOfNode(cfg, n, records[n].key.value))
  }

  ghost predicate LogSound(cfg: Config, log: seq<Entry>) {
    forall e :: e in log && e.key.Some? ==> KeyOfNode(cfg, e.node, e.key.value)
  }

  lemma {:induction false} PersistKeepsSound(cfg: Config, records: Records, log: seq<Entry>)
    requires RecordsSound(cfg, records) && LogSound(cfg, log)
    ensures RecordsSound(cfg, Persisted(records, log))
  {
    hide KeyOfNode;
    if log == [] {
    } else {
      var k := |log| - 1;
      assert log == log[..k] + [log[k]];
      PersistKeepsSound(cfg, records, log[..k]);
    }
  }

  lemma KeyIsOfNode(cfg: Config, n: Node, input: Payload)
    requires n in cfg.specs
    ensures KeyOfNode(cfg, n, KeyOf(cfg, n, input))
  {
    assert cfg.digest(n, Identifying(cfg.specs[n], input)) == KeyOf(cfg, n, input);
  }

  lemma EntryIsSound(cfg: Config, provider: Provider, cache: map<string, Payload>, s: RunState, n: Node)
    requires n in cfg.specs && n in cfg.incoming && cfg.specs[n].maxAttempts >= 1
    requires VisitNode(cfg, provider, cache, s, n).Some?
    ensures var e := VisitNode(cfg, provider, cache, s, n).value.u.entry;
      e.node == n && (e.key.Some? ==> KeyOfNode(cfg, n, e.key.value))
  {
    hide Activate, Accepts, KeyOf, KeyOfNode, Escalations, React, AttemptsUsed;
    forall input ensures KeyOfNode(cfg, n, KeyOf(cfg, n, input)) { KeyIsOfNode(cfg, n, input); }
  }

  lemma {:induction false} RunLogIsSound(c: Chain, k: nat)
    requires Reaches(c, k)
    ensures LogSound(c.cfg, At(c, k).state.log)
  {
    hide VisitNode, Compiled, KeyOfNode;
    if k == 0 {
    } else {
      Visiting(c, k - 1);
      RunLogIsSound(c, k - 1);
      EntryIsSound(c.cfg, c.provider, At(c, k - 1).cache, At(c, k - 1).state, c.cfg.order[k - 1]);
    }
  }

  /** In a log with one entry per node, the record of entry i's node is that entry over the older record. */
  lemma {:induction false} RecordOf(records: Records, log: seq<Entry>, i: nat)
    requires i < |log| && forall a, b :: 0 <= a < b < |log| ==> log[a].node != log[b].node
    ensures log[i].node in Persisted(records, log) && Persisted(records, log)[log[i].node] == Over(records, log[i])
    decreases |log|
  {
    var k := |log| - 1;
    assert log == log[..k] + [log[k]];
    if i < k {
      RecordOf(records, log[..k], i);
    } else {
      OthersUntouched(records, log[..k], log[k].node);
    }
  }

  lemma {:induction false} OthersUntouched(records: Records, log: seq<Entry>, n: Node)
    requires forall a :: 0 <= a < |log| ==> log[a].node != n
    ensures n in Persisted(records, log) <==> n in records
    ensures n in records ==> Persisted(records, log)[n] == records[n]
  {
    if log == [] {
    } else {
      OthersUntouched(records, log[..|log| - 1], n);
    }
  }

  // ------------------------------------------------------------------ replaying one visit

  /** Skipped, or completed with a dictionary for an output. */
  predicate Settled(cfg: Config, e: Entry) {
    e.status == Skipped || (e.status == Completed && (e.node == cfg.trigger || (e.output.Some? && e.output.value.Obj?)))
  }

  /** A settled entry that a cached result stands for. */
  predicate Recorded(cfg: Config, e: Entry) {
    e.status == Completed && e.node != cfg.trigger && e.output.Some? && e.output.value.Obj?
  }

  /** What the visit amounts to when it is repeated from its record: the logged output becomes the output. */
  function Replayed(cfg: Config, u: Update): Update {
    if Recorded(cfg, u.entry)
    then u.(output := u.entry.output, entry := u.entry.(output := Some(cfg.redact(u.entry.node, u.entry.output.value))))
    else u
  }

  ghost predicate CacheCovers(cfg: Config, cache: map<string, Payload>, e: Entry) {
    Recorded(cfg, e) ==> e.key.Some? && e.key.value in cache && cache[e.key.value] == e.output.value.fields
  }

  lemma SettledVisit(cfg: Config, provider: Provider, cache: map<string, Payload>, s: RunState, n: Node, v: Visit)
    requires n in cfg.specs && n in cfg.incoming && cfg.specs[n].maxAttempts >= 1 && s.run == Running
    requires VisitNode(cfg, provider, cache, s, n) == Some(v) && Settled(cfg, v.u.entry)
    ensures v.u.entry.node == n && v.u.status == v.u.entry.status && v.u.run == Running && v.u.routes == map[]
      && !v.u.recoverable
    ensures v.u.output.Some? <==> v.u.status == Completed
    ensures Recorded(cfg, v.u.entry) ==>
      v.u.entry.key.Some? && v.u.output.Some? && v.u.entry.output == Some(cfg.redact(n, v.u.output.value))
  {
    hide Activate, Accepts, KeyOf, Escalations, React, AttemptsUsed;
  }

  /** Visiting a node again, in the same run state but with another provider and its record in the cache,
      repeats the settled visit without calling the provider. */
  lemma VisitIsReplayed(cfg: Config, provider: Provider, cache: map<string, Payload>, again: Provider,
                        records: map<string, Payload>, s: RunState, n: Node, v: Visit)
    requires n in cfg.specs && n in cfg.incoming && cfg.specs[n].maxAttempts >= 1 && s.run == Running
    requires VisitNode(cfg, provider, cache, s, n) == Some(v) && Settled(cfg, v.u.entry)
      && CacheCovers(cfg, records, v.u.entry)
    ensures VisitNode(cfg, again, records, s, n) == Some(Quiet(Replayed(cfg, v.u)))
  {
    hide Activate, Accepts, KeyOf, Escalations, React, AttemptsUsed;
  }

  // ------------------------------------------------------------------ replaying a prefix

  ghost predicate SettledPrefix(cfg: Config, log: seq<Entry>, k: nat) {
    k <= |log| && forall i :: 0 <= i < k ==> Settled(cfg, log[i])
  }

  /** Redaction leaves the node's logged output alone. */
  ghost predicate Unredacted(cfg: Config, n: Node) {
    forall v :: cfg.redact(n, v) == v
  }

  lemma {:induction false} LogGrows(c: Chain, i: nat, k: nat)
    requires Reaches(c, k) && i < k
    ensures Reaches(c, i + 1) && i < |At(c, k).state.log| && At(c, k).state.log[i] == VisitAt(c, i).u.entry
    decreases k
  {
    hide VisitNode, Compiled, After, Consistent, Healthy;
    Visiting(c, k - 1);
    RunKeeps(c, k - 1);
    if i < k - 1 { LogGrows(c, i, k - 1); }
  }

  /** `later` starts from the records of `c`'s finished run, stored over any older records. */
  ghost predicate ResumesFrom(c: Chain, later: Chain, older: Records) {
    && c.cfg == later.cfg && KeysApart(c.cfg) && RecordsSound(c.cfg, older) && Reaches(c, |c.cfg.order|)
    && IsCacheOf(later.cache, Persisted(older, At(c, |c.cfg.order|).state.log))
  }

  ghost function FinalLog(c: Chain): seq<Entry>
    requires Reaches(c, |c.cfg.order|)
  {
    At(c, |c.cfg.order|).state.log
  }

  lemma FinalLogNodes(c: Chain)
    requires Reaches(c, |c.cfg.order|)
    ensures |FinalLog(c)| == |c.cfg.order| && forall i :: 0 <= i < |FinalLog(c)| ==>
      FinalLog(c)[i].node == c.cfg.order[i]
  {
    hide Consistent, Healthy, After;
    RunKeeps(c, |c.cfg.order|);
    var s := At(c, |c.cfg.order|).state;
    forall i | 0 <= i < |FinalLog(c)| ensures FinalLog(c)[i].node == c.cfg.order[i] {
      assert EntryFits(s, c.cfg.order[i], s.log[i]);
    }
  }

  lemma RecordedIsCached(c: Chain, later: Chain, older: Records, i: nat)
    requires ResumesFrom(c, later, older) && i < |FinalLog(c)| && Recorded(c.cfg, FinalLog(c)[i])
      && FinalLog(c)[i].key.Some?
    ensures CacheCovers(c.cfg, later.cache, FinalLog(c)[i])
  {
    hide After, KeyOfNode, KeysApart, RecordsSound, LogSound, IsCacheOf;
    var log := FinalLog(c);
    FinalLogNodes(c);
    RecordOf(older, log, i);
    RunLogIsSound(c, |c.cfg.order|);
    PersistKeepsSound(c.cfg, older, log);
    UsableIsCached(c.cfg, later.cache, Persisted(older, log), log[i].node);
  }

  lemma EntryIsCached(c: Chain, later: Chain, older: Records, i: nat)
    requires ResumesFrom(c, later, older) && i < |c.cfg.order| && i < |FinalLog(c)| && Settled(c.cfg, FinalLog(c)[i])
    ensures Reaches(c, i + 1) && FinalLog(c)[i] == VisitAt(c, i).u.entry
    ensures At(c, i).state.run == Running ==> CacheCovers(c.cfg, later.cache, VisitAt(c, i).u.entry)
  {
    hide VisitNode, Settled, After, CacheCovers, KeysApart, RecordsSound, IsCacheOf, Compiled, Recorded, VisitAt;
    LogGrows(c, i, |c.cfg.order|);
    Visiting(c, i);
    var e := VisitAt(c, i).u.entry;
    if At(c, i).state.run == Running {
      SettledVisit(c.cfg, c.provider, At(c, i).cache, At(c, i).state, c.cfg.order[i], VisitAt(c, i));
      if Recorded(c.cfg, e) {
        RecordedIsCached(c, later, older, i);
      } else {
        NothingToCover(c.cfg, later.cache, e);
      }
    }
  }

  lemma NothingToCover(cfg: Config, cache: map<string, Payload>, e: Entry)
    requires !Recorded(cfg, e)
    ensures CacheCovers(cfg, cache, e)
  {
  }

  /** A usable record's key leads to that record's output and to no other's. */
  lemma UsableIsCached(cfg: Config, cache: map<string, Payload>, records: Records, n: Node)
    requires KeysApart(cfg) && RecordsSound(cfg, records) && IsCacheOf(cache, records) && n in records
      && Usable(records[n])
    ensures records[n].key.value in cache && cache[records[n].key.value] == records[n].output.value.fields
  {
    hide KeyOfNode, KeysApart;
    var key := records[n].key.value;
    var m :| Stands(records, m, key, cache[key]);
    StandsForItself(cfg, records, n, m, key, cache[key]);
  }

  lemma StandsForItself(cfg: Config, records: Records, n: Node, m: Node, key: string, out: Payload)
    requires KeysApart(cfg) && RecordsSound(cfg, records) && n in records && records[n].key == Some(key)
      && Stands(records, m, key, out)
    ensures m == n
  {
    assert KeyOfNode(cfg, n, key) && KeyOfNode(cfg, m, key);
  }

  /** Records have one cache: the order in which they are listed cannot matter. */
  lemma CacheIsDetermined(cfg: Config, records: Records, a: map<string, Payload>, b: map<string, Payload>)
    requires KeysApart(cfg) && RecordsSound(cfg, records) && IsCacheOf(a, records) && IsCacheOf(b, records)
    ensures a == b
  {
    hide KeysApart, RecordsSound;
    SameOutputs(cfg, records, a, b);
    SameOutputs(cfg, records, b, a);
  }

  lemma SameOutputs(cfg: Config, records: Records, a: map<string, Payload>, b: map<string, Payload>)
    requires KeysApart(cfg) && RecordsSound(cfg, records) && IsCacheOf(a, records) && IsCacheOf(b, records)
    ensures forall k :: k in a ==> k in b && b[k] == a[k]
  {
    hide KeysApart, RecordsSound;
    forall k | k in a ensures k in b && b[k] == a[k] {
      var n :| Stands(records, n, k, a[k]);
      UsableIsCached(cfg, b, records, n);
    }
  }

  /** Both runs reach node k in the same state, the later one without a provider call. */
  ghost predicate Aligned(c: Chain, later: Chain, k: nat) {
    && Reaches(c, k) && Reaches(later, k) && c.cfg == later.cfg
    && At(later, k).state == At(c, k).state && At(c, k).state.run == Running
    && At(later, k).calls == [] && At(later, k).cache == later.cache
  }

  /** The state a settled, unredacted prefix leaves is reproduced exactly, and no provider is called. */
  lemma {:induction false} PrefixIsReproduced(c: Chain, later: Chain, older: Records, k: nat)
    requires ResumesFrom(c, later, older) && SettledPrefix(c.cfg, FinalLog(c), k) && k <= |c.cfg.order|
    requires forall i :: 0 <= i < k ==> Unredacted(c.cfg, c.cfg.order[i])
    ensures Aligned(c, later, k)
  {
    hide VisitNode, After, ResumesFrom, Settled, Unredacted, CacheCovers, Recorded, Aligned;
    if k == 0 {
      FirstStates(c, later, older);
    } else {
      PrefixIsReproduced(c, later, older, k - 1);
      StepIsReproduced(c, later, older, k - 1);
    }
  }

  lemma FirstStates(c: Chain, later: Chain, older: Records)
    requires ResumesFrom(c, later, older)
    ensures Aligned(c, later, 0)
  {
  }

  lemma SameEffect(w: World, t: World, n: Node, v: Visit)
    requires w.state == t.state
    ensures var r := Absorb(t, n, Quiet(v.u));
      r.state == Absorb(w, n, v).state && r.calls == t.calls && r.cache == t.cache
    ensures Absorb(w, n, v).state.run == v.u.run
  {
  }

  lemma UnredactedReplay(cfg: Config, n: Node, u: Update)
    requires Unredacted(cfg, n) && u.entry.node == n
    requires Recorded(cfg, u.entry) ==> u.output.Some? && u.entry.output == Some(cfg.redact(n, u.output.value))
    ensures Replayed(cfg, u) == u
  {
  }

  lemma StepIsReproduced(c: Chain, later: Chain, older: Records, i: nat)
    requires ResumesFrom(c, later, older) && i < |c.cfg.order| && i < |FinalLog(c)| && Settled(c.cfg, FinalLog(c)[i])
    requires Aligned(c, later, i) && Unredacted(c.cfg, c.cfg.order[i])
    ensures Aligned(c, later, i + 1)
  {
    hide VisitNode, Settled, ResumesFrom, Compiled, After, VisitAt, At, Replayed, Absorb, Recorded, Unredacted, Quiet,
      FinalLog;
    ReplayAt(c, later, older, i);
    UnredactedReplay(c.cfg, c.cfg.order[i], VisitAt(c, i).u);
    Visiting(c, i);
    Visiting(later, i);
    SameEffect(At(c, i), At(later, i), c.cfg.order[i], VisitAt(c, i));
  }

  /** The later run's visit of a settled node, reached in the same state. */
  lemma ReplayAt(c: Chain, later: Chain, older: Records, i: nat)
    requires ResumesFrom(c, later, older) && i < |c.cfg.order| && i < |FinalLog(c)| && Settled(c.cfg, FinalLog(c)[i])
    requires Aligned(c, later, i)
    ensures Reaches(c, i + 1) && Reaches(later, i + 1) && FinalLog(c)[i] == VisitAt(c, i).u.entry
    ensures VisitAt(later, i) == Quiet(Replayed(c.cfg, VisitAt(c, i).u))
    ensures var v := VisitAt(c, i);
      v.u.entry.node == c.cfg.order[i] && v.u.run == Running && (v.u.output.Some? <==> v.u.status == Completed)
    ensures var v := VisitAt(c, i); Recorded(c.cfg, v.u.entry) ==>
      v.u.output.Some? && v.u.entry.output == Some(c.cfg.redact(c.cfg.order[i], v.u.output.value))
  {
    hide VisitNode, Settled, CacheCovers, KeysApart, RecordsSound, IsCacheOf, Persisted, Recorded, Replayed;
    EntryIsCached(c, later, older, i);
    Visiting(c, i);
    var n := c.cfg.order[i];
    VisitIsReplayed(c.cfg, c.provider, At(c, i).cache, later.provider, later.cache, At(c, i).state, n, VisitAt(c, i));
    SettledVisit(c.cfg, c.provider, At(c, i).cache, At(c, i).state, n, VisitAt(c, i));
  }

  // ------------------------------------------------------------------ whole executions

  ghost function Final(c: Chain): World
    requires Reaches(c, |c.cfg.order|)
  {
    At(c, |c.cfg.order|)
  }

  /** Two finished runs agree on node i: its log entry, its status and its output, if any. */
  ghost predicate SameResult(a: Chain, b: Chain, i: nat) {
    && Reaches(a, |a.cfg.order|) && Reaches(b, |b.cfg.order|)
    && var x, y := Final(a).state, Final(b).state;
    && a.cfg == b.cfg && i < |a.cfg.order| && i < |x.log| && i < |y.log| && x.log[i] == y.log[i]
    && var n := a.cfg.order[i];
       && n in x.statuses && n in y.statuses && x.statuses[n] == y.statuses[n]
       && (n in x.outputs <==> n in y.outputs) && (n in x.outputs ==> x.outputs[n] == y.outputs[n])
  }

  /** The state shows an update of node n, logged at position i. */
  ghost predicate Shows(s: RunState, n: Node, i: nat, u: Update) {
    && i < |s.log| && s.log[i] == u.entry && n in s.statuses && s.statuses[n] == u.status
    && (n in s.outputs <==> u.output.Some?) && (n in s.outputs ==> s.outputs[n] == u.output.value)
  }

  lemma ApplyShows(s: RunState, n: Node, u: Update)
    requires n !in s.outputs
    ensures Shows(Apply(s, n, u), n, |s.log|, u)
  {
  }

  lemma ApplyStillShows(s: RunState, n: Node, i: nat, u: Update, m: Node, later: Update)
    requires Shows(s, n, i, u) && m != n
    ensures Shows(Apply(s, m, later), n, i, u)
  {
  }

  /** After k nodes the state shows what visiting node i returned. */
  ghost predicate ShownIn(c: Chain, i: nat, k: nat) {
    Reaches(c, k) && Reaches(c, i + 1) && i < |c.cfg.order| && Shows(At(c, k).state, c.cfg.order[i], i, VisitAt(c, i).u)
  }

  lemma ShownAtVisit(c: Chain, i: nat)
    requires Reaches(c, i + 1)
    ensures ShownIn(c, i, i + 1)
  {
    hide VisitNode, After, Compiled, VisitAt, Shows, Apply, At;
    Visiting(c, i);
    NoOutputYet(c, i);
    LogLength(c, i);
    ApplyShows(At(c, i).state, c.cfg.order[i], VisitAt(c, i).u);
  }

  lemma NodesDiffer(c: Chain, i: nat, k: nat)
    requires Reaches(c, k + 1) && i < k
    ensures k < |c.cfg.order| && c.cfg.order[i] != c.cfg.order[k]
  {
    hide After, SourcesIn;
  }

  lemma ShownLater(c: Chain, i: nat, k: nat)
    requires Reaches(c, k + 1) && i < k && ShownIn(c, i, k)
    ensures ShownIn(c, i, k + 1)
  {
    hide VisitNode, After, Compiled, VisitAt, Shows, Apply, At, Reaches;
    NodesDiffer(c, i, k);
    Visiting(c, k);
    ApplyStillShows(At(c, k).state, c.cfg.order[i], i, VisitAt(c, i).u, c.cfg.order[k], VisitAt(c, k).u);
  }

  /** A node's visit decides its final status, log entry and output. */
  lemma {:induction false} VisitIsFinal(c: Chain, i: nat, k: nat)
    requires Reaches(c, k) && i < k
    ensures ShownIn(c, i, k)
    decreases k
  {
    hide VisitNode, After, Compiled, VisitAt, Shows, At, ShownIn;
    if i < k - 1 {
      ReachedBefore(c, k - 1, k);
      VisitIsFinal(c, i, k - 1);
      ShownLater(c, i, k - 1);
    } else {
      ShownAtVisit(c, i);
    }
  }

  lemma LogLength(c: Chain, i: nat)
    requires Reaches(c, i)
    ensures |At(c, i).state.log| == i
  {
    hide After, Consistent, Healthy;
    RunKeeps(c, i);
  }

  lemma NoOutputYet(c: Chain, i: nat)
    requires Reaches(c, i) && i < |c.cfg.order|
    ensures c.cfg.order[i] !in At(c, i).state.outputs
  {
    hide VisitNode, After, Healthy;
    RunKeeps(c, i);
    NewNode(c.cfg, At(c, i).state, i);
  }

  /** Resuming a run repeats every node of its settled, unredacted prefix - same status, same output, same log
      entry - and calls none of their providers, whatever the providers would now answer. */
  lemma SettledNodesAreNotRepeated(c: Chain, later: Chain, older: Records, k: nat, i: nat)
    requires ResumesFrom(c, later, older) && SettledPrefix(c.cfg, FinalLog(c), k) && i < k <= |c.cfg.order|
    requires forall j :: 0 <= j < k ==> Unredacted(c.cfg, c.cfg.order[j])
    requires Reaches(later, |later.cfg.order|)
    ensures SameResult(c, later, i) && c.cfg.order[i] !in Final(later).calls
  {
    hide VisitNode, After, Settled, Unredacted, KeysApart, RecordsSound, IsCacheOf, Compiled, VisitAt, Absorb;
    PrefixIsReproduced(c, later, older, i);
    PrefixIsReproduced(c, later, older, i + 1);
    VisitIsFinal(c, i, i + 1);
    VisitIsFinal(later, i, i + 1);
    VisitIsFinal(c, i, |c.cfg.order|);
    VisitIsFinal(later, i, |c.cfg.order|);
    if c.cfg.order[i] in Final(later).calls {
      CalledInItsVisit(later, i);
    }
  }

  lemma CalledInItsVisit(c: Chain, i: nat)
    requires Reaches(c, |c.cfg.order|) && i < |c.cfg.order| && c.cfg.order[i] in Final(c).calls
    ensures Reaches(c, i + 1) && At(c, i + 1).calls != []
  {
    hide VisitNode, After, SourcesIn;
    var j := CallOrigin(c, |c.cfg.order|, c.cfg.order[i]);
    assert j == i;
    Visiting(c, i);
  }

  /** Without the restriction on redaction, the first redacted node is repeated with the output logged for it:
      the resumed output is the original one exactly if redaction left that output alone. */
  lemma ResumedOutputIsTheLoggedOne(c: Chain, later: Chain, older: Records, i: nat)
    requires ResumesFrom(c, later, older) && i < |c.cfg.order| && SettledPrefix(c.cfg, FinalLog(c), i + 1)
    requires forall j :: 0 <= j < i ==> Unredacted(c.cfg, c.cfg.order[j])
    requires FinalLog(c)[i].status == Completed && FinalLog(c)[i].node != c.cfg.trigger
    ensures Reaches(c, i + 1) && Reaches(later, i + 1)
    ensures var n, was, now := c.cfg.order[i], At(c, i + 1).state.outputs, At(later, i + 1).state.outputs;
      n in was && n in now && now[n] == c.cfg.redact(n, was[n])
  {
    PrefixIsReproduced(c, later, older, i) by {
      hide VisitNode, After, Settled, Unredacted, ResumesFrom;
      assert SettledPrefix(c.cfg, FinalLog(c), i);
    }
    hide VisitNode, After, Unredacted, KeysApart, RecordsSound, IsCacheOf, Compiled, VisitAt, Absorb;
    ReplayAt(c, later, older, i);
    VisitIsFinal(c, i, i + 1);
    VisitIsFinal(later, i, i + 1);
  }

  // ------------------------------------------------------------------ completed without an output

  /** What a visit logged as completed (other than the trigger's) went through. */
  lemma CompletedVisit(cfg: Config, provider: Provider, cache: map<string, Payload>, s: RunState, n: Node, v: Visit)
    requires n in cfg.specs && n in cfg.incoming && cfg.specs[n].maxAttempts >= 1 && s.run == Running
      && n != cfg.trigger
    requires VisitNode(cfg, provider, cache, s, n) == Some(v) && v.u.entry.status == Completed
    ensures var a := Activate(cfg, s, n);
      a.Active? && Accepts(cfg.specs[n].inFields, a.input) && n !in cfg.blocked
        && v.u.entry.key == Some(KeyOf(cfg, n, a.input))
    ensures v.u.entry.node == n && v.u.entry.output.Some?
  {
    hide Activate, Accepts, KeyOf, Escalations, React, AttemptsUsed;
  }

  /** Without its result in the cache such a node is called when it is visited again. */
  lemma UncachedIsCalled(cfg: Config, provider: Provider, cache: map<string, Payload>, again: Provider,
                         records: map<string, Payload>, s: RunState, n: Node, v: Visit)
    requires n in cfg.specs && n in cfg.incoming && cfg.specs[n].maxAttempts >= 1 && s.run == Running
      && n != cfg.trigger
    requires VisitNode(cfg, provider, cache, s, n) == Some(v) && v.u.entry.status == Completed
    requires v.u.entry.key.Some? && v.u.entry.key.value !in records
    ensures VisitNode(cfg, again, records, s, n).Some? && VisitNode(cfg, again, records, s, n).value.attempts > 0
  {
    CompletedVisit(cfg, provider, cache, s, n, v);
    CallAttempts(cfg, again, s, n, Activate(cfg, s, n).input, Activate(cfg, s, n).fired);
    hide Activate, Accepts, KeyOf, Call;
  }

  lemma CallAttempts(cfg: Config, provider: Provider, s: RunState, n: Node, input: Payload, fired: seq<ChainEdge>)
    requires n in cfg.specs && cfg.specs[n].maxAttempts >= 1
    ensures Call(cfg, provider, s, n, input, fired).attempts > 0
  {
    hide Accepts, KeyOf, Escalations, React;
  }

  /** A record without a dictionary for an output leaves nothing in the cache. */
  lemma UnusableIsNotCached(c: Chain, later: Chain, older: Records, i: nat)
    requires ResumesFrom(c, later, older) && i < |FinalLog(c)| && FinalLog(c)[i].status == Completed
    requires FinalLog(c)[i].key.Some? && FinalLog(c)[i].output.Some? && !FinalLog(c)[i].output.value.Obj?
    ensures FinalLog(c)[i].key.value !in later.cache
  {
    hide After, KeyOfNode, LogSound, RecordsSound, KeysApart;
    var log := FinalLog(c);
    FinalLogNodes(c);
    RecordOf(older, log, i);
    RunLogIsSound(c, |c.cfg.order|);
    PersistKeepsSound(c.cfg, older, log);
    OnlyUsableKeys(c.cfg, later.cache, Persisted(older, log), log[i].node);
  }

  lemma OnlyUsableKeys(cfg: Config, cache: map<string, Payload>, records: Records, n: Node)
    requires KeysApart(cfg) && RecordsSound(cfg, records) && IsCacheOf(cache, records)
    requires n in records && !Usable(records[n]) && records[n].key.Some?
    ensures records[n].key.value !in cache
  {
    hide KeyOfNode, KeysApart, Usable;
    var key := records[n].key.value;
    if key in cache {
      var m :| Stands(records, m, key, cache[key]);
      StandsForItself(cfg, records, n, m, key, cache[key]);
    }
  }

  /** The visit of node i called the provider. */
  ghost predicate Calls(c: Chain, i: nat) {
    Reaches(c, i + 1) && VisitAt(c, i).attempts > 0
  }

  /** Up to node i the run called no provider but node i's own. */
  ghost predicate CallsOnly(c: Chain, i: nat) {
    Reaches(c, i + 1) && At(c, i + 1).calls == Repeat(c.cfg.order[i], VisitAt(c, i).attempts)
  }

  predicate HasDictionary(e: Entry) {
    e.output.Some? && e.output.value.Obj?
  }

  /** Node i of the finished run is logged as completed, it is not the trigger, and before it everything is settled
      and unredacted. */
  ghost predicate FirstInDoubt(c: Chain, i: nat) {
    && Reaches(c, |c.cfg.order|) && i < |c.cfg.order| && i < |FinalLog(c)| && SettledPrefix(c.cfg, FinalLog(c), i)
    && FinalLog(c)[i].status == Completed && c.cfg.order[i] != c.cfg.trigger
    && forall j :: 0 <= j < i ==> Unredacted(c.cfg, c.cfg.order[j])
  }

  lemma DoubtfulVisit(c: Chain, i: nat)
    requires FirstInDoubt(c, i)
    ensures Reaches(c, i + 1) && i < |FinalLog(c)| && FinalLog(c)[i] == VisitAt(c, i).u.entry
      && FinalLog(c)[i].status == Completed
    ensures i < |c.cfg.order| && c.cfg.order[i] != c.cfg.trigger
  {
    hide After, VisitAt, At, SettledPrefix, Unredacted;
    LogGrows(c, i, |c.cfg.order|);
  }

  lemma DoubtfulPrefix(c: Chain, later: Chain, older: Records, i: nat)
    requires ResumesFrom(c, later, older) && FirstInDoubt(c, i)
    ensures Aligned(c, later, i)
  {
    hide ResumesFrom, After, At, SettledPrefix, Unredacted, Aligned;
    PrefixIsReproduced(c, later, older, i);
  }

  /** After a settled prefix, the next node logged as completed is called again if and only if what was logged for
      it is not a dictionary: a provider that returns no output completes its node, but is called again by
      every re-execution. */
  lemma CalledAgainIff(c: Chain, later: Chain, older: Records, i: nat)
    requires ResumesFrom(c, later, older) && FirstInDoubt(c, i)
    ensures CallsOnly(later, i) && (Calls(later, i) <==> !HasDictionary(FinalLog(c)[i]))
  {
    hide ResumesFrom, VisitNode, After, FirstInDoubt, Activate, VisitAt, Absorb, Compiled, Usable, At, Reaches;
    DoubtfulPrefix(c, later, older, i);
    DoubtfulVisit(c, i);
    Visiting(c, i);
    var v, n := VisitAt(c, i), c.cfg.order[i];
    CompletedVisit(c.cfg, c.provider, At(c, i).cache, At(c, i).state, n, v);
    if HasDictionary(v.u.entry) {
      ReplayAt(c, later, older, i);
    } else {
      UnusableIsNotCached(c, later, older, i);
      UncachedIsCalled(c.cfg, c.provider, At(c, i).cache, later.provider, later.cache, At(c, i).state, n, v);
      ReachesNext(later, i);
    }
    Visiting(later, i);
    AbsorbedCalls(At(later, i), n, VisitAt(later, i));
  }

  lemma AbsorbedCalls(w: World, n: Node, v: Visit)
    requires w.calls == []
    ensures Absorb(w, n, v).calls == Repeat(n, v.attempts)
  {
  }

  lemma {:induction false} CallsStay(c: Chain, i: nat, k: nat, n: Node)
    requires Reaches(c, k) && i <= k && Reaches(c, i) && n in At(c, i).calls
    ensures n in At(c, k).calls
    decreases k
  {
    hide VisitNode, Compiled, After;
    if i == k {
    } else {
      Visiting(c, k - 1);
      CallsStay(c, i, k - 1, n);
    }
  }

  lemma FirstUnsettled(cfg: Config, log: seq<Entry>, k: nat) returns (i: nat)
    requires k <= |log| && !SettledPrefix(cfg, log, k)
    ensures i < k && SettledPrefix(cfg, log, i) && !Settled(cfg, log[i])
  {
    hide Settled;
    i := 0;
    while Settled(cfg, log[i])
      invariant i < k && SettledPrefix(cfg, log, i) && exists j :: i <= j < k && !Settled(cfg, log[j])
      decreases k - i
    {
      i := i + 1;
    }
  }

  /** The first k nodes were all completed or skipped. */
  ghost predicate Done(log: seq<Entry>, k: nat) {
    k <= |log| && forall i :: 0 <= i < k ==> log[i].status == Completed || log[i].status == Skipped
  }

  /** Each of the first k nodes that completed, the trigger aside, logged a dictionary. */
  ghost predicate Dictionaries(cfg: Config, log: seq<Entry>, k: nat) {
    forall i :: 0 <= i < k <= |log| && log[i].status == Completed && log[i].node != cfg.trigger ==>
      HasDictionary(log[i])
  }

  lemma DoneIsSettledIff(cfg: Config, log: seq<Entry>, k: nat)
    requires Done(log, k)
    ensures SettledPrefix(cfg, log, k) <==> Dictionaries(cfg, log, k)
  {
  }

  /** The first node that completed without a dictionary is called again. */
  lemma UnsettledIsCalled(c: Chain, later: Chain, older: Records, k: nat) returns (i: nat)
    requires ResumesFrom(c, later, older) && k <= |c.cfg.order| && Done(FinalLog(c), k)
      && !SettledPrefix(c.cfg, FinalLog(c), k)
    requires forall j :: 0 <= j < k ==> Unredacted(c.cfg, c.cfg.order[j])
    ensures i < k && WasCalled(later, i)
  {
    hide ResumesFrom, After, Unredacted, At, VisitAt, Reaches, SettledPrefix, Calls, CallsOnly, WasCalled;
    NodesOfLog(c, later, older);
    i := FirstUnsettled(c.cfg, FinalLog(c), k);
    CalledAgainIff(c, later, older, i);
    CallsAreMade(later, i);
  }

  ghost predicate WasCalled(c: Chain, i: nat) {
    Reaches(c, i + 1) && c.cfg.order[i] in At(c, i + 1).calls
  }

  lemma CallsAreMade(c: Chain, i: nat)
    requires Calls(c, i) && CallsOnly(c, i)
    ensures WasCalled(c, i)
  {
    hide VisitAt, After, At;
    assert Repeat(c.cfg.order[i], VisitAt(c, i).attempts)[0] == c.cfg.order[i];
  }

  /** An unredacted prefix of nodes that completed or were skipped is repeated without a provider call if and only
      if every completed one of them, the trigger aside, logged a dictionary. */
  lemma PrefixIsSilentIff(c: Chain, later: Chain, older: Records, k: nat)
    requires ResumesFrom(c, later, older) && k <= |c.cfg.order| && Done(FinalLog(c), k)
    requires forall i :: 0 <= i < k ==> Unredacted(c.cfg, c.cfg.order[i])
    ensures (Reaches(later, k) && At(later, k).calls == []) <==> Dictionaries(c.cfg, FinalLog(c), k)
  {
    hide ResumesFrom, After, Unredacted, At, VisitAt, Reaches, SettledPrefix, Dictionaries, Done;
    NodesOfLog(c, later, older);
    DoneIsSettledIff(c.cfg, FinalLog(c), k);
    if SettledPrefix(c.cfg, FinalLog(c), k) {
      PrefixIsReproduced(c, later, older, k);
    } else {
      var i := UnsettledIsCalled(c, later, older, k);
      if Reaches(later, k) {
        CallsStay(later, i + 1, k, c.cfg.order[i]);
      }
    }
  }

  lemma NodesOfLog(c: Chain, later: Chain, older: Records)
    requires ResumesFrom(c, later, older)
    ensures c.cfg == later.cfg && Reaches(c, |c.cfg.order|) && |FinalLog(c)| == |c.cfg.order|
    ensures forall i :: 0 <= i < |FinalLog(c)| ==> FinalLog(c)[i].node == c.cfg.order[i]
  {
    hide After;
    FinalLogNodes(c);
  }

  // ------------------------------------------------------------------ any number of executions

  /** One execution: it starts from the stored records and stores its own over them. */
  ghost predicate Execution(cfg: Config, before: Records, c: Chain, after: Records) {
    c.cfg == cfg && Reaches(c, |cfg.order|) && IsCacheOf(c.cache, before) && after == Persisted(before, FinalLog(c))
  }

  /** Executions under one run id, each with whatever providers it meets. */
  ghost predicate Executions(cfg: Config, runs: seq<Chain>, records: seq<Records>) {
    && |records| == |runs| + 1 && records[0] == map[]
    && forall i :: 0 <= i < |runs| ==> Execution(cfg, records[i], runs[i], records[i + 1])
  }

  ghost predicate History(cfg: Config, runs: seq<Chain>, records: seq<Records>) {
    KeysApart(cfg) && Executions(cfg, runs, records)
  }

  /** One more execution, from the records stored last. */
  lemma OneMoreExecution(cfg: Config, runs: seq<Chain>, records: seq<Records>, c: Chain, after: Records)
    requires Executions(cfg, runs, records) && Execution(cfg, records[|runs|], c, after)
    ensures Executions(cfg, runs + [c], records + [after])
    ensures |records| == |runs| + 1
  {
    hide Execution;
  }

  lemma {:induction false} HistoryRecordsSound(cfg: Config, runs: seq<Chain>, records: seq<Records>, i: nat)
    requires History(cfg, runs, records) && i <= |runs|
    ensures RecordsSound(cfg, records[i])
  {
    hide Reaches, IsCacheOf, KeyOfNode, KeysApart, At;
    if i == 0 {
    } else {
      HistoryRecordsSound(cfg, runs, records, i - 1);
      assert Execution(cfg, records[i - 1], runs[i - 1], records[i]);
      RunLogIsSound(runs[i - 1], |cfg.order|);
      PersistKeepsSound(cfg, records[i - 1], FinalLog(runs[i - 1]));
    }
  }

  lemma NextResumes(cfg: Config, runs: seq<Chain>, records: seq<Records>, i: nat)
    requires History(cfg, runs, records) && i + 1 < |runs|
    ensures ResumesFrom(runs[i], runs[i + 1], records[i]) && runs[i].cfg == cfg && Reaches(runs[i + 1], |cfg.order|)
  {
    hide Reaches, IsCacheOf, KeysApart, At, RecordsSound;
    HistoryRecordsSound(cfg, runs, records, i);
    assert Execution(cfg, records[i], runs[i], records[i + 1]);
    assert Execution(cfg, records[i + 1], runs[i + 1], records[i + 2]);
  }

  lemma IsRun(cfg: Config, runs: seq<Chain>, records: seq<Records>, i: nat)
    requires History(cfg, runs, records) && i < |runs|
    ensures runs[i].cfg == cfg && Reaches(runs[i], |cfg.order|)
  {
    assert Execution(cfg, records[i], runs[i], records[i + 1]);
  }

  /** `later` gives the first k nodes the results `c` gave them, without calling their providers. */
  ghost predicate Repeats(c: Chain, later: Chain, k: nat) {
    k <= |later.cfg.order| && Reaches(later, |later.cfg.order|)
    && forall m :: 0 <= m < k ==> SameResult(c, later, m) && later.cfg.order[m] !in Final(later).calls
  }

  ghost predicate Unmasked(cfg: Config, k: nat) {
    k <= |cfg.order| && forall n :: n in cfg.order[..k] ==> Unredacted(cfg, n)
  }

  /** The run is finished and its first k nodes settled. */
  ghost predicate SettledAt(cfg: Config, c: Chain, k: nat) {
    c.cfg == cfg && Reaches(c, |cfg.order|) && SettledPrefix(cfg, FinalLog(c), k)
  }

  lemma SettledStep(cfg: Config, c: Chain, later: Chain, older: Records, k: nat)
    requires ResumesFrom(c, later, older) && SettledAt(cfg, c, k) && Unmasked(cfg, k)
      && Reaches(later, |later.cfg.order|)
    ensures Repeats(c, later, k) && SettledAt(cfg, later, k)
  {
    assert c.cfg == later.cfg;
    forall j | 0 <= j < k ensures Unredacted(cfg, cfg.order[j]) { assert cfg.order[j] == cfg.order[..k][j]; }
    hide Settled, Unredacted, ResumesFrom, SameResult, Reaches, Final, FinalLog;
    forall m | 0 <= m < k ensures SameResult(c, later, m) && cfg.order[m] !in Final(later).calls {
      SettledNodesAreNotRepeated(c, later, older, k, m);
    }
    SettledCarriesOver(cfg, c, later, k);
  }

  lemma SettledNext(cfg: Config, runs: seq<Chain>, records: seq<Records>, i: nat, k: nat)
    requires History(cfg, runs, records) && i + 1 < |runs| && Unmasked(cfg, k) && SettledAt(cfg, runs[i], k)
    ensures SettledAt(cfg, runs[i + 1], k) && Repeats(runs[i], runs[i + 1], k)
  {
    assert |records| == |runs| + 1;
    hide SettledAt, Repeats, Unmasked, Reaches, ResumesFrom, History;
    NextResumes(cfg, runs, records, i);
    IsRun(cfg, runs, records, i + 1);
    SettledStep(cfg, runs[i], runs[i + 1], records[i], k);
  }

  lemma RepeatsTransitive(a: Chain, b: Chain, c: Chain, k: nat)
    requires Repeats(a, b, k) && Repeats(b, c, k)
    ensures Repeats(a, c, k)
  {
    hide Reaches, At;
    forall m | 0 <= m < k ensures SameResult(a, c, m) { assert SameResult(a, b, m) && SameResult(b, c, m); }
  }

  /** Once a prefix of the chain has settled, it stays settled: every later execution under the run id gives its
      nodes the same statuses, outputs and log entries and never calls their providers again. */
  lemma {:induction false} SettledForGood(cfg: Config, runs: seq<Chain>, records: seq<Records>, i: nat, j: nat, k: nat)
    requires History(cfg, runs, records) && i < j < |runs| && Unmasked(cfg, k)
    requires SettledAt(cfg, runs[i], k)
    ensures SettledAt(cfg, runs[j], k) && Repeats(runs[i], runs[j], k)
    decreases j
  {
    hide *;
    if i < j - 1 {
      SettledForGood(cfg, runs, records, i, j - 1, k);
      SettledNext(cfg, runs, records, j - 1, k);
      RepeatsTransitive(runs[i], runs[j - 1], runs[j], k);
    } else {
      SettledNext(cfg, runs, records, i, k);
    }
  }

  lemma SettledCarriesOver(cfg: Config, a: Chain, b: Chain, k: nat)
    requires a.cfg == cfg && b.cfg == cfg && Reaches(a, |cfg.order|) && Reaches(b, |cfg.order|) && k <= |cfg.order|
    requires SettledPrefix(cfg, FinalLog(a), k) && forall m :: 0 <= m < k ==> SameResult(a, b, m)
    ensures SettledPrefix(cfg, FinalLog(b), k)
  {
    hide Reaches, At, Settled;
    if k > 0 { assert SameResult(a, b, k - 1); }
    forall m | 0 <= m < k ensures Settled(cfg, FinalLog(b)[m]) { assert SameResult(a, b, m); }
  }

  ghost predicate Silent(cfg: Config, c: Chain, k: nat) {
    c.cfg == cfg && Reaches(c, |cfg.order|) && k <= |cfg.order| && forall m :: 0 <= m < k ==>
      cfg.order[m] !in Final(c).calls
  }

  /** The finished run completed or skipped its first k nodes. */
  ghost predicate DoneAt(cfg: Config, c: Chain, k: nat) {
    c.cfg == cfg && Reaches(c, |cfg.order|) && Done(FinalLog(c), k)
  }

  ghost predicate DictionariesAt(cfg: Config, c: Chain, k: nat) {
    c.cfg == cfg && Reaches(c, |cfg.order|) && Dictionaries(cfg, FinalLog(c), k)
  }

  lemma RepeatsIsSilent(cfg: Config, c: Chain, later: Chain, k: nat)
    requires Repeats(c, later, k) && later.cfg == cfg
    ensures Silent(cfg, later, k)
  {
    hide SameResult, Reaches, At;
  }

  lemma CalledIsNotSilent(cfg: Config, c: Chain, k: nat, i: nat)
    requires c.cfg == cfg && Reaches(c, |cfg.order|) && i < k <= |cfg.order| && WasCalled(c, i)
    ensures !Silent(cfg, c, k)
  {
    hide After, At, Compiled;
    CallsStay(c, i + 1, |cfg.order|, cfg.order[i]);
  }

  lemma UnmaskedNodes(cfg: Config, k: nat)
    requires Unmasked(cfg, k)
    ensures k <= |cfg.order| && forall j :: 0 <= j < k ==> Unredacted(cfg, cfg.order[j])
  {
    hide Unredacted;
    forall j | 0 <= j < k ensures Unredacted(cfg, cfg.order[j]) { assert cfg.order[j] == cfg.order[..k][j]; }
  }

  lemma UnsettledIsNotSilent(cfg: Config, c: Chain, later: Chain, older: Records, k: nat)
    requires ResumesFrom(c, later, older) && Unmasked(cfg, k) && DoneAt(cfg, c, k)
      && !SettledPrefix(cfg, FinalLog(c), k)
    requires later.cfg == cfg && Reaches(later, |cfg.order|)
    ensures !Silent(cfg, later, k)
  {
    hide Unredacted, Unmasked, Reaches, ResumesFrom, At, SettledPrefix, Done, WasCalled;
    UnmaskedNodes(cfg, k);
    var q := UnsettledIsCalled(c, later, older, k);
    CalledIsNotSilent(cfg, later, k, q);
  }

  lemma DoneAtIsSettledIff(cfg: Config, c: Chain, k: nat)
    requires DoneAt(cfg, c, k)
    ensures SettledAt(cfg, c, k) <==> DictionariesAt(cfg, c, k)
    ensures Reaches(c, |c.cfg.order|) && (SettledPrefix(cfg, FinalLog(c), k) <==> SettledAt(cfg, c, k))
  {
    hide Reaches, At;
    DoneIsSettledIff(cfg, FinalLog(c), k);
  }

  /** Nodes that completed or were skipped are never called again by any later execution under the run id if and
      only if every completed one of them, the trigger aside, logged a dictionary. */
  lemma SilentForGoodIff(cfg: Config, runs: seq<Chain>, records: seq<Records>, i: nat, k: nat)
    requires History(cfg, runs, records) && i + 1 < |runs| && Unmasked(cfg, k) && DoneAt(cfg, runs[i], k)
    ensures (forall j :: i < j < |runs| ==> Silent(cfg, runs[j], k)) <==> DictionariesAt(cfg, runs[i], k)
  {
    assert |records| == |runs| + 1;
    DoneAtIsSettledIff(cfg, runs[i], k);
    hide *;
    if DictionariesAt(cfg, runs[i], k) {
      forall j | i < j < |runs| ensures Silent(cfg, runs[j], k) {
        SettledForGood(cfg, runs, records, i, j, k);
        IsRun(cfg, runs, records, j);
        RepeatsIsSilent(cfg, runs[i], runs[j], k);
      }
    } else {
      NextResumes(cfg, runs, records, i);
      IsRun(cfg, runs, records, i + 1);
      UnsettledIsNotSilent(cfg, runs[i], runs[i + 1], records[i], k);
    }
  }
}
