/** What is stored of a node after any log, and which stored records a later execution reuses. */
module Reuse {
  import opened Wrappers
  import opened Json
  import opened LinearSpec
  import opened LinearRuns
  import opened LinearMeaning
  import opened Resume

  // ------------------------------------------------------------------ records

  ghost predicate Mentions(log: seq<Entry>, n: Node) {
    exists i :: 0 <= i < |log| && log[i].node == n
  }

  /** Entry i is the node's last. */
  ghost predicate IsLast(log: seq<Entry>, n: Node, i: nat) {
    i < |log| && log[i].node == n && forall j :: i < j < |log| ==> log[j].node != n
  }

  /** Entry i is the node's last with a key. */
  ghost predicate HasLastKey(log: seq<Entry>, n: Node, i: nat) {
    i < |log| && log[i].node == n && log[i].key.Some? && forall j :: i < j < |log| && log[j].node == n ==>
      log[j].key.None?
  }

  /** Entry i is the node's last with an output. */
  ghost predicate HasLastOutput(log: seq<Entry>, n: Node, i: nat) {
    i < |log| && log[i].node == n && log[i].output.Some?
    && forall j :: i < j < |log| && log[j].node == n ==> log[j].output.None?
  }

  ghost predicate NoKeyFor(log: seq<Entry>, n: Node) {
    forall i :: 0 <= i < |log| && log[i].node == n ==> log[i].key.None?
  }

  ghost predicate NoOutputFor(log: seq<Entry>, n: Node) {
    forall i :: 0 <= i < |log| && log[i].node == n ==> log[i].output.None?
  }

  /** The node's record: the status it was last logged with, and the last key and output it ever had. */
  ghost predicate RecordIs(records: Records, log: seq<Entry>, n: Node, r: Entry) {
    && (forall i: nat :: IsLast(log, n, i) ==> r.status == log[i].status && r.node == n)
    && (forall i: nat :: HasLastKey(log, n, i) ==> r.key == log[i].key)
    && (forall i: nat :: HasLastOutput(log, n, i) ==> r.output == log[i].output)
    && (!Mentions(log, n) && n in records ==> r == records[n])
    && (NoKeyFor(log, n) ==> r.key == if n in records then records[n].key else None)
    && (NoOutputFor(log, n) ==> r.output == if n in records then records[n].output else None)
  }

  /** Storing a log leaves a record of every node logged or recorded before, and each is the node's. */
  lemma {:induction false} RecordsMean(records: Records, log: seq<Entry>, n: Node)
    ensures n in Persisted(records, log) <==> n in records || Mentions(log, n)
    ensures n in Persisted(records, log) ==> RecordIs(records, log, n, Persisted(records, log)[n])
  {
    if log == [] {
    } else {
      var k := |log| - 1;
      RecordsMean(records, log[..k], n);
      assert log == log[..k] + [log[k]];
      OneMoreMention(log[..k], log[k], n);
      if n in Persisted(records, log[..k]) && log[k].node == n {
        KnownNode(records, log[..k], log[k], Persisted(records, log[..k])[n]);
      } else if log[k].node == n {
        NewNodeLogged(records, log[..k], log[k]);
      } else if n in Persisted(records, log[..k]) {
        OtherNode(records, log[..k], log[k], n, Persisted(records, log[..k])[n]);
      }
    }
  }

  lemma OneMoreMention(log: seq<Entry>, e: Entry, n: Node)
    ensures Mentions(log + [e], n) <==> Mentions(log, n) || e.node == n
  {
    assert (log + [e])[|log|] == e;
    if Mentions(log, n) {
      var i :| 0 <= i < |log| && log[i].node == n;
      assert (log + [e])[i].node == n;
    }
  }

  lemma OtherNode(records: Records, log: seq<Entry>, e: Entry, n: Node, r: Entry)
    requires e.node != n && RecordIs(records, log, n, r)
    ensures RecordIs(records, log + [e], n, r)
  {
    OneMoreMention(log, e, n);
    LastsStay(log, e, n);
    OthersLack(log, e, n);
    hide IsLast, HasLastKey, HasLastOutput, NoKeyFor, NoOutputFor, Mentions;
  }

  lemma LastsStay(log: seq<Entry>, e: Entry, n: Node)
    requires e.node != n
    ensures forall i: nat :: IsLast(log + [e], n, i) ==> IsLast(log, n, i) && (log + [e])[i] == log[i]
    ensures forall i: nat :: HasLastKey(log + [e], n, i) ==> HasLastKey(log, n, i) && (log + [e])[i] == log[i]
    ensures forall i: nat :: HasLastOutput(log + [e], n, i) ==> HasLastOutput(log, n, i) && (log + [e])[i] == log[i]
  {
    assert forall i :: 0 <= i < |log| ==> (log + [e])[i] == log[i];
  }

  lemma OthersLack(log: seq<Entry>, e: Entry, n: Node)
    ensures NoKeyFor(log + [e], n) ==> NoKeyFor(log, n)
    ensures NoOutputFor(log + [e], n) ==> NoOutputFor(log, n)
  {
    assert forall i :: 0 <= i < |log| ==> (log + [e])[i] == log[i];
  }

  lemma NewNodeLogged(records: Records, log: seq<Entry>, e: Entry)
    requires e.node !in records && !Mentions(log, e.node)
    ensures RecordIs(records, log + [e], e.node, e)
  {
    var all := log + [e];
    assert forall i :: 0 <= i < |log| ==> all[i] == log[i] && log[i].node != e.node;
    assert all[|log|] == e;
  }

  /** Over a known record: the entry's fields where it has them. */
  lemma KnownNode(records: Records, log: seq<Entry>, e: Entry, r: Entry)
    requires RecordIs(records, log, e.node, r)
    ensures RecordIs(records, log + [e], e.node, Entry(e.node, e.status, if e.key.Some? then e.key else r.key,
                                                       if e.output.Some? then e.output else r.output))
  {
    var all, n := log + [e], e.node;
    assert all[|log|] == e;
    assert forall i :: 0 <= i < |log| ==> all[i] == log[i];
    assert forall i: nat :: IsLast(all, n, i) ==> i == |log|;
    assert forall i: nat :: HasLastKey(all, n, i) ==> i == |log| || (e.key.None? && HasLastKey(log, n, i));
    assert forall i: nat :: HasLastOutput(all, n, i) ==> i == |log| || (e.output.None? && HasLastOutput(log, n, i));
    assert NoKeyFor(all, n) ==> NoKeyFor(log, n) && e.key.None?;
    assert NoOutputFor(all, n) ==> NoOutputFor(log, n) && e.output.None?;
    assert Mentions(all, n);
  }

  // ------------------------------------------------------------------ the cache while a run goes on

  /** The entry was there from the start, or its key belongs to one of the first k nodes. */
  ghost predicate HasOrigin(c: Chain, k: nat, key: string, out: Payload) {
    || (key in c.cache && c.cache[key] == out)
    || exists j: nat :: j < k && j < |c.cfg.order| && KeyOfNode(c.cfg, c.cfg.order[j], key)
  }

  lemma {:induction false} CacheHasOrigin(c: Chain, k: nat, key: string)
    requires Reaches(c, k) && key in At(c, k).cache
    ensures HasOrigin(c, k, key, At(c, k).cache[key])
  {
    hide VisitNode, Compiled, KeyOfNode, VisitAt;
    if k == 0 {
      FirstCache(c);
    } else {
      Visiting(c, k - 1);
      var v, n := VisitAt(c, k - 1), c.cfg.order[k - 1];
      if v.cached.Some? && v.cached.value.0 == key {
        CachedUnderOwnKey(c.cfg, c.provider, At(c, k - 1).cache, At(c, k - 1).state, n, v);
      } else {
        CacheHasOrigin(c, k - 1, key);
      }
    }
  }

  lemma FirstCache(c: Chain)
    requires Reaches(c, 0)
    ensures At(c, 0).cache == c.cache
  {
  }

  lemma CachedUnderOwnKey(cfg: Config, provider: Provider, cache: map<string, Payload>, s: RunState, n: Node, v: Visit)
    requires n in cfg.specs && n in cfg.incoming && cfg.specs[n].maxAttempts >= 1
    requires VisitNode(cfg, provider, cache, s, n) == Some(v) && v.cached.Some?
    ensures KeyOfNode(cfg, n, v.cached.value.0)
  {
    hide Activate, Accepts, KeyOf, KeyOfNode, Escalations, React, AttemptsUsed;
    forall input ensures KeyOfNode(cfg, n, KeyOf(cfg, n, input)) { KeyIsOfNode(cfg, n, input); }
  }

  /** When a node's turn comes, its own keys are cached as they were at the start. */
  lemma OwnKeysAreOld(c: Chain, k: nat, key: string)
    requires Reaches(c, k) && k < |c.cfg.order| && KeysApart(c.cfg) && KeyOfNode(c.cfg, c.cfg.order[k], key)
    ensures key in At(c, k).cache ==> key in c.cache && At(c, k).cache[key] == c.cache[key]
  {
    hide KeyOfNode, KeysApart, After;
    if key in At(c, k).cache {
      CacheHasOrigin(c, k, key);
      forall j: nat | j < k ensures !KeyOfNode(c.cfg, c.cfg.order[j], key) {
        KeyHasOneNode(c.cfg, c.cfg.order[j], c.cfg.order[k], key);
        OrderDiffers(c.cfg, j, k);
      }
    }
  }

  lemma KeyHasOneNode(cfg: Config, m: Node, n: Node, key: string)
    requires KeysApart(cfg)
    ensures KeyOfNode(cfg, m, key) && KeyOfNode(cfg, n, key) ==> m == n
  {
  }

  lemma OrderDiffers(cfg: Config, j: nat, k: nat)
    requires Compiled(cfg) && j < k < |cfg.order|
    ensures cfg.order[j] != cfg.order[k]
  {
  }

  /** Cached results are never dropped. */
  lemma {:induction false} CacheStays(c: Chain, k: nat, key: string)
    requires Reaches(c, k) && key in c.cache
    ensures key in At(c, k).cache
  {
    hide VisitNode, Compiled, VisitAt;
    if k == 0 {
      FirstCache(c);
    } else {
      Visiting(c, k - 1);
      CacheStays(c, k - 1, key);
    }
  }

  // ------------------------------------------------------------------ which records are reused

  /** The record answers for the key: completed, stored under it, with a dictionary for an output. */
  ghost predicate AnswersFor(records: Records, n: Node, key: string, out: Payload) {
    n in records && records[n] == Entry(n, Completed, Some(key), Some(Obj(out)))
  }

  lemma KeyIsUnique(cfg: Config, n: Node, input: Payload, a: string, b: string)
    requires n in cfg.specs && KeyIs(cfg, n, input, a) && KeyIs(cfg, n, input, b)
    ensures a == b
  {
    var p :| IdentityIs(cfg.specs[n], input, p) && a == cfg.digest(n, p);
    var q :| IdentityIs(cfg.specs[n], input, q) && b == cfg.digest(n, q);
    assert p.Keys == q.Keys;
    assert p == q;
  }

  lemma KeyIsNodes(cfg: Config, n: Node, input: Payload, key: string)
    requires n in cfg.specs && KeyIs(cfg, n, input, key)
    ensures KeyOfNode(cfg, n, key)
  {
  }

  /** What is cached under a node's key is what its own record answers. */
  lemma CachedIffAnswered(c: Chain, records: Records, k: nat, key: string)
    requires Reaches(c, k) && k < |c.cfg.order| && KeysApart(c.cfg)
    requires RecordsSound(c.cfg, records) && IsCacheOf(c.cache, records) && KeyOfNode(c.cfg, c.cfg.order[k], key)
    ensures forall out :: (key in At(c, k).cache && At(c, k).cache[key] == out) <==>
      AnswersFor(records, c.cfg.order[k], key, out)
  {
    var n := c.cfg.order[k];
    OwnKeysAreOld(c, k, key);
    if key in c.cache { CacheStays(c, k, key); }
    hide KeyOfNode, KeysApart, After, At, Compiled;
    forall out ensures (key in c.cache && c.cache[key] == out) <==> AnswersFor(records, n, key, out) {
      if key in c.cache {
        var m :| Stands(records, m, key, c.cache[key]);
        RecordHasOneNode(c.cfg, records, m, n, key, c.cache[key]);
      }
      if AnswersFor(records, n, key, out) { UsableIsCached(c.cfg, c.cache, records, n); }
    }
  }

  lemma RecordHasOneNode(cfg: Config, records: Records, m: Node, n: Node, key: string, out: Payload)
    requires KeysApart(cfg) && RecordsSound(cfg, records) && Stands(records, m, key, out) && KeyOfNode(cfg, n, key)
    ensures AnswersFor(records, n, key, out)
  {
    hide KeyOfNode, KeysApart;
    KeyHasOneNode(cfg, m, n, key);
  }

  /** The node is run on an input with this key, which its type takes and policy does not block. */
  ghost predicate RunsUnder(cfg: Config, s: RunState, n: Node, key: string)
    requires n in cfg.incoming && n in cfg.specs
  {
    && n != cfg.trigger && !Unreached(cfg, s, n) && !Clashes(cfg, s, n) && n !in cfg.blocked
    && forall input :: InputIs(cfg, s, n, input) ==> Fits(cfg.specs[n].inFields, input) && KeyIs(cfg, n, input, key)
  }

  /** An execution that starts from stored records answers a node without calling its provider if and only if the
      node's own record is a completed one, with the key of the input it is now run on and a dictionary for an
      output; that dictionary is then the output. */
  lemma ReusedIff(c: Chain, records: Records, k: nat, r: Turn, key: string)
    requires Reaches(c, k) && k < |c.cfg.order| && KeysApart(c.cfg)
    requires RecordsSound(c.cfg, records) && IsCacheOf(c.cache, records)
    requires c.cfg.order[k] in c.cfg.incoming && c.cfg.order[k] in c.cfg.specs
    requires TurnIs(c.cfg, c.provider, At(c, k).cache, At(c, k).state, c.cfg.order[k], r)
    requires RunsUnder(c.cfg, At(c, k).state, c.cfg.order[k], key)
    ensures r.attempts == 0 <==> exists out :: AnswersFor(records, c.cfg.order[k], key, out)
    ensures forall out :: AnswersFor(records, c.cfg.order[k], key, out) ==>
      r.status == Completed && r.output == Some(Obj(out)) && r.run == Running
  {
    hide After, At, Compiled, KeysApart, RecordsSound, IsCacheOf, AnswersFor, KeyOfNode;
    RanUnder(c.cfg, c.provider, At(c, k).cache, At(c, k).state, c.cfg.order[k], r, key);
    CachedIffAnswered(c, records, k, key);
    if key in At(c, k).cache { assert AnswersFor(records, c.cfg.order[k], key, At(c, k).cache[key]); }
  }

  lemma RanUnder(cfg: Config, provider: Provider, cache: map<string, Payload>, s: RunState, n: Node, r: Turn,
                 key: string)
    requires n in cfg.incoming && n in cfg.specs
    requires TurnIs(cfg, provider, cache, s, n, r) && RunsUnder(cfg, s, n, key)
    ensures KeyOfNode(cfg, n, key) && (r.attempts == 0 <==> key in cache)
    ensures key in cache ==> r.status == Completed && r.output == Some(Obj(cache[key])) && r.run == Running
  {
    hide InputIs, Unreached, Clashes, Fits, KeyIs, Fired, LastAttempt, Ends;
    var fired := if n in s.routes then [] else Fired(cfg, s, cfg.incoming[n]);
    var input :| InputIs(cfg, s, n, input) && RunsOn(cfg, provider, cache, n, input, fired, r);
    RanOn(cfg, provider, cache, n, input, fired, r, key);
    KeyIsNodes(cfg, n, input, key);
  }

  lemma RanOn(cfg: Config, provider: Provider, cache: map<string, Payload>, n: Node, input: Payload,
              fired: seq<ChainEdge>, r: Turn, key: string)
    requires n in cfg.specs && RunsOn(cfg, provider, cache, n, input, fired, r) && KeyIs(cfg, n, input, key)
    requires Fits(cfg.specs[n].inFields, input) && n !in cfg.blocked
    ensures r.attempts == 0 <==> key in cache
    ensures key in cache ==> r.status == Completed && r.output == Some(Obj(cache[key])) && r.run == Running
  {
    hide Fits, KeyIs, Ends;
    forall other | KeyIs(cfg, n, input, other) ensures other == key { KeyIsUnique(cfg, n, input, other, key); }
  }
}
