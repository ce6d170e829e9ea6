/** The engine's stored view of one run: executing it, and stepping it again. */
module Engine {
  import opened LinearSpec
  import opened LinearRuns
  import opened LinearRuntime
  import opened Resume

  /** The execution lets the trigger input in and visits every node. */
  ghost predicate Finishes(c: Chain) {
    && Compiled(c.cfg) && c.cfg.trigger in c.cfg.specs
    && Accepts(c.cfg.specs[c.cfg.trigger].inFields, c.cfg.input) && Reaches(c, |c.cfg.order|)
  }

  /** What run() reports of the execution. */
  ghost function Reported(c: Chain): RunStatus {
    if Reaches(c, |c.cfg.order|) then FinalStatus(Final(c).state) else Running
  }

  lemma ReportIsFinal(c: Chain)
    requires Reaches(c, |c.cfg.order|)
    ensures Reported(c) != Running
  {
    hide After, Compiled;
  }

  /** Every execution but the last ended failed. */
  ghost predicate OnlyFailedAreRepeated(runs: seq<Chain>) {
    forall i :: 0 <= i < |runs| - 1 ==> Reported(runs[i]) == RunFailed
  }

  lemma FailedIsRepeated(runs: seq<Chain>, c: Chain)
    requires OnlyFailedAreRepeated(runs) && (runs != [] ==> Reported(runs[|runs| - 1]) == RunFailed)
    ensures OnlyFailedAreRepeated(runs + [c])
  {
    hide Reported;
  }

  class Engine {
    const cfg: Config
    var records: Records
    var status: RunStatus
    /** The finished executions of the run so far, and the records before and after each. */
    ghost var runs: seq<Chain>
    ghost var stored: seq<Records>

    /** The executions follow each other, and what is stored is what the last one left. */
    ghost predicate Valid()
      reads this
    {
      && Compiled(cfg) && Executions(cfg, runs, stored) && records == stored[|runs|]
      && status == if runs == [] then Running else Reported(runs[|runs| - 1])
    }

    constructor (cfg: Config)
      requires Compiled(cfg)
      ensures Valid() && OnlyFailedAreRepeated(runs)
      ensures this.cfg == cfg && runs == [] && records == map[] && status == Running
    {
      this.cfg, records, status := cfg, map[], Running;
      runs, stored := [], [map[]];
    }

    /** _execute_run: a fresh runtime over the cached results, its log stored over the records, and its run
        status. When the execution raises nothing is stored. */
    method ExecuteRun(provider: Provider) returns (finished: bool, ghost c: Chain)
      requires Valid()
      modifies this
      ensures Valid() && c.provider == provider && c.cfg == cfg && IsCacheOf(c.cache, old(records))
      ensures finished <==> Finishes(c)
      ensures finished ==> runs == old(runs) + [c] && Execution(cfg, old(records), c, records) && status == Reported(c)
      ensures !finished ==> runs == old(runs) && records == old(records) && status == old(status)
    {
      var cache := CachedResults(records);
      c := Chain(cfg, provider, cache);
      var runtime := new LangGraphRuntime(cfg, provider, cache);
      hide FinalStatus, After, IsCacheOf, Compiled, Accepts, Executions;
      var final := runtime.Run();
      if final.None? {
        return false, c;
      }
      records := PersistLog(records, final.value.log);
      status := final.value.run;
      OneMoreExecution(cfg, runs, stored, c, records);
      runs, stored := runs + [c], stored + [records];
      assert stored[|runs|] == records && runs[|runs| - 1] == c;
      return true, c;
    }

    /** trigger: the first execution of a new run. */
    method Trigger(provider: Provider) returns (finished: bool, ghost c: Chain)
      requires Valid() && runs == []
      modifies this
      ensures Valid() && OnlyFailedAreRepeated(runs) && c.provider == provider && c.cfg == cfg
        && IsCacheOf(c.cache, map[])
      ensures finished <==> Finishes(c)
      ensures finished ==> runs == [c] && Execution(cfg, map[], c, records) && status == Reported(c)
      ensures !finished ==> runs == [] && records == map[] && status == Running
    {
      hide IsCacheOf, Finishes, Compiled, Execution, Reported;
      finished, c := ExecuteRun(provider);
    }

    /** step: completed and cancelled runs are left alone, any other run is executed again. */
    method Step(provider: Provider) returns (finished: bool, ghost c: Chain)
      requires Valid()
      modifies this
      ensures Valid() && (OnlyFailedAreRepeated(old(runs)) ==> OnlyFailedAreRepeated(runs))
      ensures c.provider == provider && c.cfg == cfg
      ensures old(status) == RunCompleted || old(status) == RunCancelled ==> !finished
      ensures old(status) == Running || old(status) == RunFailed ==>
        IsCacheOf(c.cache, old(records)) && (finished <==> Finishes(c))
      ensures finished ==> runs == old(runs) + [c] && Execution(cfg, old(records), c, records) && status == Reported(c)
      ensures !finished ==> runs == old(runs) && records == old(records) && status == old(status)
    {
      hide *;
      if status == RunCompleted || status == RunCancelled {
        c := Chain(cfg, provider, map[]);
        return false, c;
      }
      if runs != [] { LastIsFinal(this); }
      finished, c := ExecuteRun(provider);
      if OnlyFailedAreRepeated(old(runs)) { FailedIsRepeated(old(runs), c); }
    }
  }

  lemma LastIsFinal(e: Engine)
    requires e.Valid() && e.runs != []
    ensures e.status == Reported(e.runs[|e.runs| - 1]) != Running
  {
    hide Reaches, At, IsCacheOf;
    var n := |e.runs| - 1;
    assert Execution(e.cfg, e.stored[n], e.runs[n], e.stored[n + 1]);
    ReportIsFinal(e.runs[n]);
  }

  /** Whatever operations led here: once an execution has settled a prefix of the chain, every later one gives its
      nodes the same results and never calls their providers. */
  lemma SettledStaysSettled(e: Engine, i: nat, j: nat, k: nat)
    requires e.Valid() && KeysApart(e.cfg) && i < j < |e.runs|
    requires Unmasked(e.cfg, k) && SettledAt(e.cfg, e.runs[i], k)
    ensures SettledAt(e.cfg, e.runs[j], k) && Repeats(e.runs[i], e.runs[j], k)
  {
    hide SettledAt, Repeats, Unmasked, Executions, KeysApart, Compiled;
    SettledForGood(e.cfg, e.runs, e.stored, i, j, k);
  }

  /** Nodes that an execution completed or skipped are never called again if and only if each completed one, the
      trigger aside, logged a dictionary. */
  lemma SilentIff(e: Engine, i: nat, k: nat)
    requires e.Valid() && KeysApart(e.cfg) && i + 1 < |e.runs|
    requires Unmasked(e.cfg, k) && DoneAt(e.cfg, e.runs[i], k)
    ensures (forall j :: i < j < |e.runs| ==> Silent(e.cfg, e.runs[j], k)) <==> DictionariesAt(e.cfg, e.runs[i], k)
  {
    hide Silent, DictionariesAt, DoneAt, Unmasked, Executions, KeysApart, Compiled;
    SilentForGoodIff(e.cfg, e.runs, e.stored, i, k);
  }
}
