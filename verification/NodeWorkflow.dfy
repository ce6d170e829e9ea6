/** The resumable node workflow: a step loop cut into segments by checkpoints, kept inline or in a blob store. */
module NodeWorkflow {
  import opened Wrappers
  import opened Json

  type Payload = map<string, Json>

  datatype StepResult = StepResult(state: Payload, completed: bool, output: Option<Payload>)

  /** A node behaviour: deterministic in the state, the run and the step index. */
  type Behavior = (Payload, string, nat) -> StepResult

  datatype Policy = Policy(maxInlineBytes: int, spillToBlob: bool)

  datatype Checkpoint = Checkpoint(id: nat, runId: string, stepIndex: nat, state: Option<Payload>, blobKey: Option<nat>)

  datatype RunResult = RunResult(completed: bool, state: Payload, output: Option<Payload>,
                                 checkpoint: Option<Checkpoint>)

  datatype Response = Answer(result: RunResult) | UnknownCheckpoint | WrongRun(owner: string)

  // ------------------------------------------------------------------ the uninterrupted run

  datatype Progress = Finished(state: Payload, output: Option<Payload>, steps: nat)
    | Unfinished(state: Payload, index: nat)

  /** At most k steps from a state and step index, none after the behaviour has completed. */
  function Steps(b: Behavior, run: string, state: Payload, index: nat, k: nat): Progress
    decreases k
  {
    if k == 0 then Unfinished(state, index)
    else
      var r := b(state, run, index);
      if r.completed then Finished(r.state, r.output, index + 1) else Steps(b, run, r.state, index + 1, k - 1)
  }

  function EndIndex(p: Progress): nat {
    if p.Finished? then p.steps else p.index
  }

  lemma {:induction false} StepsCompose(b: Behavior, run: string, state: Payload, index: nat, k: nat, m: nat)
    ensures var first := Steps(b, run, state, index, k);
      Steps(b, run, state, index, k + m) == if first.Finished? then first
        else Steps(b, run, first.state, first.index, m)
    decreases k
  {
    if k > 0 && !b(state, run, index).completed {
      StepsCompose(b, run, b(state, run, index).state, index + 1, k - 1, m);
    }
  }

  lemma {:induction false} StepsCount(b: Behavior, run: string, state: Payload, index: nat, k: nat)
    ensures var p := Steps(b, run, state, index, k);
      index <= EndIndex(p) <= index + k && (p.Unfinished? ==> p.index == index + k) && (p.Finished? ==> index < p.steps)
    decreases k
  {
    if k > 0 && !b(state, run, index).completed {
      StepsCount(b, run, b(state, run, index).state, index + 1, k - 1);
    }
  }

  /** The behaviour called again and again, each time with the state the call before it returned, the first time with
      this state, under consecutive step indices. */
  ghost predicate CalledInTurn(b: Behavior, run: string, state: Payload, index: nat, calls: seq<StepResult>) {
    forall i: nat :: i < |calls| ==> calls[i] == b(StateBefore(state, calls, i), run, index + i)
  }

  function StateBefore(state: Payload, calls: seq<StepResult>, i: nat): Payload
    requires i <= |calls|
  {
    if i == 0 then state else calls[i - 1].state
  }

  /** At most k calls, none after one that completes; the progress they make is to the last call's state and, if it
      completed, its output. */
  ghost predicate MakesProgress(calls: seq<StepResult>, state: Payload, index: nat, k: nat, p: Progress) {
    && |calls| <= k && (forall i :: 0 <= i < |calls| - 1 ==> !calls[i].completed)
    && if calls != [] && calls[|calls| - 1].completed
       then p == Finished(calls[|calls| - 1].state, calls[|calls| - 1].output, index + |calls|)
       else |calls| == k && p == Unfinished(StateBefore(state, calls, k), index + k)
  }

  /** Up to k steps are up to k calls of the behaviour, each on what the call before left. */
  lemma {:induction false} StepsAreCalls(b: Behavior, run: string, state: Payload, index: nat, k: nat)
    returns (calls: seq<StepResult>)
    ensures CalledInTurn(b, run, state, index, calls)
    ensures MakesProgress(calls, state, index, k, Steps(b, run, state, index, k))
    decreases k
  {
    hide CalledInTurn, MakesProgress;
    if k == 0 {
      calls := [];
      NoCalls(b, run, state, index);
    } else {
      var first := b(state, run, index);
      if first.completed {
        calls := [first];
        OneCall(b, run, state, index, k);
      } else {
        var rest := StepsAreCalls(b, run, first.state, index + 1, k - 1);
        calls := [first] + rest;
        OneCallBefore(b, run, state, index, rest);
        ProgressAfter(first, rest, state, index, k, Steps(b, run, first.state, index + 1, k - 1));
      }
    }
  }

  lemma NoCalls(b: Behavior, run: string, state: Payload, index: nat)
    ensures CalledInTurn(b, run, state, index, []) && MakesProgress([], state, index, 0, Unfinished(state, index))
  {
  }

  lemma OneCall(b: Behavior, run: string, state: Payload, index: nat, k: nat)
    requires k > 0 && b(state, run, index).completed
    ensures var first := b(state, run, index);
      CalledInTurn(b, run, state, index, [first])
        && MakesProgress([first], state, index, k, Finished(first.state, first.output, index + 1))
  {
  }

  lemma ProgressAfter(first: StepResult, rest: seq<StepResult>, state: Payload, index: nat, k: nat, p: Progress)
    requires k > 0 && !first.completed && MakesProgress(rest, first.state, index + 1, k - 1, p)
    ensures MakesProgress([first] + rest, state, index, k, p)
  {
    var calls := [first] + rest;
    assert forall i :: 0 < i < |calls| ==> calls[i] == rest[i - 1];
  }

  lemma OneCallBefore(b: Behavior, run: string, state: Payload, index: nat, rest: seq<StepResult>)
    requires CalledInTurn(b, run, b(state, run, index).state, index + 1, rest)
    ensures CalledInTurn(b, run, state, index, [b(state, run, index)] + rest)
  {
    var first := b(state, run, index);
    var calls := [first] + rest;
    forall i: nat | i < |calls| ensures calls[i] == b(StateBefore(state, calls, i), run, index + i) {
      if i > 0 {
        assert calls[i] == rest[i - 1] == b(StateBefore(first.state, rest, i - 1), run, index + 1 + (i - 1));
        assert StateBefore(first.state, rest, i - 1) == StateBefore(state, calls, i);
      }
    }
  }

  /** The number of steps a segment may take: a given budget is checked after each step, so one step is
      always taken. */
  function Allowance(maxSteps: int): nat {
    if maxSteps < 1 then 1 else maxSteps
  }

  // ------------------------------------------------------------------ the stores

  class BlobStore {
    var payloads: map<nat, Payload>
    var next: nat

    ghost predicate Valid()
      reads this
    {
      forall k :: k in payloads ==> k < next
    }

    constructor ()
      ensures Valid() && payloads == map[]
    {
      payloads, next := map[], 0;
    }

    method PutJson(payload: Payload) returns (key: nat)
      requires Valid()
      modifies this
      ensures Valid() && key !in old(payloads) && payloads == old(payloads)[key := payload]
    {
      key := next;
      payloads, next := payloads[key := payload], next + 1;
    }
  }

  function IndexRange(a: nat, b: nat): (r: seq<nat>)
    requires a <= b
    ensures |r| == b - a && forall i :: 0 <= i < |r| ==> r[i] == a + i
  {
    seq(b - a, i requires 0 <= i => a + i)
  }

  class LangGraphNodeWorkflow {
    const behavior: Behavior
    const policy: Policy
    const store: BlobStore
    const encodedLength: Payload -> nat
    var checkpoints: map<nat, Checkpoint>
    var next: nat
    /** The step indices the behaviour was called with, in order. */
    ghost var taken: seq<nat>

    /** Every checkpoint is stored under its own id and its state can be found. */
    ghost predicate Valid()
      reads this, store
    {
      && store.Valid()
      && (forall id :: id in checkpoints ==> id < next && checkpoints[id].id == id)
      && (forall id :: id in checkpoints && checkpoints[id].state.None? ==>
          checkpoints[id].blobKey.Some? && checkpoints[id].blobKey.value in store.payloads)
    }

    constructor (behavior: Behavior, policy: Policy, store: BlobStore, encodedLength: Payload -> nat)
      requires store.Valid()
      ensures Valid() && checkpoints == map[] && taken == []
      ensures this.behavior == behavior && this.policy == policy && this.store == store
        && this.encodedLength == encodedLength
    {
      this.behavior, this.policy, this.store, this.encodedLength := behavior, policy, store, encodedLength;
      checkpoints, next, taken := map[], 0, [];
    }

    /** The state a checkpoint stands for. */
    function StateOf(id: nat): Payload
      requires Valid() && id in checkpoints
      reads this, store
    {
      var c := checkpoints[id];
      if c.state.Some? then c.state.value else store.payloads[c.blobKey.value]
    }

    /** Everything checkpointed before is still there and still stands for the same state. */
    twostate predicate Keeps()
      requires old(Valid()) && Valid()
      reads this, store
    {
      forall id :: id in old(checkpoints) ==>
        id in checkpoints && checkpoints[id] == old(checkpoints[id]) && StateOf(id) == old(StateOf(id))
    }

    method SaveCheckpoint(runId: string, stepIndex: nat, state: Payload) returns (c: Checkpoint)
      requires Valid()
      modifies this`checkpoints, this`next, store
      ensures Valid() && Keeps()
      ensures c.id !in old(checkpoints) && checkpoints == old(checkpoints)[c.id := c]
      ensures c.runId == runId && c.stepIndex == stepIndex && StateOf(c.id) == state
      ensures c.blobKey.Some? <==> policy.spillToBlob && encodedLength(state) > policy.maxInlineBytes
    {
      if policy.spillToBlob && encodedLength(state) > policy.maxInlineBytes {
        var key := store.PutJson(state);
        c := Checkpoint(next, runId, stepIndex, None, Some(key));
      } else {
        c := Checkpoint(next, runId, stepIndex, Some(state), None);
      }
      checkpoints, next := checkpoints[c.id := c], next + 1;
    }

    /** What a segment that may take k steps from a state and step index leaves: its result, its calls and, if it
        is not finished, a checkpoint from which exactly the rest can be run. */
    twostate predicate Drove(run: string, state: Payload, index: nat, k: nat, r: RunResult)
      requires old(Valid()) && Valid()
      reads this, store
    {
      var p := Steps(behavior, run, state, index, k);
      && Keeps() && r.state == p.state && r.completed == p.Finished?
      && index <= EndIndex(p) && taken == old(taken) + IndexRange(index, EndIndex(p))
      && match p
         case Finished(_, output, _) => r.output == output && r.checkpoint.None? && checkpoints == old(checkpoints)
         case Unfinished(s, i) =>
           && r.output.None? && r.checkpoint.Some?
           && var c := r.checkpoint.value;
              c.id !in old(checkpoints) && checkpoints == old(checkpoints)[c.id := c] && c.runId == run
                && c.stepIndex == i && StateOf(c.id) == s
    }

    /** The loop. A segment without a budget is only described when the behaviour completes, within some
        number of steps. */
    method Drive(state: Payload, runId: string, nextStepIndex: nat, maxSteps: Option<int>, ghost enough: nat)
      returns (r: RunResult)
      requires Valid()
      requires maxSteps.None? ==> Steps(behavior, runId, state, nextStepIndex, enough).Finished?
      modifies this, store
      ensures Valid()
        && Drove(runId, state, nextStepIndex, if maxSteps.Some? then Allowance(maxSteps.value) else enough, r)
    {
      ghost var all := if maxSteps.Some? then Allowance(maxSteps.value) else enough;
      var current, index, executed := state, nextStepIndex, 0;
      while true
        invariant executed <= all && index == nextStepIndex + executed && (executed == all ==> maxSteps.None?)
        invariant Steps(behavior, runId, state, nextStepIndex, all)
          == Steps(behavior, runId, current, index, all - executed)
        invariant Valid() && checkpoints == old(checkpoints) && store.payloads == old(store.payloads)
        invariant taken == old(taken) + IndexRange(nextStepIndex, index)
        decreases all - executed
      {
        var result := behavior(current, runId, index);
        taken := taken + [index];
        assert IndexRange(nextStepIndex, index + 1) == IndexRange(nextStepIndex, index) + [index];
        current := result.state;
        index := index + 1;
        executed := executed + 1;
        if result.completed {
          return RunResult(true, current, result.output, None);
        }
        if maxSteps.Some? && executed >= maxSteps.value {
          var c := SaveCheckpoint(runId, index, current);
          return RunResult(false, current, None, Some(c));
        }
      }
    }

    method Run(input: Payload, runId: string, maxSteps: Option<int>, ghost enough: nat) returns (r: RunResult)
      requires Valid()
      requires maxSteps.None? ==> Steps(behavior, runId, input, 0, enough).Finished?
      modifies this, store
      ensures Valid() && Drove(runId, input, 0, if maxSteps.Some? then Allowance(maxSteps.value) else enough, r)
      ensures maxSteps.Some? && maxSteps.value >= 1 ==> |taken| - |old(taken)| <= maxSteps.value
      ensures !r.completed ==>
        maxSteps.Some? && |taken| - |old(taken)| == if maxSteps.value >= 1 then maxSteps.value else 1
    {
      if maxSteps.Some? { StepsCount(behavior, runId, input, 0, Allowance(maxSteps.value)); }
      r := Drive(input, runId, 0, maxSteps, enough);
    }

    method Resume(runId: string, checkpointId: nat, maxSteps: Option<int>, ghost enough: nat) returns (r: Response)
      requires Valid()
      requires maxSteps.None? && checkpointId in checkpoints ==>
        Steps(behavior, runId, StateOf(checkpointId), checkpoints[checkpointId].stepIndex, enough).Finished?
      modifies this, store
      ensures Valid()
      ensures r.UnknownCheckpoint? <==> checkpointId !in old(checkpoints)
      ensures r.WrongRun? <==> checkpointId in old(checkpoints) && old(checkpoints)[checkpointId].runId != runId
      ensures !r.Answer? ==>
        checkpoints == old(checkpoints) && store.payloads == old(store.payloads) && taken == old(taken)
      ensures r.Answer? ==>
        Drove(runId, old(StateOf(checkpointId)), old(checkpoints)[checkpointId].stepIndex,
              if maxSteps.Some? then Allowance(maxSteps.value) else enough, r.result)
      ensures r.Answer? && !r.result.completed ==>
        maxSteps.Some? && |taken| - |old(taken)| == if maxSteps.value >= 1 then maxSteps.value else 1
    {
      if checkpointId !in checkpoints {
        return UnknownCheckpoint;
      }
      var checkpoint := checkpoints[checkpointId];
      if checkpoint.runId != runId {
        return WrongRun(checkpoint.runId);
      }
      var state := if checkpoint.state.Some? then checkpoint.state.value else store.payloads[checkpoint.blobKey.value];
      if maxSteps.Some? {
        StepsCount(behavior, runId, state, checkpoint.stepIndex, Allowance(maxSteps.value));
      }
      var result := Drive(state, runId, checkpoint.stepIndex, maxSteps, enough);
      return Answer(result);
    }
  }

  // ------------------------------------------------------------------ cutting a run into segments

  /** A run followed by resumes, each from the checkpoint before it, until one finishes. */
  function Segmented(b: Behavior, run: string, state: Payload, index: nat, budgets: seq<int>): Progress
    decreases |budgets|
  {
    if budgets == [] then Unfinished(state, index)
    else
      var p := Steps(b, run, state, index, Allowance(budgets[0]));
      if p.Finished? then p else Segmented(b, run, p.state, p.index, budgets[1..])
  }

  function Total(budgets: seq<int>): nat {
    if budgets == [] then 0 else Allowance(budgets[0]) + Total(budgets[1..])
  }

  /** However a run is cut, it stands where the uninterrupted run stands after as many steps. */
  lemma {:induction false} SegmentsAreOneRun(b: Behavior, run: string, state: Payload, index: nat, budgets: seq<int>)
    ensures Segmented(b, run, state, index, budgets) == Steps(b, run, state, index, Total(budgets))
    decreases |budgets|
  {
    if budgets == [] {
    } else {
      var k := Allowance(budgets[0]);
      StepsCompose(b, run, state, index, k, Total(budgets[1..]));
      var p := Steps(b, run, state, index, k);
      if p.Unfinished? {
        SegmentsAreOneRun(b, run, p.state, p.index, budgets[1..]);
      }
    }
  }

  /** For a behaviour that completes after n steps: any cutting with enough budget in total ends in the same
      state, with the same output, after the same n steps; any other stops exactly at its budget. */
  lemma CuttingIsInvisible(b: Behavior, run: string, input: Payload, n: nat, budgets: seq<int>)
    requires var whole := Steps(b, run, input, 0, n); whole.Finished? && whole.steps == n
    ensures Total(budgets) >= n ==> Segmented(b, run, input, 0, budgets) == Steps(b, run, input, 0, n)
    ensures Total(budgets) < n ==>
      var p := Segmented(b, run, input, 0, budgets);
      p.Unfinished? && p.index == Total(budgets)
        && Steps(b, run, p.state, p.index, n - Total(budgets)) == Steps(b, run, input, 0, n)
  {
    SegmentsAreOneRun(b, run, input, 0, budgets);
    if Total(budgets) >= n {
      StepsCompose(b, run, input, 0, n, Total(budgets) - n);
    } else {
      StepsCompose(b, run, input, 0, Total(budgets), n - Total(budgets));
      StepsCount(b, run, input, 0, Total(budgets));
    }
  }

  /** A segment's result says where the run stands; an unfinished one can be resumed from there. */
  ghost predicate Stands(w: LangGraphNodeWorkflow, run: string, r: RunResult, p: Progress)
    requires w.Valid()
    reads w, w.store
  {
    && r.state == p.state && r.completed == p.Finished?
    && match p
       case Finished(_, output, _) => r.output == output
       case Unfinished(s, i) =>
         r.checkpoint.Some?
         && var id := r.checkpoint.value.id;
            id in w.checkpoints && w.checkpoints[id].runId == run && w.checkpoints[id].stepIndex == i
              && w.StateOf(id) == s
  }

  method FirstSegment(w: LangGraphNodeWorkflow, input: Payload, runId: string, budget: int)
    returns (r: RunResult, ghost p: Progress)
    requires w.Valid()
    modifies w, w.store
    ensures w.Valid() && p == Steps(w.behavior, runId, input, 0, Allowance(budget)) && Stands(w, runId, r, p)
    ensures w.taken == old(w.taken) + IndexRange(0, EndIndex(p))
  {
    r := w.Run(input, runId, Some(budget), 0);
    p := Steps(w.behavior, runId, input, 0, Allowance(budget));
  }

  method NextSegment(w: LangGraphNodeWorkflow, runId: string, last: RunResult, ghost p: Progress, budget: int)
    returns (r: RunResult, ghost q: Progress)
    requires w.Valid() && p.Unfinished? && Stands(w, runId, last, p)
    modifies w, w.store
    ensures w.Valid() && q == Steps(w.behavior, runId, p.state, p.index, Allowance(budget)) && Stands(w, runId, r, q)
    ensures p.index <= EndIndex(q) && w.taken == old(w.taken) + IndexRange(p.index, EndIndex(q))
  {
    var answer := w.Resume(runId, last.checkpoint.value.id, Some(budget), 0);
    r := answer.result;
    q := Steps(w.behavior, runId, p.state, p.index, Allowance(budget));
  }

  /** The workflow's own operations, cut anywhere: run under the first budget, then resume from each checkpoint
      under the next one, realise Segmented, and call the behaviour once for every step index. */
  method RunInSegments(w: LangGraphNodeWorkflow, input: Payload, runId: string, budgets: seq<int>)
    returns (r: RunResult)
    requires w.Valid() && budgets != []
    modifies w, w.store
    ensures w.Valid()
    ensures var p := Segmented(w.behavior, runId, input, 0, budgets);
      Stands(w, runId, r, p) && w.taken == old(w.taken) + IndexRange(0, EndIndex(p))
  {
    hide Stands, Steps;
    ghost var p, q;
    r, p := FirstSegment(w, input, runId, budgets[0]);
    StandsCompleted(w, runId, r, p);
    var i := 1;
    while i < |budgets| && !r.completed
      invariant 1 <= i <= |budgets| && w.Valid() && Stands(w, runId, r, p) && r.completed == p.Finished?
      invariant w.taken == old(w.taken) + IndexRange(0, EndIndex(p))
      invariant Segmented(w.behavior, runId, input, 0, budgets) == Onward(w.behavior, runId, p, budgets[i..])
    {
      assert budgets[i..][0] == budgets[i] && budgets[i..][1..] == budgets[i + 1..];
      r, q := NextSegment(w, runId, r, p, budgets[i]);
      StandsCompleted(w, runId, r, q);
      assert IndexRange(0, EndIndex(q)) == IndexRange(0, p.index) + IndexRange(p.index, EndIndex(q));
      p := q;
      i := i + 1;
    }
  }

  ghost function Onward(b: Behavior, run: string, p: Progress, budgets: seq<int>): Progress {
    if p.Finished? then p else Segmented(b, run, p.state, p.index, budgets)
  }

  lemma StandsCompleted(w: LangGraphNodeWorkflow, run: string, r: RunResult, p: Progress)
    requires w.Valid() && Stands(w, run, r, p)
    ensures r.completed == p.Finished?
  {
  }
}
