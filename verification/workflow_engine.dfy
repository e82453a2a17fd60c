/** The workflow engine: a step retried up to its limit, steps run in list order until the
    context is complete, conditional steps skipped when their condition fails, and a final
    status that always leaves the workflow complete. What a step's `execute` does, whether a
    step or the whole workflow outlives its time limit, and what a condition answers are
    parameters of the model. */
module WorkflowEngine {
  import Wrappers
  import opened Values
  import opened Text
  import opened Workflow

  /** What one call of a step's `execute` did: returned a context, or raised with a message,
      leaving behind the context as it had mutated it so far. */
  datatype Attempt = Returned(ctx: Context) | Raised(left: Context, message: string)

  /** A `WorkflowStep`. `execute(k, c)` is what the step's `execute` does on its `k`-th call
      (counting from 0) given `c`; `condition` is a `ConditionalStep`'s condition (its truthiness
      decides, and it may raise), absent for a plain step; `timeout(c)` is the context a run from
      `c` leaves behind when it outlives the engine's limit, absent when it finishes in time. */
  datatype Step = Step(
    name: string,
    maxRetries: int,
    condition: Wrappers.Option<Context -> Wrappers.Result<Value, string>>,
    execute: (nat, Context) -> Attempt,
    timeout: Context -> Wrappers.Option<Context>)

  /** `config.get("max_retries", 2)` as the integer `range` needs: 2 when the key is absent,
      a boolean as 0 or 1; absent for a value `range` rejects. */
  function MaxRetriesOf(config: map<string, Value>): (r: Wrappers.Option<int>)
    ensures "max_retries" !in config ==> r == Wrappers.Some(2)
    ensures "max_retries" in config && config["max_retries"].VInt? ==> r == Wrappers.Some(config["max_retries"].i)
    ensures r.Some? ==> "max_retries" !in config || config["max_retries"].VInt? || config["max_retries"].VBool?
  {
    if "max_retries" !in config then Wrappers.Some(2)
    else match config["max_retries"]
      case VInt(n) => Wrappers.Some(n)
      case VBool(b) => Wrappers.Some(if b then 1 else 0)
      case _ => Wrappers.None
  }

  /** `str(n)` for an integer. */
  function IntToString(n: int): (s: string)
    ensures n >= 0 ==> s == NatToString(n)
  {
    if n >= 0 then NatToString(n) else "-" + NatToString(-n)
  }

  // ---------------------------------------------------------------- one step, with retries

  /** The number of calls `range(max_retries + 1)` still allows from attempt `attempt` on. */
  function Remaining(step: Step, attempt: nat): nat {
    if step.maxRetries + 1 - attempt > 0 then step.maxRetries + 1 - attempt else 0
  }

  /** The error recorded when the last allowed attempt raises. */
  function FailureMessage(step: Step, attempt: nat, error: string): string {
    "Step " + step.name + " failed (attempt " + NatToString(attempt + 1) + "/"
    + IntToString(step.maxRetries + 1) + "): " + error
  }

  /** A step's run: the context it hands back and what each call of `execute` did, in order. */
  datatype Run = Run(ctx: Context, calls: seq<Attempt>)

  /** `WorkflowStep.run` from attempt `attempt` on: at most as many calls of `execute` as
      `range(max_retries + 1)` still allows, none exactly when it allows none, and then the
      context comes back untouched. */
  function RunFrom(step: Step, c: Context, attempt: nat): (r: Run)
    ensures |r.calls| == 0 <==> Remaining(step, attempt) == 0
    ensures |r.calls| <= Remaining(step, attempt)
    ensures r.calls == [] ==> r.ctx == c
    decreases Remaining(step, attempt)
  {
    if attempt > step.maxRetries then Run(c, [])
    else
      match step.execute(attempt, c)
      case Returned(next) => Run(next, [Returned(next)])
      case Raised(left, message) =>
        if attempt == step.maxRetries then
          Run(SetStatus(AddError(left, FailureMessage(step, attempt, message)), Failure), [Raised(left, message)])
        else
          var rest := RunFrom(step, left, attempt + 1);
          Run(rest.ctx, [Raised(left, message)] + rest.calls)
  }

  /** Retries continue only after a failed call, and each retry receives the context the
      failed call left behind. */
  lemma {:induction false} RunFromCalls(step: Step, c: Context, attempt: nat)
    ensures var r := RunFrom(step, c, attempt);
      && (r.calls != [] ==> r.calls[0] == step.execute(attempt, c))
      && forall j :: 0 <= j < |r.calls| - 1 ==>
           r.calls[j].Raised? && r.calls[j + 1] == step.execute(attempt + j + 1, r.calls[j].left)
    decreases Remaining(step, attempt)
  {
    if attempt <= step.maxRetries && step.execute(attempt, c).Raised? && attempt < step.maxRetries {
      var left := step.execute(attempt, c).left;
      RunFromCalls(step, left, attempt + 1);
      var rest := RunFrom(step, left, attempt + 1);
      var r := RunFrom(step, c, attempt);
      assert r.calls == [step.execute(attempt, c)] + rest.calls;
      forall j | 0 < j < |r.calls| - 1
        ensures r.calls[j].Raised? && r.calls[j + 1] == step.execute(attempt + j + 1, r.calls[j].left)
      {
        assert r.calls[j] == rest.calls[j - 1] && r.calls[j + 1] == rest.calls[j];
      }
    }
  }

  /** The first call that returns ends the run with exactly its context. */
  lemma {:induction false} RunFromReturned(step: Step, c: Context, attempt: nat)
    ensures var r := RunFrom(step, c, attempt);
      r.calls != [] && r.calls[|r.calls| - 1].Returned? ==> r.ctx == r.calls[|r.calls| - 1].ctx
    decreases Remaining(step, attempt)
  {
    if attempt <= step.maxRetries && step.execute(attempt, c).Raised? && attempt < step.maxRetries {
      var left := step.execute(attempt, c).left;
      RunFromReturned(step, left, attempt + 1);
      var rest := RunFrom(step, left, attempt + 1);
      var r := RunFrom(step, c, attempt);
      assert r.calls == [step.execute(attempt, c)] + rest.calls;
      assert r.calls[|r.calls| - 1] == rest.calls[|rest.calls| - 1];
    }
  }

  /** When the last call raises, every allowed call was made. */
  lemma {:induction false} RunFromExhaustedCount(step: Step, c: Context, attempt: nat)
    ensures var r := RunFrom(step, c, attempt);
      r.calls != [] && r.calls[|r.calls| - 1].Raised? ==> |r.calls| == Remaining(step, attempt)
    decreases Remaining(step, attempt)
  {
    if attempt <= step.maxRetries && step.execute(attempt, c).Raised? && attempt < step.maxRetries {
      var left := step.execute(attempt, c).left;
      RunFromExhaustedCount(step, left, attempt + 1);
      var rest := RunFrom(step, left, attempt + 1);
      var r := RunFrom(step, c, attempt);
      assert r.calls == [step.execute(attempt, c)] + rest.calls;
      assert r.calls[|r.calls| - 1] == rest.calls[|rest.calls| - 1];
    }
  }

  /** When the last call raises, exactly one error is added to what that call left behind, and
      the status becomes FAILURE. */
  lemma {:induction false} RunFromExhausted(step: Step, c: Context, attempt: nat)
    ensures var r := RunFrom(step, c, attempt);
      r.calls != [] && r.calls[|r.calls| - 1].Raised? ==>
        var last := r.calls[|r.calls| - 1];
        r.ctx == SetStatus(AddError(last.left, FailureMessage(step, attempt + |r.calls| - 1, last.message)), Failure)
    decreases Remaining(step, attempt)
  {
    if attempt <= step.maxRetries {
      match step.execute(attempt, c)
      case Returned(_) =>
      case Raised(left, message) =>
        var r := RunFrom(step, c, attempt);
        if attempt == step.maxRetries {
          assert r.calls == [Raised(left, message)];
        } else {
          RunFromExhausted(step, left, attempt + 1);
          var rest := RunFrom(step, left, attempt + 1);
          assert r == Run(rest.ctx, [Raised(left, message)] + rest.calls);
          if rest.calls != [] {
            assert r.calls[|r.calls| - 1] == rest.calls[|rest.calls| - 1];
            assert attempt + |r.calls| - 1 == attempt + 1 + |rest.calls| - 1;
          }
        }
    }
  }

  /** `await step.run(context)`. */
  function RunStep(step: Step, c: Context): Run {
    RunFrom(step, c, 0)
  }

  /** `execute` is called at most `max_retries + 1` times, three times with the default of two
      retries; a first call that returns ends the run with exactly its context. */
  lemma RunAttemptsBounded(step: Step, c: Context)
    ensures step.maxRetries >= 0 ==> |RunStep(step, c).calls| <= step.maxRetries + 1
    ensures step.maxRetries < 0 ==> RunStep(step, c) == Run(c, [])
    ensures step.maxRetries >= 0 && step.execute(0, c).Returned? ==>
      RunStep(step, c) == Run(step.execute(0, c).ctx, [step.execute(0, c)])
  {
  }

  /** When every allowed call raises, the run adds exactly one error to the context the last
      call left behind and marks the workflow failed. */
  lemma AllAttemptsFailing(step: Step, c: Context)
    requires forall k: nat, x :: step.execute(k, x).Raised?
    requires step.maxRetries >= 0
    ensures var r := RunStep(step, c);
      && |r.calls| == step.maxRetries + 1
      && r.calls[|r.calls| - 1].Raised?
      && r.ctx.errors == r.calls[|r.calls| - 1].left.errors
                         + [FailureMessage(step, step.maxRetries, r.calls[|r.calls| - 1].message)]
      && r.ctx.status == Failure
  {
    var r := RunStep(step, c);
    RunFromCalls(step, c, 0);
    RunFromExhaustedCount(step, c, 0);
    RunFromExhausted(step, c, 0);
    var n := |r.calls|;
    if n == 1 {
      assert r.calls[0] == step.execute(0, c);
    } else {
      assert r.calls[n - 1] == step.execute(n - 1, r.calls[n - 2].left);
    }
  }

  // ---------------------------------------------------------------- the step loop

  /** `step.should_execute(context)`: a plain step always runs; a conditional step answers with
      its condition, which may raise. */
  function ShouldExecute(step: Step, c: Context): (r: Wrappers.Result<Value, string>)
    ensures step.condition.None? ==> r == Wrappers.Success(VBool(true))
  {
    match step.condition
    case None => Wrappers.Success(VBool(true))
    case Some(condition) => condition(c)
  }

  /** The error recorded when a step outlives the engine's limit. */
  function TimeoutMessage(step: Step, timeoutSeconds: int): string {
    "Step " + step.name + " timed out after " + IntToString(timeoutSeconds) + "s"
  }

  /** A step the loop ran, with the context it was handed. */
  datatype Ran = Ran(index: nat, before: Context)

  /** Where the step loop stopped: the context, the steps it ran in order, and the message of
      an exception that escaped the loop. */
  datatype Flow = Flow(ctx: Context, ran: seq<Ran>, fault: Wrappers.Option<string>)

  /** `should_execute` answers falsily, so the loop passes over the step with the context as it is. */
  predicate Skipped(step: Step, c: Context) {
    ShouldExecute(step, c).Success? && !Truthy(ShouldExecute(step, c).value)
  }

  /** Every step from `from` up to, not including, `to` is skipped in context `c`. */
  predicate Skips(steps: seq<Step>, from: nat, to: nat, c: Context) {
    forall k :: from <= k < to && k < |steps| ==> Skipped(steps[k], c)
  }

  /** The index after the last step run, or `i` when none ran. */
  function NextIndex(i: nat, ran: seq<Ran>): nat {
    if ran == [] then i else ran[|ran| - 1].index + 1
  }

  /** The context a step that outlived the limit leaves: the workflow fails with one more error. */
  function TimedOut(step: Step, timeoutSeconds: int, left: Context): Context {
    SetStatus(AddError(left, TimeoutMessage(step, timeoutSeconds)), Failure)
  }

  /** The step loop of `WorkflowEngine.execute` from step `i` on. Steps run in list order; a step
      only runs when the context is not yet complete and the step's `should_execute` answers
      truthily; each run hands its context to the next; a step that outlives the limit fails the
      workflow with one more error and ends the loop. `LoopPassesOver`, `LoopResult` and
      `LoopEnds` state the converse: what the loop passes over, returns and stops at. */
  function Loop(steps: seq<Step>, timeoutSeconds: int, i: nat, c: Context): (f: Flow)
    requires i <= |steps|
    ensures forall j :: 0 <= j < |f.ran| ==> i <= f.ran[j].index < |steps|
    ensures forall j, k :: 0 <= j < k < |f.ran| ==> f.ran[j].index < f.ran[k].index
    ensures forall j :: 0 <= j < |f.ran| ==>
      && !IsComplete(f.ran[j].before)
      && ShouldExecute(steps[f.ran[j].index], f.ran[j].before).Success?
      && Truthy(ShouldExecute(steps[f.ran[j].index], f.ran[j].before).value)
    ensures f.ran != [] ==> f.ran[0].before == c
    ensures forall j :: 0 <= j < |f.ran| - 1 ==>
      f.ran[j + 1].before == RunStep(steps[f.ran[j].index], f.ran[j].before).ctx
    ensures f.ran == [] ==> f.ctx == c
    decreases |steps| - i
  {
    if i == |steps| || IsComplete(c) then Flow(c, [], Wrappers.None)
    else
      var verdict := ShouldExecute(steps[i], c);
      if verdict.Failure? then Flow(c, [], Wrappers.Some(verdict.error))
      else if !Truthy(verdict.value) then Loop(steps, timeoutSeconds, i + 1, c)
      else
        match steps[i].timeout(c)
        case Some(left) =>
          Flow(TimedOut(steps[i], timeoutSeconds, left), [Ran(i, c)], Wrappers.None)
        case None =>
          var rest := Loop(steps, timeoutSeconds, i + 1, RunStep(steps[i], c).ctx);
          Flow(rest.ctx, [Ran(i, c)] + rest.ran, rest.fault)
  }

  /** Every step passed over before the first run, or between two runs, answered falsily in the
      context the next run was handed, and every run but the last finished within the limit. */
  predicate PassesOver(steps: seq<Step>, i: nat, c: Context, ran: seq<Ran>)
    requires forall j :: 0 <= j < |ran| ==> ran[j].index < |steps|
  {
    && (ran != [] ==> Skips(steps, i, ran[0].index, c))
    && forall j :: 0 <= j < |ran| - 1 ==>
         && steps[ran[j].index].timeout(ran[j].before).None?
         && Skips(steps, ran[j].index + 1, ran[j + 1].index, ran[j + 1].before)
  }

  lemma PassesOverSkip(steps: seq<Step>, i: nat, c: Context, ran: seq<Ran>)
    requires forall j :: 0 <= j < |ran| ==> ran[j].index < |steps|
    requires i < |steps| && Skipped(steps[i], c) && PassesOver(steps, i + 1, c, ran)
    requires ran != [] ==> ran[0].before == c
    ensures PassesOver(steps, i, c, ran)
  {
  }

  lemma PassesOverRun(steps: seq<Step>, i: nat, c: Context, ran: seq<Ran>)
    requires forall j :: 0 <= j < |ran| ==> i < ran[j].index < |steps|
    requires i < |steps| && steps[i].timeout(c).None?
    requires PassesOver(steps, i + 1, RunStep(steps[i], c).ctx, ran)
    requires ran != [] ==> ran[0].before == RunStep(steps[i], c).ctx
    ensures PassesOver(steps, i, c, [Ran(i, c)] + ran)
  {
    var all := [Ran(i, c)] + ran;
    forall j | 0 <= j < |all| - 1
      ensures steps[all[j].index].timeout(all[j].before).None?
      ensures Skips(steps, all[j].index + 1, all[j + 1].index, all[j + 1].before)
    {
      if j > 0 {
        assert all[j] == ran[j - 1] && all[j + 1] == ran[j];
      }
    }
  }

  /** The loop never passes over a step that is eligible when its turn comes. */
  lemma {:induction false} LoopPassesOver(steps: seq<Step>, timeoutSeconds: int, i: nat, c: Context)
    requires i <= |steps|
    ensures PassesOver(steps, i, c, Loop(steps, timeoutSeconds, i, c).ran)
    decreases |steps| - i
  {
    if i == |steps| || IsComplete(c) {
    } else if ShouldExecute(steps[i], c).Failure? {
    } else if !Truthy(ShouldExecute(steps[i], c).value) {
      LoopPassesOver(steps, timeoutSeconds, i + 1, c);
      PassesOverSkip(steps, i, c, Loop(steps, timeoutSeconds, i + 1, c).ran);
    } else if steps[i].timeout(c).None? {
      var next := RunStep(steps[i], c).ctx;
      LoopPassesOver(steps, timeoutSeconds, i + 1, next);
      PassesOverRun(steps, i, c, Loop(steps, timeoutSeconds, i + 1, next).ran);
    }
  }

  /** The context the loop returns is the one its last run left (the failed context when that
      run outlived the limit), or the start context when nothing ran. */
  lemma {:induction false} LoopResult(steps: seq<Step>, timeoutSeconds: int, i: nat, c: Context)
    requires i <= |steps|
    ensures var f := Loop(steps, timeoutSeconds, i, c);
      f.ran != [] ==>
        var last := f.ran[|f.ran| - 1];
        match steps[last.index].timeout(last.before)
        case None => f.ctx == RunStep(steps[last.index], last.before).ctx
        case Some(left) => f.ctx == TimedOut(steps[last.index], timeoutSeconds, left) && f.fault.None?
    decreases |steps| - i
  {
    if i == |steps| || IsComplete(c) {
    } else if ShouldExecute(steps[i], c).Failure? {
    } else if !Truthy(ShouldExecute(steps[i], c).value) {
      LoopResult(steps, timeoutSeconds, i + 1, c);
    } else if steps[i].timeout(c).None? {
      var next := RunStep(steps[i], c).ctx;
      var rest := Loop(steps, timeoutSeconds, i + 1, next);
      LoopResult(steps, timeoutSeconds, i + 1, next);
      if rest.ran != [] {
        assert Loop(steps, timeoutSeconds, i, c).ran[|Loop(steps, timeoutSeconds, i, c).ran| - 1]
          == rest.ran[|rest.ran| - 1];
      }
    }
  }

  /** How a loop from step `i` stopped. Without a fault it reached a complete context or passed
      over every remaining step; a fault is the exception of a `should_execute` reached in an
      incomplete context after passing over the steps before it. */
  predicate Ended(steps: seq<Step>, i: nat, f: Flow) {
    && (f.fault.None? ==> IsComplete(f.ctx) || Skips(steps, NextIndex(i, f.ran), |steps|, f.ctx))
    && (f.fault.Some? ==>
          && !IsComplete(f.ctx)
          && exists k :: NextIndex(i, f.ran) <= k < |steps| && Skips(steps, NextIndex(i, f.ran), k, f.ctx)
                         && ShouldExecute(steps[k], f.ctx) == Wrappers.Failure(f.fault.value))
  }

  lemma EndedSkip(steps: seq<Step>, i: nat, c: Context, f: Flow)
    requires i < |steps| && Skipped(steps[i], c) && Ended(steps, i + 1, f)
    requires f.ran == [] ==> f.ctx == c
    ensures Ended(steps, i, f)
  {
    if f.ran == [] && f.fault.Some? {
      var k :| i + 1 <= k < |steps| && Skips(steps, i + 1, k, c)
               && ShouldExecute(steps[k], c) == Wrappers.Failure(f.fault.value);
      assert Skips(steps, i, k, c);
    }
  }

  lemma EndedRun(steps: seq<Step>, i: nat, c: Context, f: Flow)
    requires Ended(steps, i + 1, f)
    ensures Ended(steps, i, Flow(f.ctx, [Ran(i, c)] + f.ran, f.fault))
  {
    assert NextIndex(i, [Ran(i, c)] + f.ran) == NextIndex(i + 1, f.ran);
  }

  /** Every loop stops in one of the ways `Ended` names. */
  lemma {:induction false} LoopEnds(steps: seq<Step>, timeoutSeconds: int, i: nat, c: Context)
    requires i <= |steps|
    ensures Ended(steps, i, Loop(steps, timeoutSeconds, i, c))
    decreases |steps| - i
  {
    if i == |steps| || IsComplete(c) {
    } else if ShouldExecute(steps[i], c).Failure? {
      assert Skips(steps, i, i, c);
    } else if !Truthy(ShouldExecute(steps[i], c).value) {
      LoopEnds(steps, timeoutSeconds, i + 1, c);
      EndedSkip(steps, i, c, Loop(steps, timeoutSeconds, i + 1, c));
    } else if steps[i].timeout(c).None? {
      var next := RunStep(steps[i], c).ctx;
      LoopEnds(steps, timeoutSeconds, i + 1, next);
      EndedRun(steps, i, c, Loop(steps, timeoutSeconds, i + 1, next));
    }
  }

  /** An eligible step that finishes in time runs, and the loop goes on from the next step with
      the context it left. */
  lemma LoopRunsEligible(steps: seq<Step>, timeoutSeconds: int, i: nat, c: Context)
    requires i < |steps| && !IsComplete(c)
    requires ShouldExecute(steps[i], c).Success? && Truthy(ShouldExecute(steps[i], c).value)
    requires steps[i].timeout(c).None?
    ensures var rest := Loop(steps, timeoutSeconds, i + 1, RunStep(steps[i], c).ctx);
      Loop(steps, timeoutSeconds, i, c) == Flow(rest.ctx, [Ran(i, c)] + rest.ran, rest.fault)
  {
  }

  /** Once the context is complete no further step runs and the context is left as it is. */
  lemma LoopStopsWhenComplete(steps: seq<Step>, timeoutSeconds: int, i: nat, c: Context)
    requires i <= |steps| && IsComplete(c)
    ensures Loop(steps, timeoutSeconds, i, c).ran == []
    ensures Loop(steps, timeoutSeconds, i, c).ctx == c
  {
  }

  /** A step whose `should_execute` answers falsily is skipped: the loop goes on to the next
      step with the same context. For a conditional step that is exactly a falsy condition. */
  lemma SkippedStep(steps: seq<Step>, timeoutSeconds: int, i: nat, c: Context)
    requires i < |steps| && !IsComplete(c)
    requires steps[i].condition.Some? && steps[i].condition.value(c) == Wrappers.Success(VBool(false))
    ensures Loop(steps, timeoutSeconds, i, c) == Loop(steps, timeoutSeconds, i + 1, c)
    ensures forall j :: 0 <= j < |Loop(steps, timeoutSeconds, i, c).ran| ==>
      Loop(steps, timeoutSeconds, i, c).ran[j].index != i
  {
  }

  /** A step that outlives the limit is the last one to run: the workflow fails with exactly one
      more error than the step left behind. */
  lemma TimeoutEndsLoop(steps: seq<Step>, timeoutSeconds: int, i: nat, c: Context)
    requires i < |steps| && !IsComplete(c)
    requires ShouldExecute(steps[i], c).Success? && Truthy(ShouldExecute(steps[i], c).value)
    requires steps[i].timeout(c).Some?
    ensures var f := Loop(steps, timeoutSeconds, i, c);
      && f.ran == [Ran(i, c)] && f.fault.None?
      && f.ctx.status == Failure
      && f.ctx.errors == steps[i].timeout(c).value.errors + [TimeoutMessage(steps[i], timeoutSeconds)]
  {
  }

  // ---------------------------------------------------------------- the whole workflow

  /** The context the loop starts from: RUNNING, with "started_at" recorded. */
  function Started(c: Context, startedAt: string): (r: Context)
    ensures r.status == Running && !IsComplete(r)
    ensures r.errors == c.errors && r.stepResults == c.stepResults
  {
    AddMetadata(SetStatus(c, Running), "started_at", VStr(startedAt))
  }

  /** `WorkflowEngine.execute(context)`, with the start and end times given as their ISO text.
      The result is always complete: FAILURE with one more error when an exception escaped the
      loop, the status a step or a timeout left when one completed the workflow, and SUCCESS
      otherwise; "completed_at" is always recorded last. */
  function Execute(steps: seq<Step>, timeoutSeconds: int, c: Context, startedAt: string, completedAt: string)
    : (r: Context)
    ensures IsComplete(r)
    ensures Get(r.metadata, "completed_at") == VStr(completedAt)
    ensures var f := Loop(steps, timeoutSeconds, 0, Started(c, startedAt));
      && (f.fault.Some? ==>
            r.status == Failure && r.errors == f.ctx.errors + ["Workflow execution failed: " + f.fault.value])
      && (f.fault.None? && IsComplete(f.ctx) ==> r.status == f.ctx.status && r.errors == f.ctx.errors)
      && (f.fault.None? && !IsComplete(f.ctx) ==> r.status == Success && r.errors == f.ctx.errors)
  {
    var f := Loop(steps, timeoutSeconds, 0, Started(c, startedAt));
    var settled :=
      if f.fault.Some? then SetStatus(AddError(f.ctx, "Workflow execution failed: " + f.fault.value), Failure)
      else if !IsComplete(f.ctx) then SetStatus(f.ctx, Success)
      else f.ctx;
    AddMetadata(settled, "completed_at", VStr(completedAt))
  }

  /** A workflow with no steps, or whose every step is skipped, succeeds with its errors and step
      results as they were. */
  lemma NothingRunSucceeds(steps: seq<Step>, timeoutSeconds: int, c: Context, startedAt: string, completedAt: string)
    requires forall k :: 0 <= k < |steps| ==>
      steps[k].condition.Some? && forall x :: steps[k].condition.value(x) == Wrappers.Success(VBool(false))
    ensures var r := Execute(steps, timeoutSeconds, c, startedAt, completedAt);
      r.status == Success && r.errors == c.errors && r.stepResults == c.stepResults
  {
    SkippedAll(steps, timeoutSeconds, 0, Started(c, startedAt));
  }

  lemma {:induction false} SkippedAll(steps: seq<Step>, timeoutSeconds: int, i: nat, c: Context)
    requires i <= |steps| && !IsComplete(c)
    requires forall k :: 0 <= k < |steps| ==>
      steps[k].condition.Some? && forall x :: steps[k].condition.value(x) == Wrappers.Success(VBool(false))
    ensures Loop(steps, timeoutSeconds, i, c) == Flow(c, [], Wrappers.None)
    decreases |steps| - i
  {
    if i < |steps| {
      SkippedAll(steps, timeoutSeconds, i + 1, c);
    }
  }

  /** The overall limit's fallback: `timeout or self.timeout_seconds`. */
  function OverallLimit(timeout: Wrappers.Option<int>, timeoutSeconds: int): (t: int)
    ensures timeout.Some? && timeout.value != 0 ==> t == timeout.value
    ensures timeout.None? || timeout.value == 0 ==> t == timeoutSeconds
  {
    if timeout.Some? && timeout.value != 0 then timeout.value else timeoutSeconds
  }

  /** `WorkflowEngine.execute_with_timeout`: `overrun` is the context the run leaves behind when it
      outlives the overall limit, absent when it finishes in time. An overrun workflow is ABORTED
      with exactly one more error; otherwise the result is that of `execute`. */
  function ExecuteWithTimeout(
    steps: seq<Step>, timeoutSeconds: int, c: Context, timeout: Wrappers.Option<int>,
    overrun: Wrappers.Option<Context>, startedAt: string, completedAt: string)
    : (r: Context)
    ensures IsComplete(r)
    ensures overrun.None? ==> r == Execute(steps, timeoutSeconds, c, startedAt, completedAt)
    ensures overrun.Some? ==>
      && r.status == Aborted
      && r.errors == overrun.value.errors
                     + ["Workflow timed out after " + IntToString(OverallLimit(timeout, timeoutSeconds)) + "s"]
  {
    match overrun
    case None => Execute(steps, timeoutSeconds, c, startedAt, completedAt)
    case Some(left) =>
      SetStatus(AddError(left, "Workflow timed out after " + IntToString(OverallLimit(timeout, timeoutSeconds)) + "s"),
                Aborted)
  }
}
