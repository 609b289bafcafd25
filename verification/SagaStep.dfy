/**
 One step of a saga: an action retried with exponential backoff under a
 timeout, and its compensation. Actions and compensations act on a world of any
 type; everything else they may depend on is the number of calls made so far.
 */
module SagaSteps {
  import opened Wrappers
  import opened TaskEvents
  import opened Backoff

  type Context = map<string, Json>

  /** How one call of an action ends. A call cut off by the timeout took the whole timeout. */
  datatype Attempt<+W> =
    | Returned(result: Context, world: W, took: real)
    | Raised(world: W, took: real)
    | TimedOut(world: W)

  /** How one call of a compensation or a callback ends. */
  datatype Effect<+W> = Finished(world: W) | Broke(world: W)

  datatype Step<!W> = Step(
    name: string,
    retryCount: int,
    retryDelay: real,
    timeout: real,
    isCompensatable: bool,
    action: (Context, W, nat) -> Attempt<W>,
    compensation: Option<(Context, W, nat) -> Effect<W>>)

  /** The time one call takes: no less than nothing and, because of the timeout, no more than that. */
  function Duration<W>(a: Attempt<W>, timeout: real): (d: real)
    ensures timeout >= 0.0 ==> 0.0 <= d <= timeout
    ensures a.TimedOut? ==> d == timeout
    ensures !a.TimedOut? && 0.0 <= a.took <= timeout ==> d == a.took
  {
    if a.TimedOut? then timeout
    else if a.took < 0.0 then 0.0
    else if a.took > timeout then timeout
    else a.took
  }

  /** What executing a step amounts to; no outcome means it raised. */
  datatype StepRun<+W> = StepRun(outcome: Option<Context>, world: W, clock: nat, attempts: nat, slept: real, elapsed: real)

  /** The pause after failed attempt number `attempt`, counted from 0; none after the last. */
  function Pause<W>(step: Step<W>, attempt: nat): real {
    if attempt < step.retryCount then step.retryDelay * (Pow2(attempt) as real) else 0.0
  }

  /** A run that came after `attempts` more attempts. */
  function Prepend<W>(rest: StepRun<W>, attempts: nat, slept: real, elapsed: real): StepRun<W> {
    rest.(attempts := rest.attempts + attempts, slept := rest.slept + slept, elapsed := rest.elapsed + elapsed)
  }

  /** The rest of the retry loop, from attempt number `attempt`. */
  function RunFrom<W>(step: Step<W>, ctx: Context, world: W, clock: nat, attempt: nat): StepRun<W>
    decreases step.retryCount + 1 - attempt
  {
    if attempt > step.retryCount then StepRun(None, world, clock, 0, 0.0, 0.0)
    else
      var a := step.action(ctx, world, clock);
      var time := Duration(a, step.timeout);
      if a.Returned? then StepRun(Some(a.result), a.world, clock + 1, 1, 0.0, time)
      else
        var pause := Pause(step, attempt);
        Prepend(RunFrom(step, ctx, a.world, clock + 1, attempt + 1), 1, pause, time + pause)
  }

  function RunStep<W>(step: Step<W>, ctx: Context, world: W, clock: nat): StepRun<W> {
    RunFrom(step, ctx, world, clock, 0)
  }

  /** A failed attempt moves into what has been spent before the rest of the loop. */
  lemma OneFailedAttempt<W>(step: Step<W>, ctx: Context, world: W, clock: nat, attempt: nat, slept: real, elapsed: real)
    requires attempt <= step.retryCount && !step.action(ctx, world, clock).Returned?
    ensures var a := step.action(ctx, world, clock);
            var time, pause := Duration(a, step.timeout), Pause(step, attempt);
      Prepend(RunFrom(step, ctx, world, clock, attempt), attempt, slept, elapsed)
      == Prepend(RunFrom(step, ctx, a.world, clock + 1, attempt + 1), attempt + 1, slept + pause, elapsed + time + pause)
  {
    hide Duration, Pause;
    var a := step.action(ctx, world, clock);
    var time, pause := Duration(a, step.timeout), Pause(step, attempt);
    PrependTwice(RunFrom(step, ctx, a.world, clock + 1, attempt + 1), 1, pause, time + pause, attempt, slept, elapsed);
  }

  lemma LastAttempt<W>(step: Step<W>, ctx: Context, world: W, clock: nat, attempt: nat, slept: real, elapsed: real)
    ensures attempt > step.retryCount ==>
      Prepend(RunFrom(step, ctx, world, clock, attempt), attempt, slept, elapsed)
      == StepRun(None, world, clock, attempt, slept, elapsed)
    ensures var a := step.action(ctx, world, clock);
      attempt <= step.retryCount && a.Returned? ==>
        Prepend(RunFrom(step, ctx, world, clock, attempt), attempt, slept, elapsed)
        == StepRun(Some(a.result), a.world, clock + 1, attempt + 1, slept, elapsed + Duration(a, step.timeout))
  {
    hide Duration, Pause;
  }

  lemma PrependTwice<W>(rest: StepRun<W>, n1: nat, s1: real, e1: real, n2: nat, s2: real, e2: real)
    ensures Prepend(Prepend(rest, n1, s1, e1), n2, s2, e2) == Prepend(rest, n1 + n2, s1 + s2, e1 + e2)
  {
  }

  /** `SagaStep.execute`. */
  method ExecuteStep<W>(step: Step<W>, ctx: Context, world0: W, clock0: nat) returns (r: StepRun<W>)
    ensures r == RunStep(step, ctx, world0, clock0)
  {
    hide Duration, Pow2, RunFrom, Prepend;
    PrependNothing(RunFrom(step, ctx, world0, clock0, 0));
    var world, clock, slept, elapsed := world0, clock0, 0.0, 0.0;
    var attempt := 0;
    while attempt <= step.retryCount
      invariant 0 <= attempt
      invariant RunStep(step, ctx, world0, clock0) ==
                Prepend(RunFrom(step, ctx, world, clock, attempt), attempt, slept, elapsed)
      decreases step.retryCount - attempt
    {
      var a := step.action(ctx, world, clock);
      var time := Duration(a, step.timeout);
      LastAttempt(step, ctx, world, clock, attempt, slept, elapsed);
      if a.Returned? {
        return StepRun(Some(a.result), a.world, clock + 1, attempt + 1, slept, elapsed + time);
      }
      OneFailedAttempt(step, ctx, world, clock, attempt, slept, elapsed);
      world, clock, elapsed := a.world, clock + 1, elapsed + time;
      if attempt < step.retryCount {
        var delay := step.retryDelay * (Pow2(attempt) as real);
        slept, elapsed := slept + delay, elapsed + delay;
      }
      attempt := attempt + 1;
    }
    LastAttempt(step, ctx, world, clock, attempt, slept, elapsed);
    r := StepRun(None, world, clock, attempt, slept, elapsed);
  }

  lemma PrependNothing<W>(rest: StepRun<W>)
    ensures Prepend(rest, 0, 0.0, 0.0) == rest
  {
  }

  /** `SagaStep.compensate`: without a compensation, or when not compensatable, it does nothing. */
  function CompensateStep<W>(step: Step<W>, ctx: Context, world: W, clock: nat): Effect<W> {
    if step.compensation.None? || !step.isCompensatable then Finished(world)
    else step.compensation.value(ctx, world, clock)
  }

  /** A compensatable step calls its compensation; any other one does nothing. */
  lemma CompensationIsCalled<W>(step: Step<W>, ctx: Context, world: W, clock: nat)
    ensures step.isCompensatable && step.compensation.Some? ==>
      CompensateStep(step, ctx, world, clock) == step.compensation.value(ctx, world, clock)
    ensures !step.isCompensatable || step.compensation.None? ==> CompensateStep(step, ctx, world, clock) == Finished(world)
  {
  }

  // ---------- what a step does ----------

  /** The world after the first `k` calls, if none of them returns. */
  function WorldAfter<W>(step: Step<W>, ctx: Context, world: W, clock: nat, k: nat): W {
    if k == 0 then world
    else
      var before := WorldAfter(step, ctx, world, clock, k - 1);
      step.action(ctx, before, clock + k - 1).world
  }

  function AttemptAt<W>(step: Step<W>, ctx: Context, world: W, clock: nat, k: nat): Attempt<W> {
    step.action(ctx, WorldAfter(step, ctx, world, clock, k), clock + k)
  }

  /** The number of attempts a step is allowed. */
  function Allowed<W>(step: Step<W>): nat {
    if step.retryCount < 0 then 0 else step.retryCount + 1
  }

  lemma {:induction false} WorldAfterShift<W>(step: Step<W>, ctx: Context, world: W, clock: nat, k: nat)
    ensures WorldAfter(step, ctx, step.action(ctx, world, clock).world, clock + 1, k) == WorldAfter(step, ctx, world, clock, k + 1)
  {
    if k > 0 {
      WorldAfterShift(step, ctx, world, clock, k - 1);
    } else {
      assert WorldAfter(step, ctx, world, clock, 0) == world;
    }
  }

  lemma AttemptShift<W>(step: Step<W>, ctx: Context, world: W, clock: nat, k: nat)
    ensures AttemptAt(step, ctx, step.action(ctx, world, clock).world, clock + 1, k) == AttemptAt(step, ctx, world, clock, k + 1)
  {
    WorldAfterShift(step, ctx, world, clock, k);
  }

  ghost predicate AllFail<W>(step: Step<W>, ctx: Context, world: W, clock: nat, n: nat) {
    forall k :: 0 <= k < n ==> !AttemptAt(step, ctx, world, clock, k).Returned?
  }

  /** `r` tells truly what the calls did: which attempts failed, and whose result and world it carries. */
  ghost predicate Truthful<W>(step: Step<W>, ctx: Context, world: W, clock: nat, allowed: nat, r: StepRun<W>) {
    && r.clock == clock + r.attempts
    && (r.outcome.None? ==>
          && r.attempts == allowed
          && AllFail(step, ctx, world, clock, allowed)
          && r.world == WorldAfter(step, ctx, world, clock, allowed))
    && (r.outcome.Some? ==>
          && 0 < r.attempts <= allowed
          && AllFail(step, ctx, world, clock, r.attempts - 1)
          && var last := AttemptAt(step, ctx, world, clock, r.attempts - 1);
             last.Returned? && r.outcome == Some(last.result) && r.world == last.world)
  }

  lemma {:induction false} RunFromTruthful<W>(step: Step<W>, ctx: Context, world: W, clock: nat, attempt: nat)
    requires attempt <= Allowed(step)
    ensures Truthful(step, ctx, world, clock, Allowed(step) - attempt, RunFrom(step, ctx, world, clock, attempt))
    decreases step.retryCount + 1 - attempt
  {
    hide Duration, Pause;
    if attempt <= step.retryCount {
      var a := step.action(ctx, world, clock);
      assert AttemptAt(step, ctx, world, clock, 0) == a;
      if !a.Returned? {
        RunFromTruthful(step, ctx, a.world, clock + 1, attempt + 1);
        var rest := RunFrom(step, ctx, a.world, clock + 1, attempt + 1);
        var failed := if rest.outcome.None? then rest.attempts else rest.attempts - 1;
        forall k | 0 <= k < failed + 1 ensures !AttemptAt(step, ctx, world, clock, k).Returned? {
          if k > 0 {
            AttemptShift(step, ctx, world, clock, k - 1);
          }
        }
        AttemptShift(step, ctx, world, clock, failed);
        WorldAfterShift(step, ctx, world, clock, rest.attempts);
      }
    }
  }

  lemma {:induction false} RunFromSlept<W>(step: Step<W>, ctx: Context, world: W, clock: nat, attempt: nat)
    requires attempt <= step.retryCount
    ensures var r, d := RunFrom(step, ctx, world, clock, attempt), step.retryDelay;
      r.attempts > 0 && r.slept == Slept(d, attempt + r.attempts - 1) - Slept(d, attempt)
    decreases step.retryCount + 1 - attempt
  {
    hide Pow2, Duration;
    var a := step.action(ctx, world, clock);
    if !a.Returned? && attempt < step.retryCount {
      RunFromSlept(step, ctx, a.world, clock + 1, attempt + 1);
      assert Slept(step.retryDelay, attempt + 1) == Slept(step.retryDelay, attempt) + Pause(step, attempt);
    }
  }

  /** How long the first `n` calls take, if none before the last returns. */
  function CallsTake<W>(step: Step<W>, ctx: Context, world: W, clock: nat, n: nat): real {
    if n == 0 then 0.0
    else CallsTake(step, ctx, world, clock, n - 1) + Duration(AttemptAt(step, ctx, world, clock, n - 1), step.timeout)
  }

  lemma {:induction false} CallsTakeShift<W>(step: Step<W>, ctx: Context, world: W, clock: nat, n: nat)
    ensures CallsTake(step, ctx, world, clock, n + 1) ==
            Duration(step.action(ctx, world, clock), step.timeout)
            + CallsTake(step, ctx, step.action(ctx, world, clock).world, clock + 1, n)
  {
    hide Duration, AttemptAt;
    if n == 0 {
      FirstAttempt(step, ctx, world, clock);
      assert CallsTake(step, ctx, world, clock, 0) == 0.0;
    } else {
      CallsTakeShift(step, ctx, world, clock, n - 1);
      AttemptShift(step, ctx, world, clock, n - 1);
    }
  }

  lemma FirstAttempt<W>(step: Step<W>, ctx: Context, world: W, clock: nat)
    ensures AttemptAt(step, ctx, world, clock, 0) == step.action(ctx, world, clock)
  {
  }

  /** The time a step takes is the time of its calls and of its pauses, no more and no less. */
  lemma {:induction false} ElapsedIs<W>(step: Step<W>, ctx: Context, world: W, clock: nat, attempt: nat)
    ensures var r := RunFrom(step, ctx, world, clock, attempt);
            r.elapsed == CallsTake(step, ctx, world, clock, r.attempts) + r.slept
    decreases step.retryCount + 1 - attempt
  {
    hide Duration, Pause, AttemptAt;
    if attempt <= step.retryCount {
      var a := step.action(ctx, world, clock);
      if a.Returned? {
        CallsTakeShift(step, ctx, world, clock, 0);
      } else {
        ElapsedIs(step, ctx, a.world, clock + 1, attempt + 1);
        CallsTakeShift(step, ctx, world, clock, RunFrom(step, ctx, a.world, clock + 1, attempt + 1).attempts);
      }
    }
  }

  lemma {:induction false} CallsTakeAtMost<W>(step: Step<W>, ctx: Context, world: W, clock: nat, n: nat)
    requires step.timeout >= 0.0
    ensures CallsTake(step, ctx, world, clock, n) <= (n as real) * step.timeout
  {
    hide AttemptAt;
    if n > 0 {
      CallsTakeAtMost(step, ctx, world, clock, n - 1);
      OneMoreCall(CallsTake(step, ctx, world, clock, n - 1),
                  Duration(AttemptAt(step, ctx, world, clock, n - 1), step.timeout), n - 1, step.timeout);
    }
  }

  lemma OneMoreCall(before: real, last: real, n: nat, timeout: real)
    requires before <= (n as real) * timeout && last <= timeout
    ensures before + last <= ((n + 1) as real) * timeout
  {
  }

  lemma SleptInAll<W>(step: Step<W>, ctx: Context, world: W, clock: nat)
    requires step.retryCount >= 0
    ensures var r := RunStep(step, ctx, world, clock);
            r.attempts > 0 && r.slept == step.retryDelay * (Pow2(r.attempts - 1) as real - 1.0)
  {
    hide RunFrom, Pow2;
    RunFromSlept(step, ctx, world, clock, 0);
    assert Slept(step.retryDelay, 0) == 0.0;
  }

  /**
   A step raises exactly when all its n+1 attempts fail, having then slept
   d(2^n - 1); succeeding on attempt index a it has slept d(2^a - 1), and its
   result and world are those of that attempt. It takes no longer than its
   attempts' timeouts and these pauses.
   */
  lemma RetryBounds<W>(step: Step<W>, ctx: Context, world: W, clock: nat)
    ensures var r, d := RunStep(step, ctx, world, clock), step.retryDelay;
      && Truthful(step, ctx, world, clock, Allowed(step), r)
      && (r.outcome.None? <==> AllFail(step, ctx, world, clock, Allowed(step)))
      && (r.outcome.None? && step.retryCount >= 0 ==> r.attempts == step.retryCount + 1)
      && (r.outcome.None? && step.retryCount >= 0 ==> r.slept == d * (Pow2(step.retryCount) as real - 1.0))
      && (r.outcome.Some? ==> r.slept == d * (Pow2(r.attempts - 1) as real - 1.0))
      && r.elapsed == CallsTake(step, ctx, world, clock, r.attempts) + r.slept
      && (step.timeout >= 0.0 ==> r.elapsed <= (r.attempts as real) * step.timeout + r.slept)
  {
    hide RunFrom, WorldAfter, AttemptAt, Slept, Pow2, CallsTake, Duration;
    RunFromTruthful(step, ctx, world, clock, 0);
    ElapsedIs(step, ctx, world, clock, 0);
    if step.timeout >= 0.0 {
      CallsTakeAtMost(step, ctx, world, clock, RunStep(step, ctx, world, clock).attempts);
    }
    if step.retryCount >= 0 {
      SleptInAll(step, ctx, world, clock);
    } else {
      assert RunStep(step, ctx, world, clock) == StepRun(None, world, clock, 0, 0.0, 0.0) by {
        NoAttempts(step, ctx, world, clock);
      }
    }
  }

  lemma NoAttempts<W>(step: Step<W>, ctx: Context, world: W, clock: nat)
    requires step.retryCount < 0
    ensures RunStep(step, ctx, world, clock) == StepRun(None, world, clock, 0, 0.0, 0.0)
  {
  }
}
