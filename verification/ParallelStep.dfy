/** The step that runs several steps at once: gathering their results, merging them, and how often each is attempted. */
module ParallelSteps {
  import opened Wrappers
  import opened SagaSteps

  /** Later results win on common keys; any error makes the whole step raise. */
  function MergeAll(results: seq<Option<Context>>): Option<Context> {
    if results == [] then Some(map[])
    else
      var before :- MergeAll(results[..|results| - 1]);
      var last :- results[|results| - 1];
      Some(before + last)
  }

  lemma {:induction false} MergeRaisesIff(results: seq<Option<Context>>)
    ensures MergeAll(results).None? <==> exists i :: 0 <= i < |results| && results[i].None?
  {
    if results != [] {
      var n := |results| - 1;
      MergeRaisesIff(results[..n]);
      if i: nat :| i < n && results[i].None? {
        assert results[..n][i].None?;
      }
    }
  }

  /** Later results win: a merged key holds the value of the last result that has it. */
  lemma {:induction false} LaterResultsWin(results: seq<Option<Context>>, key: string)
    requires MergeAll(results).Some?
    ensures var m := MergeAll(results).value;
      && (key in m <==> exists i :: 0 <= i < |results| && results[i].Some? && key in results[i].value)
      && (key in m ==> exists i :: LastWith(results, key, i) && m[key] == results[i].value[key])
  {
    MergeRaisesIff(results);
    if results != [] {
      var n := |results| - 1;
      var before, last := results[..n], results[n].value;
      LaterResultsWin(before, key);
      if key in last {
        assert LastWith(results, key, n);
      } else if key in MergeAll(before).value {
        var i :| LastWith(before, key, i) && MergeAll(before).value[key] == before[i].value[key];
        assert LastWith(results, key, i);
      }
    }
  }

  /** Result number `i` is the last one with this key. */
  predicate LastWith(results: seq<Option<Context>>, key: string, i: int) {
    && 0 <= i < |results| && results[i].Some? && key in results[i].value
    && forall j :: i < j < |results| ==> !(results[j].Some? && key in results[j].value)
  }

  /** Every index of the sub-steps once: an order in which they can complete. */
  predicate CompletionOrder(order: seq<nat>, n: nat) {
    && |order| == n
    && (forall i :: 0 <= i < n ==> order[i] < n)
    && (forall i, j :: 0 <= i < j < n ==> order[i] != order[j])
  }

  ghost function Upto(n: nat): (s: set<nat>)
    ensures |s| == n && forall k: nat :: k in s <==> k < n
  {
    if n == 0 then {} else Upto(n - 1) + {n - 1}
  }

  ghost function ElementsOf(order: seq<nat>, k: nat): (s: set<nat>)
    requires k <= |order| && forall i, j :: 0 <= i < j < |order| ==> order[i] != order[j]
    ensures |s| == k && forall i :: i in s <==> i in order[..k]
  {
    if k == 0 then {}
    else
      assert order[..k] == order[..k - 1] + [order[k - 1]];
      ElementsOf(order, k - 1) + {order[k - 1]}
  }

  lemma SubsetOfSameSize(a: set<nat>, b: set<nat>)
    requires a <= b && |a| == |b|
    ensures a == b
  {
    assert b == a + (b - a) && |b| == |a| + |b - a|;
  }

  lemma OrderCovers(order: seq<nat>, n: nat)
    requires CompletionOrder(order, n)
    ensures forall i :: 0 <= i < n ==> i in order
  {
    var s := ElementsOf(order, n);
    assert order[..n] == order;
    assert s <= Upto(n);
    SubsetOfSameSize(s, Upto(n));
  }

  /**
   `asyncio.gather` and the merge loop: results arrive in any order, each in the
   slot of its own step, and are merged by position. The result does not mention
   the order.
   */
  method RunParallel(outcomes: seq<Option<Context>>, order: seq<nat>) returns (r: Option<Context>)
    requires CompletionOrder(order, |outcomes|)
    ensures r == MergeAll(outcomes)
  {
    var n := |outcomes|;
    var slots := new Option<Context>[n](_ => None);
    for k := 0 to n
      invariant forall j :: 0 <= j < k ==> slots[order[j]] == outcomes[order[j]]
    {
      slots[order[k]] := outcomes[order[k]];
    }
    OrderCovers(order, n);
    forall i | 0 <= i < n ensures slots[i] == outcomes[i] {
      var index: nat := i;
      assert index in order;
      var j :| 0 <= j < |order| && order[j] == index;
    }
    assert slots[..] == outcomes;
    var combined: Context := map[];
    var errors := 0;
    for i := 0 to n
      invariant slots[..] == outcomes
      invariant errors == 0 <==> MergeAll(outcomes[..i]).Some?
      invariant errors == 0 ==> MergeAll(outcomes[..i]) == Some(combined)
    {
      assert outcomes[..i + 1][..i] == outcomes[..i] && outcomes[..i + 1][i] == slots[i];
      if slots[i].None? {
        errors := errors + 1;
      } else {
        combined := combined + slots[i].value;
      }
    }
    assert outcomes[..n] == outcomes;
    r := if errors > 0 then None else Some(combined);
  }

  // ---------- running the sub-steps ----------

  /** How far a sub-step is: the attempts it has made and, once it has ended, its result, none if it raised. */
  datatype Run = Trying(attempts: nat) | Ended(attempts: nat, outcome: Option<Context>)

  datatype Subs<+W> = Subs(runs: seq<Run>, world: W)

  /** One call of a sub-step's action, and when it is made. */
  datatype Turn = Turn(sub: nat, time: nat)

  /** The calls in the order they are made, and how long they take together. */
  datatype Schedule = Schedule(turns: seq<Turn>, took: real)

  function AtStart<W>(steps: seq<Step<W>>): seq<Run> {
    seq(|steps|, i requires 0 <= i < |steps| => if Allowed(steps[i]) == 0 then Ended(0, None) else Trying(0))
  }

  function AfterCall<W>(step: Step<W>, attempts: nat, a: Attempt<W>): Run {
    if a.Returned? then Ended(attempts + 1, Some(a.result))
    else if attempts + 1 < Allowed(step) then Trying(attempts + 1)
    else Ended(attempts + 1, None)
  }

  function TakeTurn<W>(steps: seq<Step<W>>, ctx: Context, s: Subs<W>, t: Turn): Subs<W>
    requires |s.runs| == |steps|
  {
    if t.sub >= |steps| || s.runs[t.sub].Ended? then s
    else
      var a := steps[t.sub].action(ctx, s.world, t.time);
      Subs(s.runs[t.sub := AfterCall(steps[t.sub], s.runs[t.sub].attempts, a)], a.world)
  }

  /** The sub-steps, all acting on the one world, after these calls. */
  function Play<W>(steps: seq<Step<W>>, ctx: Context, world: W, turns: seq<Turn>): (s: Subs<W>)
    ensures |s.runs| == |steps|
  {
    if turns == [] then Subs(AtStart(steps), world)
    else TakeTurn(steps, ctx, Play(steps, ctx, world, turns[..|turns| - 1]), turns[|turns| - 1])
  }

  predicate AllEnded(runs: seq<Run>) {
    forall i :: 0 <= i < |runs| ==> runs[i].Ended?
  }

  predicate AllSucceeded(runs: seq<Run>) {
    forall i :: 0 <= i < |runs| ==> runs[i].Ended? && runs[i].outcome.Some?
  }

  function OutcomesOf(runs: seq<Run>): seq<Option<Context>> {
    seq(|runs|, i requires 0 <= i < |runs| => if runs[i].Ended? then runs[i].outcome else None)
  }

  /** How the attempt ends: a schedule that leaves a sub-step unfinished is one that the timeout cuts off. */
  function Gathered<W>(s: Subs<W>, took: real): Attempt<W> {
    if !AllEnded(s.runs) then TimedOut(s.world)
    else
      match MergeAll(OutcomesOf(s.runs))
      case None => Raised(s.world, took)
      case Some(merged) => Returned(merged, s.world, took)
  }

  function ParallelAction<W>(steps: seq<Step<W>>, schedule: nat -> Schedule): (Context, W, nat) -> Attempt<W> {
    (ctx: Context, w: W, t: nat) => Gathered(Play(steps, ctx, w, schedule(t).turns), schedule(t).took)
  }

  /** A parallel step with its retry parameters; its attempt at time `t` makes the calls of `schedule(t)`. */
  function ParallelStep<W>(name: string, steps: seq<Step<W>>, retryCount: int, retryDelay: real, timeout: real,
                           compensation: Option<(Context, W, nat) -> Effect<W>>, schedule: nat -> Schedule): Step<W>
  {
    Step(name, retryCount, retryDelay, timeout, true, ParallelAction(steps, schedule), compensation)
  }

  predicate RunOk<W>(step: Step<W>, run: Run) {
    && run.attempts <= Allowed(step)
    && (run.Trying? ==> run.attempts < Allowed(step))
    && (run.Ended? && run.outcome.None? ==> run.attempts == Allowed(step))
  }

  /** Under every interleaving, a sub-step makes at most its n+1 attempts, and raises only after all of them. */
  lemma {:induction false} SubStepsAreBounded<W>(steps: seq<Step<W>>, ctx: Context, world: W, turns: seq<Turn>)
    ensures var s := Play(steps, ctx, world, turns);
            forall i :: 0 <= i < |steps| ==> RunOk(steps[i], s.runs[i])
  {
    if turns != [] {
      SubStepsAreBounded(steps, ctx, world, turns[..|turns| - 1]);
    }
  }

  /** An attempt of the parallel step succeeds exactly when every sub-step has ended in time without raising. */
  lemma AttemptReturnsIff<W>(steps: seq<Step<W>>, schedule: nat -> Schedule, ctx: Context, w: W, t: nat)
    ensures var a, runs := ParallelAction(steps, schedule)(ctx, w, t), Play(steps, ctx, w, schedule(t).turns).runs;
      && (a.Returned? <==> AllSucceeded(runs))
      && (a.TimedOut? <==> !AllEnded(runs))
      && (a.Returned? ==> Some(a.result) == MergeAll(OutcomesOf(runs)))
      && a.world == Play(steps, ctx, w, schedule(t).turns).world
  {
    hide Play, MergeAll, Gathered, OutcomesOf;
    var s := Play(steps, ctx, w, schedule(t).turns);
    assert ParallelAction(steps, schedule)(ctx, w, t) == Gathered(s, schedule(t).took);
    GatheredIff(s, schedule(t).took);
  }

  lemma GatheredIff<W>(s: Subs<W>, took: real)
    ensures var a := Gathered(s, took);
      && (a.Returned? <==> AllSucceeded(s.runs))
      && (a.TimedOut? <==> !AllEnded(s.runs))
      && (a.Returned? ==> Some(a.result) == MergeAll(OutcomesOf(s.runs)))
      && a.world == s.world
  {
    hide MergeAll, OutcomesOf;
    if AllEnded(s.runs) {
      MergedIff(s.runs);
    }
  }

  /** Ended sub-steps merge exactly when none of them raised. */
  lemma MergedIff(runs: seq<Run>)
    requires AllEnded(runs)
    ensures MergeAll(OutcomesOf(runs)).Some? <==> AllSucceeded(runs)
  {
    hide MergeAll;
    var outcomes := OutcomesOf(runs);
    MergeRaisesIff(outcomes);
    forall i | 0 <= i < |runs| ensures outcomes[i] == runs[i].outcome {
    }
    if i :| 0 <= i < |runs| && runs[i].outcome.None? {
      assert outcomes[i].None?;
    }
  }

  /** `n` calls of one sub-step in a row. */
  function Alone(i: nat, time: nat, n: nat): seq<Turn> {
    if n == 0 then [] else Alone(i, time, n - 1) + [Turn(i, time + n - 1)]
  }

  lemma {:induction false} AloneLength(i: nat, t: nat, n: nat)
    ensures |Alone(i, t, n)| == n
  {
    if n > 0 {
      AloneLength(i, t, n - 1);
    }
  }

  lemma AloneOneMore<W>(steps: seq<Step<W>>, i: nat, ctx: Context, w: W, t: nat, n: nat)
    ensures Play(steps, ctx, w, Alone(i, t, n + 1)) == TakeTurn(steps, ctx, Play(steps, ctx, w, Alone(i, t, n)), Turn(i, t + n))
  {
    hide TakeTurn;
    AloneLength(i, t, n);
    assert Alone(i, t, n + 1)[..n] == Alone(i, t, n);
  }

  lemma {:induction false} AloneFails<W>(steps: seq<Step<W>>, i: nat, ctx: Context, w: W, t: nat, n: nat)
    requires i < |steps| && n <= Allowed(steps[i]) && AllFail(steps[i], ctx, w, t, n)
    ensures var s := Play(steps, ctx, w, Alone(i, t, n));
      && s.world == WorldAfter(steps[i], ctx, w, t, n)
      && s.runs[i] == if n < Allowed(steps[i]) then Trying(n) else Ended(n, None)
  {
    hide Allowed, Play, Alone;
    if n == 0 {
      AloneLength(i, t, 0);
      PlayNothing(steps, ctx, w, Alone(i, t, 0));
    } else {
      AloneFails(steps, i, ctx, w, t, n - 1);
      AloneOneMore(steps, i, ctx, w, t, n - 1);
      assert !AttemptAt(steps[i], ctx, w, t, n - 1).Returned?;
    }
  }

  lemma PlayNothing<W>(steps: seq<Step<W>>, ctx: Context, w: W, turns: seq<Turn>)
    requires turns == []
    ensures Play(steps, ctx, w, turns) == Subs(AtStart(steps), w)
  {
  }

  /** A sub-step that nothing comes between is `SagaStep.execute`: same attempts, same result, same world. */
  lemma AloneIsRunStep<W>(steps: seq<Step<W>>, i: nat, ctx: Context, w: W, t: nat)
    requires i < |steps|
    ensures var r := RunStep(steps[i], ctx, w, t);
            var s := Play(steps, ctx, w, Alone(i, t, r.attempts));
            s.world == r.world && s.runs[i] == Ended(r.attempts, r.outcome)
  {
    hide RunStep, Allowed, Play, Alone, AllFail;
    var r := RunStep(steps[i], ctx, w, t);
    RetryBounds(steps[i], ctx, w, t);
    if r.outcome.None? {
      AloneFails(steps, i, ctx, w, t, r.attempts);
    } else {
      var n := r.attempts;
      AloneFails(steps, i, ctx, w, t, n - 1);
      AloneOneMore(steps, i, ctx, w, t, n - 1);
      assert AttemptAt(steps[i], ctx, w, t, n - 1).Returned?;
    }
  }

  // ---------- nested retries ----------

  /** Sub-step `i` in attempt number `k` of the parallel step's own retry loop. */
  function InnerRun<W>(steps: seq<Step<W>>, i: nat, outer: Step<W>, schedule: nat -> Schedule,
                       ctx: Context, world: W, clock: nat, k: nat): Run
    requires i < |steps|
  {
    Play(steps, ctx, WorldAfter(outer, ctx, world, clock, k), schedule(clock + k).turns).runs[i]
  }

  /** How often sub-step `i` is attempted over the first `n` attempts of the parallel step. */
  function TotalAttempts<W>(steps: seq<Step<W>>, i: nat, outer: Step<W>, schedule: nat -> Schedule,
                            ctx: Context, world: W, clock: nat, n: nat): nat
    requires i < |steps|
  {
    if n == 0 then 0
    else
      var before := TotalAttempts(steps, i, outer, schedule, ctx, world, clock, n - 1);
      before + InnerRun(steps, i, outer, schedule, ctx, world, clock, n - 1).attempts
  }

  ghost predicate Exhausts<W>(steps: seq<Step<W>>, i: nat, outer: Step<W>, schedule: nat -> Schedule,
                              ctx: Context, world: W, clock: nat, n: nat)
    requires i < |steps|
  {
    forall k :: 0 <= k < n ==> InnerRun(steps, i, outer, schedule, ctx, world, clock, k).attempts == Allowed(steps[i])
  }

  lemma {:induction false} TotalIsBounded<W>(steps: seq<Step<W>>, i: nat, outer: Step<W>, schedule: nat -> Schedule,
                                             ctx: Context, world: W, clock: nat, n: nat)
    requires i < |steps|
    ensures var total := TotalAttempts(steps, i, outer, schedule, ctx, world, clock, n);
      && total <= n * Allowed(steps[i])
      && (total == n * Allowed(steps[i]) <==> Exhausts(steps, i, outer, schedule, ctx, world, clock, n))
  {
    hide Allowed, InnerRun;
    if n > 0 {
      TotalIsBounded(steps, i, outer, schedule, ctx, world, clock, n - 1);
      InnerRunIsBounded(steps, i, outer, schedule, ctx, world, clock, n - 1);
      assert n * Allowed(steps[i]) == (n - 1) * Allowed(steps[i]) + Allowed(steps[i]);
    }
  }

  lemma InnerRunIsBounded<W>(steps: seq<Step<W>>, i: nat, outer: Step<W>, schedule: nat -> Schedule,
                             ctx: Context, world: W, clock: nat, k: nat)
    requires i < |steps|
    ensures RunOk(steps[i], InnerRun(steps, i, outer, schedule, ctx, world, clock, k))
  {
    hide Play, RunOk;
    SubStepsAreBounded(steps, ctx, WorldAfter(outer, ctx, world, clock, k), schedule(clock + k).turns);
  }

  /**
   A sub-action of a parallel step with R outer and r inner retries is attempted
   at most (R+1)(r+1) times, whatever the interleavings. It is attempted exactly
   so often if and only if the parallel step makes all its attempts and the
   sub-step uses up all its own in each of them; and that is what happens when
   the sub-step raises every time, for then every attempt of the parallel step
   fails too.
   */
  lemma NestedRetryBound<W>(name: string, steps: seq<Step<W>>, i: nat, retryCount: int, retryDelay: real, timeout: real,
                            compensation: Option<(Context, W, nat) -> Effect<W>>, schedule: nat -> Schedule,
                            ctx: Context, world: W, clock: nat)
    requires i < |steps|
    ensures var outer := ParallelStep(name, steps, retryCount, retryDelay, timeout, compensation, schedule);
            var r := RunStep(outer, ctx, world, clock);
            var total := TotalAttempts(steps, i, outer, schedule, ctx, world, clock, r.attempts);
      && total <= Allowed(outer) * Allowed(steps[i])
      && (Allowed(steps[i]) > 0 ==>
            (total == Allowed(outer) * Allowed(steps[i]) <==>
              r.attempts == Allowed(outer) && Exhausts(steps, i, outer, schedule, ctx, world, clock, r.attempts)))
      && ((forall k :: 0 <= k < Allowed(outer) ==>
             var inner := InnerRun(steps, i, outer, schedule, ctx, world, clock, k);
             inner.Ended? && inner.outcome.None?) ==>
            r.outcome.None? && total == Allowed(outer) * Allowed(steps[i]))
  {
    hide RunStep, Allowed, TotalAttempts, InnerRun, AllFail, RunOk;
    var outer := ParallelStep(name, steps, retryCount, retryDelay, timeout, compensation, schedule);
    var r := RunStep(outer, ctx, world, clock);
    RetryBounds(outer, ctx, world, clock);
    TotalIsBounded(steps, i, outer, schedule, ctx, world, clock, r.attempts);
    ProductGrows(r.attempts, Allowed(outer), Allowed(steps[i]));
    if forall k :: 0 <= k < Allowed(outer) ==>
         var inner := InnerRun(steps, i, outer, schedule, ctx, world, clock, k);
         inner.Ended? && inner.outcome.None?
    {
      InnerFailuresFail(steps, i, outer, schedule, ctx, world, clock, Allowed(outer));
    }
  }

  /** Attempts in which sub-step `i` raises are failed attempts of the parallel step, and use up the sub-step's own. */
  lemma InnerFailuresFail<W>(steps: seq<Step<W>>, i: nat, outer: Step<W>, schedule: nat -> Schedule,
                             ctx: Context, world: W, clock: nat, n: nat)
    requires i < |steps| && outer.action == ParallelAction(steps, schedule)
    requires forall k :: 0 <= k < n ==>
      var inner := InnerRun(steps, i, outer, schedule, ctx, world, clock, k);
      inner.Ended? && inner.outcome.None?
    ensures AllFail(outer, ctx, world, clock, n) && Exhausts(steps, i, outer, schedule, ctx, world, clock, n)
  {
    hide Allowed, Play, WorldAfter;
    forall k | 0 <= k < n
      ensures !AttemptAt(outer, ctx, world, clock, k).Returned?
      ensures InnerRun(steps, i, outer, schedule, ctx, world, clock, k).attempts == Allowed(steps[i])
    {
      var inner := InnerRun(steps, i, outer, schedule, ctx, world, clock, k);
      assert inner.Ended? && inner.outcome.None?;
      AttemptReturnsIff(steps, schedule, ctx, WorldAfter(outer, ctx, world, clock, k), clock + k);
      InnerRunIsBounded(steps, i, outer, schedule, ctx, world, clock, k);
    }
  }

  lemma ProductGrows(a: nat, b: nat, c: nat)
    requires a <= b
    ensures a * c <= b * c
    ensures c > 0 ==> (a * c == b * c <==> a == b)
  {
  }
}
