/** A saga run: steps forward, and after a failure the completed ones compensated in reverse. */
module SagaInstances {
  import opened Wrappers
  import opened TaskEvents
  import opened SagaSteps

  datatype SagaStatus = Pending | Running | Completed | Failed | Compensating | Compensated | Cancelled

  type Callback<!W> = (Context, W, nat) -> Effect<W>

  datatype Saga<!W> = Saga(name: string, steps: seq<Step<W>>, onSuccess: Option<Callback<W>>, onFailure: Option<Callback<W>>)

  /** The observable acts of a run, with the index of the step concerned. */
  datatype Act = Did(step: nat) | GaveUp(step: nat) | Compensate(step: nat, ok: bool)

  // ---------- forward ----------

  /** Where the forward loop got to: `done` steps completed, and whether the next one raised. */
  datatype Forward<+W> = Forward(done: nat, raised: bool, context: Context, world: W, clock: nat)

  function RunSteps<W>(steps: seq<Step<W>>, i: nat, ctx: Context, world: W, clock: nat): (f: Forward<W>)
    requires i <= |steps|
    ensures i <= f.done <= |steps| && (f.raised <==> f.done < |steps|)
    decreases |steps| - i
  {
    if i == |steps| then Forward(i, false, ctx, world, clock)
    else
      var c := ctx["current_step" := JString(steps[i].name)];
      var r := RunStep(steps[i], c, world, clock);
      if r.outcome.None? then Forward(i, true, c, r.world, r.clock)
      else RunSteps(steps, i + 1, c + r.outcome.value, r.world, r.clock)
  }

  // ---------- backward ----------

  /** The compensation loop over steps `k-1` down to `lo`; `oks` tells, in that order, which compensations finished. */
  datatype Backward<+W> = Backward(oks: seq<bool>, world: W, clock: nat)

  function Unwind<W>(steps: seq<Step<W>>, k: nat, lo: nat, ctx: Context, world: W, clock: nat): (b: Backward<W>)
    requires lo <= k <= |steps|
    ensures |b.oks| == k - lo
    decreases k - lo
  {
    if k == lo then Backward([], world, clock)
    else
      var later := Unwind(steps, k, lo + 1, ctx, world, clock);
      var e := CompensateStep(steps[lo], ctx, later.world, later.clock);
      Backward(later.oks + [e.Finished?], e.world, later.clock + 1)
  }

  predicate AllOk(oks: seq<bool>) {
    forall i :: 0 <= i < |oks| ==> oks[i]
  }

  function CallBack<W>(f: Option<Callback<W>>, ctx: Context, world: W, clock: nat): Effect<W> {
    if f.None? then Finished(world) else f.value(ctx, world, clock)
  }

  // ---------- the whole run ----------

  /**
   How a run ends. `escaped`: the exception of `on_success` leaves `execute`,
   which happens when there is no step to blame it on.
   */
  datatype Final<+W> = Final(status: SagaStatus, escaped: bool, done: nat, raised: bool, callbackRaised: bool,
                             oks: seq<bool>, context: Context, world: W)

  /** Compensating the `done` completed steps, then the failure callback, whose own exception is swallowed. */
  function Rewind<W>(saga: Saga<W>, f: Forward<W>, world: W, clock: nat): Final<W>
    requires f.done <= |saga.steps|
  {
    var b := Unwind(saga.steps, f.done, 0, f.context, world, clock);
    Final(if AllOk(b.oks) then Compensated else Failed, false, f.done, f.raised, !f.raised, b.oks, f.context,
          CallBack(saga.onFailure, f.context, b.world, b.clock).world)
  }

  function RunSaga<W>(saga: Saga<W>, ctx: Context, world: W, clock: nat): Final<W> {
    var f := RunSteps(saga.steps, 0, ctx, world, clock);
    if f.raised then Rewind(saga, f, f.world, f.clock)
    else
      var e := CallBack(saga.onSuccess, f.context, f.world, f.clock);
      if e.Finished? then Final(Completed, false, f.done, false, false, [], f.context, e.world)
      else if saga.steps == [] then Final(Completed, true, 0, false, true, [], f.context, e.world)
      else Rewind(saga, f, e.world, f.clock + 1)
  }

  function Dids(done: nat): (s: seq<Act>)
    ensures |s| == done && forall i :: 0 <= i < done ==> s[i] == Did(i)
  {
    if done == 0 then [] else Dids(done - 1) + [Did(done - 1)]
  }

  function Undos(done: nat, oks: seq<bool>): (s: seq<Act>)
    requires |oks| <= done
    ensures |s| == |oks| && forall j :: 0 <= j < |oks| ==> s[j] == Compensate(done - 1 - j, oks[j])
  {
    if oks == [] then []
    else Undos(done, oks[..|oks| - 1]) + [Compensate(done - |oks|, oks[|oks| - 1])]
  }

  /** The acts of a run that completed `done` steps of a saga. */
  function Story(done: nat, raised: bool, oks: seq<bool>): seq<Act>
    requires |oks| <= done
  {
    Dids(done) + (if raised then [GaveUp(done)] else []) + Undos(done, oks)
  }

  lemma UndosSnoc(done: nat, oks: seq<bool>, ok: bool)
    requires |oks| < done
    ensures Undos(done, oks + [ok]) == Undos(done, oks) + [Compensate(done - 1 - |oks|, ok)]
    ensures AllOk(oks + [ok]) <==> AllOk(oks) && ok
  {
    assert (oks + [ok])[..|oks|] == oks && (oks + [ok])[|oks|] == ok;
    if AllOk(oks + [ok]) {
      assert forall i :: 0 <= i < |oks| ==> (oks + [ok])[i] == oks[i];
    }
  }

  /**
   For every saga and every pattern of failures, the last status the engine
   writes is COMPLETED exactly when nothing failed (or the success callback of an
   empty saga raised), COMPENSATED exactly when something failed and every
   compensation finished, FAILED exactly when something failed and a compensation
   raised.
   */
  lemma StatusTellsOutcome<W>(saga: Saga<W>, ctx: Context, world: W, clock: nat)
    ensures var r := RunSaga(saga, ctx, world, clock);
            var failed := r.raised || r.callbackRaised;
      && (r.escaped <==> saga.steps == [] && r.callbackRaised)
      && (r.status == Completed <==> !failed || r.escaped)
      && (r.status == Compensated <==> failed && !r.escaped && AllOk(r.oks))
      && (r.status == Failed <==> failed && !r.escaped && !AllOk(r.oks))
      && (r.raised <==> r.done < |saga.steps|)
      && |r.oks| == if failed && !r.escaped then r.done else 0
  {
  }

  /**
   In a run's story the completed actions are the first steps in order, and each
   of them, if any, is compensated once, the last one first.
   */
  lemma StoryShape(done: nat, raised: bool, oks: seq<bool>)
    requires |oks| == done || oks == []
    ensures var s, n := Story(done, raised, oks), done + (if raised then 1 else 0);
      && |s| == n + |oks|
      && (forall i :: 0 <= i < done ==> s[i] == Did(i))
      && (raised ==> s[done] == GaveUp(done))
      && (forall j :: 0 <= j < |oks| ==> s[n + j] == Compensate(done - 1 - j, oks[j]))
  {
  }

  // ---------- which calls a run makes ----------

  /** What the next step of a run would start from. */
  datatype Place<+W> = Place(context: Context, world: W, clock: nat)

  /** Step number `i`, executed where the steps before it, each executed in turn, lead. */
  function RunAt<W>(steps: seq<Step<W>>, i: nat, start: Place<W>): StepRun<W>
    requires i < |steps|
    decreases i, 1
  {
    var p := Reached(steps, i, start);
    RunStep(steps[i], p.context["current_step" := JString(steps[i].name)], p.world, p.clock)
  }

  function Reached<W>(steps: seq<Step<W>>, i: nat, start: Place<W>): Place<W>
    requires i <= |steps|
    decreases i, 0
  {
    if i == 0 then start
    else
      var r := RunAt(steps, i - 1, start);
      var c := Reached(steps, i - 1, start).context["current_step" := JString(steps[i - 1].name)];
      Place(if r.outcome.Some? then c + r.outcome.value else c, r.world, r.clock)
  }

  lemma {:induction false} ForwardFrom<W>(steps: seq<Step<W>>, i: nat, start: Place<W>)
    requires i <= |steps|
    ensures var p := Reached(steps, i, start);
            var f := RunSteps(steps, i, p.context, p.world, p.clock);
      && (forall k :: i <= k < f.done ==> RunAt(steps, k, start).outcome.Some?)
      && (f.raised ==> RunAt(steps, f.done, start).outcome.None?)
      && Place(f.context, f.world, f.clock) == Reached(steps, if f.raised then f.done + 1 else f.done, start)
    decreases |steps| - i
  {
    hide RunStep;
    if i < |steps| && RunAt(steps, i, start).outcome.Some? {
      ForwardFrom(steps, i + 1, start);
    }
  }

  /**
   The forward loop completes exactly the steps before the first one that raises
   at its turn, all of them if none does, and ends where those executions lead.
   */
  lemma FirstFailureStops<W>(steps: seq<Step<W>>, ctx: Context, world: W, clock: nat)
    ensures var f, start := RunSteps(steps, 0, ctx, world, clock), Place(ctx, world, clock);
      && (!f.raised <==> forall i :: 0 <= i < |steps| ==> RunAt(steps, i, start).outcome.Some?)
      && (forall i :: 0 <= i < f.done ==> RunAt(steps, i, start).outcome.Some?)
      && (f.raised ==> RunAt(steps, f.done, start).outcome.None?)
      && Place(f.context, f.world, f.clock) == Reached(steps, if f.raised then f.done + 1 else f.done, start)
  {
    hide RunSteps, RunAt;
    ForwardFrom(steps, 0, Place(ctx, world, clock));
  }

  /** The world after compensating the last `j` of `done` steps, the last one first. */
  function Undone<W>(steps: seq<Step<W>>, done: nat, j: nat, ctx: Context, world: W, clock: nat): W
    requires j <= done <= |steps|
  {
    if j == 0 then world
    else CompensateStep(steps[done - j], ctx, Undone(steps, done, j - 1, ctx, world, clock), clock + j - 1).world
  }

  /** Compensation number `j` is that of step `done - 1 - j`, in the world the ones before it left, whether or not they raised. */
  lemma {:induction false} EachUndoneInTurn<W>(steps: seq<Step<W>>, done: nat, lo: nat, ctx: Context, world: W, clock: nat)
    requires lo <= done <= |steps|
    ensures var b := Unwind(steps, done, lo, ctx, world, clock);
      && b.world == Undone(steps, done, done - lo, ctx, world, clock) && b.clock == clock + (done - lo)
      && forall j :: 0 <= j < done - lo ==>
           b.oks[j] == CompensateStep(steps[done - 1 - j], ctx, Undone(steps, done, j, ctx, world, clock), clock + j).Finished?
    decreases done - lo
  {
    hide CompensateStep;
    if lo < done {
      EachUndoneInTurn(steps, done, lo + 1, ctx, world, clock);
    }
  }

  // ---------- the callbacks ----------

  predicate NoneRaises<W>(steps: seq<Step<W>>, start: Place<W>) {
    forall i :: 0 <= i < |steps| ==> RunAt(steps, i, start).outcome.Some?
  }

  /** The number of steps that complete: the first ones that do not raise at their turn. */
  predicate Completes<W>(steps: seq<Step<W>>, start: Place<W>, done: nat) {
    && done < |steps| && RunAt(steps, done, start).outcome.None?
    && forall i :: 0 <= i < done ==> RunAt(steps, i, start).outcome.Some?
  }

  /** Every compensation of the last `done` steps finishes, each in the world the ones before it left. */
  predicate AllUndone<W>(steps: seq<Step<W>>, done: nat, ctx: Context, world: W, clock: nat)
    requires done <= |steps|
  {
    forall j :: 0 <= j < done ==>
      CompensateStep(steps[done - 1 - j], ctx, Undone(steps, done, j, ctx, world, clock), clock + j).Finished?
  }

  lemma AllUndoneIff<W>(steps: seq<Step<W>>, done: nat, ctx: Context, world: W, clock: nat)
    requires done <= |steps|
    ensures AllOk(Unwind(steps, done, 0, ctx, world, clock).oks) <==> AllUndone(steps, done, ctx, world, clock)
  {
    hide Unwind, CompensateStep, Undone;
    EachUndoneInTurn(steps, done, 0, ctx, world, clock);
    var oks := Unwind(steps, done, 0, ctx, world, clock).oks;
    if AllUndone(steps, done, ctx, world, clock) {
      assert forall j :: 0 <= j < done ==> oks[j];
    }
    if AllOk(oks) {
      assert forall j :: 0 <= j < done ==> oks[j];
    }
  }

  /** The first failure decides how far the forward loop gets. */
  lemma CompletesExactly<W>(steps: seq<Step<W>>, ctx: Context, world: W, clock: nat, done: nat)
    requires Completes(steps, Place(ctx, world, clock), done)
    ensures var f := RunSteps(steps, 0, ctx, world, clock); f.raised && f.done == done
  {
    hide RunSteps, RunAt;
    FirstFailureStops(steps, ctx, world, clock);
  }

  /**
   When no step raises, `on_success` is called once, on what the steps left. If
   it returns, or there is none, the saga is COMPLETED in the world it left; if
   it raises, every step is compensated from that world on, and then
   `on_failure` is called on what the compensations left.
   */
  lemma SuccessIsCalled<W>(saga: Saga<W>, ctx: Context, world: W, clock: nat)
    requires NoneRaises(saga.steps, Place(ctx, world, clock))
    ensures var r, n := RunSaga(saga, ctx, world, clock), |saga.steps|;
            var p := Reached(saga.steps, n, Place(ctx, world, clock));
      && !r.raised && r.done == n && r.context == p.context
      && (saga.onSuccess.None? ==> !r.callbackRaised && r.status == Completed && r.world == p.world)
      && (saga.onSuccess.Some? ==>
            var e := saga.onSuccess.value(p.context, p.world, p.clock);
            && (r.callbackRaised <==> e.Broke?)
            && (e.Finished? || n == 0 ==> r.status == Completed && r.world == e.world)
            && (e.Broke? && n > 0 ==>
                  var undone := Undone(saga.steps, n, n, p.context, e.world, p.clock + 1);
                  && r.status == (if AllUndone(saga.steps, n, p.context, e.world, p.clock + 1) then Compensated else Failed)
                  && (saga.onFailure.None? ==> r.world == undone)
                  && (saga.onFailure.Some? ==> r.world == saga.onFailure.value(p.context, undone, p.clock + 1 + n).world)))
  {
    hide RunSteps, RunAt, Undone, Unwind, AllOk, Reached, AllUndone;
    FirstFailureStops(saga.steps, ctx, world, clock);
    var f := RunSteps(saga.steps, 0, ctx, world, clock);
    assert !f.raised;
    var e := CallBack(saga.onSuccess, f.context, f.world, f.clock);
    EachUndoneInTurn(saga.steps, f.done, 0, f.context, e.world, f.clock + 1);
    AllUndoneIff(saga.steps, f.done, f.context, e.world, f.clock + 1);
  }

  /** When a step raises, the completed ones are compensated from there on, and then `on_failure` is called on what that left; `on_success` is not. */
  lemma FailureIsCalled<W>(saga: Saga<W>, ctx: Context, world: W, clock: nat, done: nat)
    requires Completes(saga.steps, Place(ctx, world, clock), done)
    ensures var r, p := RunSaga(saga, ctx, world, clock), Reached(saga.steps, done + 1, Place(ctx, world, clock));
            var undone := Undone(saga.steps, done, done, p.context, p.world, p.clock);
      && r.raised && r.done == done && r.context == p.context && !r.callbackRaised
      && r.status == (if AllUndone(saga.steps, done, p.context, p.world, p.clock) then Compensated else Failed)
      && (saga.onFailure.None? ==> r.world == undone)
      && (saga.onFailure.Some? ==> r.world == saga.onFailure.value(p.context, undone, p.clock + done).world)
  {
    hide RunSteps, RunAt, Undone, Unwind, AllOk, Reached, AllUndone;
    CompletesExactly(saga.steps, ctx, world, clock, done);
    FirstFailureStops(saga.steps, ctx, world, clock);
    var f := RunSteps(saga.steps, 0, ctx, world, clock);
    EachUndoneInTurn(saga.steps, done, 0, f.context, f.world, f.clock);
    AllUndoneIff(saga.steps, done, f.context, f.world, f.clock);
  }

  /** Every run is of one of these two kinds. */
  lemma {:induction false} RaisesOrNot<W>(steps: seq<Step<W>>, ctx: Context, world: W, clock: nat)
    ensures NoneRaises(steps, Place(ctx, world, clock)) || exists done :: Completes(steps, Place(ctx, world, clock), done)
  {
    hide RunSteps, RunAt;
    FirstFailureStops(steps, ctx, world, clock);
    var f := RunSteps(steps, 0, ctx, world, clock);
    if f.raised {
      assert Completes(steps, Place(ctx, world, clock), f.done);
    }
  }

  // ---------- the status, with cancels in between ----------

  /** The awaits of a run that `cancel_saga` can come between: step executions, compensations and the two callbacks. */
  datatype Await = DuringStep(step: nat) | DuringCompensation(step: nat) | DuringSuccess | DuringFailure

  /** One write of an instance's status. */
  datatype Write = ByEngine(status: SagaStatus) | ByCancel

  /** Several cancels at one await write what one of them writes. */
  function CancelAt(cancels: Await -> bool, a: Await): seq<Write> {
    if cancels(a) then [ByCancel] else []
  }

  /** The cancels that come while the first `n` steps are executed. */
  function CancelsInSteps(cancels: Await -> bool, n: nat): (h: seq<Write>)
    ensures forall i :: 0 <= i < |h| ==> h[i] == ByCancel
  {
    if n == 0 then [] else CancelsInSteps(cancels, n - 1) + CancelAt(cancels, DuringStep(n - 1))
  }

  /** The cancels that come while steps `done-1` down to `lo` are compensated. */
  function CancelsInUnwinding(cancels: Await -> bool, done: nat, lo: nat): (h: seq<Write>)
    requires lo <= done
    ensures forall i :: 0 <= i < |h| ==> h[i] == ByCancel
    decreases done - lo
  {
    if lo == done then [] else CancelsInUnwinding(cancels, done, lo + 1) + CancelAt(cancels, DuringCompensation(lo))
  }

  /** Does a run that ended like this compensate? */
  predicate Rewound<W>(r: Final<W>) {
    r.raised || (r.callbackRaised && !r.escaped)
  }

  function RewindWrites<W>(saga: Saga<W>, done: nat, oks: seq<bool>, cancels: Await -> bool): seq<Write> {
    [ByEngine(Compensating)] + CancelsInUnwinding(cancels, done, 0)
    + [ByEngine(if AllOk(oks) then Compensated else Failed)]
    + (if saga.onFailure.Some? then CancelAt(cancels, DuringFailure) else [])
  }

  function SuccessWrites<W>(saga: Saga<W>, cancels: Await -> bool): seq<Write> {
    [ByEngine(Completed)] + (if saga.onSuccess.Some? then CancelAt(cancels, DuringSuccess) else [])
  }

  function ForwardWrites<W>(saga: Saga<W>, done: nat, raised: bool, cancels: Await -> bool): seq<Write> {
    [ByEngine(Running)] + CancelsInSteps(cancels, if raised then done + 1 else done)
    + (if raised then [] else SuccessWrites(saga, cancels))
  }

  /** Every write of the status by a run that ended like `r`, and by the cancels that came during it, in order. */
  function StatusWrites<W>(saga: Saga<W>, r: Final<W>, cancels: Await -> bool): seq<Write> {
    ForwardWrites(saga, r.done, r.raised, cancels)
    + (if Rewound(r) then RewindWrites(saga, r.done, r.oks, cancels) else [])
  }

  function StatusAfter(h: seq<Write>): SagaStatus
    requires h != []
  {
    if h[|h| - 1].ByCancel? then Cancelled else h[|h| - 1].status
  }

  function EngineWrites(h: seq<Write>): seq<SagaStatus> {
    if h == [] then []
    else EngineWrites(h[..|h| - 1]) + (if h[|h| - 1].ByEngine? then [h[|h| - 1].status] else [])
  }

  lemma LastWriteCounts(before: seq<Write>, h: seq<Write>)
    requires h != []
    ensures StatusAfter(before + h) == StatusAfter(h)
  {
  }

  lemma {:induction false} EngineWritesAppend(a: seq<Write>, b: seq<Write>)
    ensures EngineWrites(a + b) == EngineWrites(a) + EngineWrites(b)
  {
    if b == [] {
      assert a + b == a;
    } else {
      EngineWritesAppend(a, b[..|b| - 1]);
      assert (a + b)[..|a + b| - 1] == a + b[..|b| - 1];
    }
  }

  lemma {:induction false} CancelsAreNotEngineWrites(h: seq<Write>)
    requires forall i :: 0 <= i < |h| ==> h[i] == ByCancel
    ensures EngineWrites(h) == []
  {
    if h != [] {
      CancelsAreNotEngineWrites(h[..|h| - 1]);
    }
  }

  /** What the engine writes in a run that ended like `r`. */
  function OwnWrites<W>(r: Final<W>): seq<SagaStatus> {
    [Running] + (if r.raised then [] else [Completed])
    + (if Rewound(r) then [Compensating, if AllOk(r.oks) then Compensated else Failed] else [])
  }

  lemma CancelsDoNotChangeEngineWrites<W>(saga: Saga<W>, r: Final<W>, cancels: Await -> bool)
    ensures EngineWrites(StatusWrites(saga, r, cancels)) == OwnWrites(r)
  {
    hide AllOk;
    ForwardEngineWrites(saga, r.done, r.raised, cancels);
    if Rewound(r) {
      RewindEngineWrites(saga, r.done, r.oks, cancels);
    }
    EngineWritesAppend(ForwardWrites(saga, r.done, r.raised, cancels),
                       if Rewound(r) then RewindWrites(saga, r.done, r.oks, cancels) else []);
  }

  lemma ForwardEngineWrites<W>(saga: Saga<W>, done: nat, raised: bool, cancels: Await -> bool)
    ensures EngineWrites(ForwardWrites(saga, done, raised, cancels)) == [Running] + (if raised then [] else [Completed])
  {
    hide EngineWrites, CancelsInSteps, SuccessWrites;
    var inSteps := CancelsInSteps(cancels, if raised then done + 1 else done);
    OneEngineWrite(Running, inSteps);
    if raised {
      assert [ByEngine(Running)] + inSteps + [] == [ByEngine(Running)] + inSteps;
    } else {
      EngineWritesAppend([ByEngine(Running)] + inSteps, SuccessWrites(saga, cancels));
      SuccessEngineWrites(saga, cancels);
    }
  }

  lemma SuccessEngineWrites<W>(saga: Saga<W>, cancels: Await -> bool)
    ensures EngineWrites(SuccessWrites(saga, cancels)) == [Completed]
  {
    hide EngineWrites;
    OneEngineWrite(Completed, if saga.onSuccess.Some? then CancelAt(cancels, DuringSuccess) else []);
  }

  /** One write of the engine and the cancels after it. */
  lemma OneEngineWrite(status: SagaStatus, cancelled: seq<Write>)
    requires forall i :: 0 <= i < |cancelled| ==> cancelled[i] == ByCancel
    ensures EngineWrites([ByEngine(status)] + cancelled) == [status]
  {
    CancelsAreNotEngineWrites(cancelled);
    EngineWritesAppend([ByEngine(status)], cancelled);
  }

  lemma RewindEngineWrites<W>(saga: Saga<W>, done: nat, oks: seq<bool>, cancels: Await -> bool)
    ensures EngineWrites(RewindWrites(saga, done, oks, cancels)) == [Compensating, if AllOk(oks) then Compensated else Failed]
  {
    hide AllOk, EngineWrites, CancelsInUnwinding;
    var last := if AllOk(oks) then Compensated else Failed;
    var inUnwinding := CancelsInUnwinding(cancels, done, 0);
    var inFailure := if saga.onFailure.Some? then CancelAt(cancels, DuringFailure) else [];
    OneEngineWrite(Compensating, inUnwinding);
    OneEngineWrite(last, inFailure);
    EngineWritesAppend([ByEngine(Compensating)] + inUnwinding, [ByEngine(last)] + inFailure);
    assert RewindWrites(saga, done, oks, cancels) == [ByEngine(Compensating)] + inUnwinding + ([ByEngine(last)] + inFailure);
  }

  /** The await after the engine's last write, if there is one: the callback of that ending. */
  predicate LateCancel<W>(saga: Saga<W>, r: Final<W>, cancels: Await -> bool) {
    if Rewound(r) then saga.onFailure.Some? && cancels(DuringFailure)
    else saga.onSuccess.Some? && cancels(DuringSuccess)
  }

  /**
   For every placement of cancels, the engine writes what it writes without them.
   The final status is CANCELLED if and only if a cancel came after the engine's
   last write, that is, during the callback that ends the run; otherwise it is
   the engine's last write.
   */
  lemma CancelledIff<W>(saga: Saga<W>, ctx: Context, world: W, clock: nat, cancels: Await -> bool)
    ensures var r := RunSaga(saga, ctx, world, clock);
            var h := StatusWrites(saga, r, cancels);
      && EngineWrites(h) == OwnWrites(r) && OwnWrites(r)[|OwnWrites(r)| - 1] == r.status
      && (StatusAfter(h) == Cancelled <==> h[|h| - 1] == ByCancel)
      && (StatusAfter(h) == Cancelled <==> LateCancel(saga, r, cancels))
      && (StatusAfter(h) != Cancelled ==> StatusAfter(h) == r.status)
  {
    hide AllOk, RunSteps, Unwind, CallBack;
    CancelsDoNotChangeEngineWrites(saga, RunSaga(saga, ctx, world, clock), cancels);
  }

  /** A cancel during the callback that ends a run is never overwritten, be it the success or the failure callback. */
  lemma CallbackCancelStays<W>(saga: Saga<W>, ctx: Context, world: W, clock: nat)
    ensures var r := RunSaga(saga, ctx, world, clock);
      && ((r.raised || r.callbackRaised) && !r.escaped && saga.onFailure.Some? ==>
            StatusAfter(StatusWrites(saga, r, (a: Await) => a == DuringFailure)) == Cancelled)
      && (!(r.raised || r.callbackRaised) && saga.onSuccess.Some? ==>
            StatusAfter(StatusWrites(saga, r, (a: Await) => a == DuringSuccess)) == Cancelled)
  {
    hide RunSaga, AllOk;
  }

  /** Such a run: it completes, and a cancel during its success callback makes its status CANCELLED for good. */
  lemma CompletedYetCancelled<W>(ctx: Context, world: W, clock: nat)
    ensures var saga: Saga<W> := Saga("s", [], Some((c: Context, w: W, t: nat) => Finished(w)), None);
            var r := RunSaga(saga, ctx, world, clock);
      && r.status == Completed && !r.callbackRaised
      && StatusAfter(StatusWrites(saga, r, (a: Await) => a == DuringSuccess)) == Cancelled
  {
    var saga: Saga<W> := Saga("s", [], Some((c: Context, w: W, t: nat) => Finished(w)), None);
    CancelledIff(saga, ctx, world, clock, (a: Await) => a == DuringSuccess);
  }

  // ---------- the object ----------

  class SagaInstance<W> {
    const definition: Saga<W>
    const instanceId: string
    var status: SagaStatus
    var context: Context
    var currentStepIndex: nat
    var completedSteps: seq<Step<W>>
    var failedStep: Option<Step<W>>
    var hasError: bool
    /** The services the saga acts on, the number of calls made to them, and the acts so far. */
    var world: W
    var clock: nat
    var trace: seq<Act>
    /** Every write of `status` since the object was built. */
    var writes: seq<Write>

    constructor (definition: Saga<W>, instanceId: string, initial: Context, world: W)
      ensures this.definition == definition && this.instanceId == instanceId
      ensures status == Pending && context == initial["saga_instance_id" := JString(instanceId)]
      ensures completedSteps == [] && trace == [] && failedStep == None && !hasError
      ensures this.world == world && clock == 0 && writes == []
    {
      this.definition, this.instanceId := definition, instanceId;
      context := initial["saga_instance_id" := JString(instanceId)];
      status, currentStepIndex, completedSteps, failedStep, hasError := Pending, 0, [], None, false;
      this.world, clock, trace, writes := world, 0, [], [];
    }

    method WriteStatus(next: SagaStatus)
      modifies this`status, this`writes
      ensures status == next && writes == old(writes) + [ByEngine(next)]
    {
      status, writes := next, writes + [ByEngine(next)];
    }

    /** What `cancel_saga` does, if it comes at this await. */
    method LetCancel(cancels: Await -> bool, a: Await)
      modifies this`status, this`writes
      ensures writes == old(writes) + CancelAt(cancels, a)
      ensures status == if cancels(a) then Cancelled else old(status)
    {
      if cancels(a) {
        status, writes := Cancelled, writes + [ByCancel];
      }
    }

    /**
     `execute`, with cancels at any of its awaits. Wherever they come, and
     whatever status was there before, the run is that of `RunSaga` and its acts
     are the story of that run; only the status tells of the cancels, as
     `StatusWrites` says. `escaped` means the call raises; otherwise it returns
     the status.
     */
    method Execute(cancels: Await -> bool) returns (escaped: bool)
      requires completedSteps == [] && trace == []
      modifies this
      ensures var r := RunSaga(definition, old(context), old(world), old(clock));
        && escaped == r.escaped && context == r.context && world == r.world
        && completedSteps == definition.steps[..r.done]
        && |r.oks| <= r.done && trace == Story(r.done, r.raised, r.oks)
        && (hasError <==> old(hasError) || r.raised || r.callbackRaised)
        && (r.raised ==> failedStep == Some(definition.steps[r.done]))
        && (r.callbackRaised && !r.escaped ==> failedStep == Some(definition.steps[|definition.steps| - 1]))
      ensures var r := RunSaga(definition, old(context), old(world), old(clock));
              var h := StatusWrites(definition, r, cancels);
        && writes == old(writes) + h
        && status == StatusAfter(h) == (if LateCancel(definition, r, cancels) then Cancelled else r.status)
    {
      hide RunSteps, Unwind, Story, AllOk, Dids, Undos, CallBack, RewindWrites, StatusAfter, SuccessWrites, CancelsInSteps;
      ghost var f := RunSteps(definition.steps, 0, context, world, clock);
      ghost var r := RunSaga(definition, context, world, clock);
      CancelledIff(definition, context, world, clock, cancels);
      escaped := false;
      LastWriteCounts(writes, StatusWrites(definition, r, cancels));
      var failed := GoForward(cancels);
      assert !Rewound(r) ==> StatusWrites(definition, r, cancels) == ForwardWrites(definition, f.done, f.raised, cancels);
      if !failed {
        return;
      }
      hasError := true;
      if |definition.steps| == 0 {
        return true;
      }
      failedStep := Some(definition.steps[currentStepIndex]);
      RunCompensations(cancels);
      StoryGoesOn(f.done, f.raised, r.oks);
    }

    /** The `try` part: RUNNING, the steps and, if none raises, COMPLETED and the success callback. */
    method GoForward(cancels: Await -> bool) returns (failed: bool)
      requires completedSteps == [] && trace == []
      modifies this
      ensures var f := RunSteps(definition.steps, 0, old(context), old(world), old(clock));
              var e := CallBack(definition.onSuccess, f.context, f.world, f.clock);
        && (failed <==> f.raised || e.Broke?)
        && context == f.context
        && world == (if f.raised then f.world else e.world) && clock == (if f.raised then f.clock else f.clock + 1)
        && completedSteps == definition.steps[..f.done] && trace == Story(f.done, f.raised, [])
        && (definition.steps != [] ==> currentStepIndex == if f.raised then f.done else |definition.steps| - 1)
        && writes == old(writes) + ForwardWrites(definition, f.done, f.raised, cancels)
        && status == StatusAfter(writes)
      ensures hasError == old(hasError) && failedStep == old(failedStep)
    {
      hide RunSteps, Story, CancelsInSteps, CallBack, SuccessWrites;
      ghost var f := RunSteps(definition.steps, 0, context, world, clock);
      WriteStatus(Running);
      failed := ExecuteSteps(cancels);
      if !failed {
        failed := Succeed(cancels);
      }
      assert writes == old(writes) + ForwardWrites(definition, f.done, f.raised, cancels);
    }

    /** COMPLETED, then the success callback. */
    method Succeed(cancels: Await -> bool) returns (broke: bool)
      modifies this`status, this`writes, this`world, this`clock
      ensures var e := CallBack(definition.onSuccess, context, old(world), old(clock));
        && broke == e.Broke? && world == e.world && clock == old(clock) + 1
      ensures writes == old(writes) + SuccessWrites(definition, cancels) && status == StatusAfter(writes)
    {
      hide CallBack;
      WriteStatus(Completed);
      var e := CallBack(definition.onSuccess, context, world, clock);
      if definition.onSuccess.Some? {
        LetCancel(cancels, DuringSuccess);
      }
      world, clock, broke := e.world, clock + 1, e.Broke?;
    }

    /** The forward loop. */
    method ExecuteSteps(cancels: Await -> bool) returns (raised: bool)
      requires completedSteps == [] && trace == []
      requires writes != [] && status == StatusAfter(writes)
      modifies this
      ensures var f := RunSteps(definition.steps, 0, old(context), old(world), old(clock));
        && raised == f.raised && context == f.context && world == f.world && clock == f.clock
        && completedSteps == definition.steps[..f.done]
        && trace == Story(f.done, f.raised, [])
        && (definition.steps != [] ==> currentStepIndex == if raised then f.done else |definition.steps| - 1)
        && writes == old(writes) + CancelsInSteps(cancels, if raised then f.done + 1 else f.done)
      ensures status == StatusAfter(writes) && hasError == old(hasError) && failedStep == old(failedStep)
    {
      hide RunStep, Story, Dids, Undos, CancelAt;
      ghost var f := RunSteps(definition.steps, 0, context, world, clock);
      ForwardStory(0);
      for i := 0 to |definition.steps|
        invariant f == RunSteps(definition.steps, i, context, world, clock)
        invariant completedSteps == definition.steps[..i] && trace == Dids(i)
        invariant i > 0 ==> currentStepIndex == i - 1
        invariant writes != [] && status == StatusAfter(writes)
        invariant hasError == old(hasError) && failedStep == old(failedStep)
        invariant writes == old(writes) + CancelsInSteps(cancels, i)
      {
        ForwardStory(i);
        raised := TakeStep(i, cancels);
        assert CancelsInSteps(cancels, i + 1) == CancelsInSteps(cancels, i) + CancelAt(cancels, DuringStep(i));
        if raised {
          return;
        }
        assert definition.steps[..i + 1] == definition.steps[..i] + [definition.steps[i]];
      }
      ForwardStory(|definition.steps|);
      raised := false;
    }

    /** One turn of the forward loop. */
    method TakeStep(i: nat, cancels: Await -> bool) returns (raised: bool)
      requires i < |definition.steps| && writes != [] && status == StatusAfter(writes)
      modifies this
      ensures var c := old(context)["current_step" := JString(definition.steps[i].name)];
              var r := RunStep(definition.steps[i], c, old(world), old(clock));
        && raised == r.outcome.None? && world == r.world && clock == r.clock
        && context == (if raised then c else c + r.outcome.value)
        && completedSteps == old(completedSteps) + (if raised then [] else [definition.steps[i]])
        && trace == old(trace) + [if raised then GaveUp(i) else Did(i)]
        && currentStepIndex == i
        && writes == old(writes) + CancelAt(cancels, DuringStep(i))
      ensures status == StatusAfter(writes) && hasError == old(hasError) && failedStep == old(failedStep)
    {
      hide RunStep;
      var step := definition.steps[i];
      currentStepIndex := i;
      context := context["current_step" := JString(step.name)];
      var r := ExecuteStep(step, context, world, clock);
      LetCancel(cancels, DuringStep(i));
      world, clock, raised := r.world, r.clock, r.outcome.None?;
      if raised {
        trace := trace + [GaveUp(i)];
      } else {
        context := context + r.outcome.value;
        completedSteps := completedSteps + [step];
        trace := trace + [Did(i)];
      }
    }

    /** `_compensate`: every completed step in reverse order, whether or not a compensation raises, then the failure callback. */
    method RunCompensations(cancels: Await -> bool)
      requires |completedSteps| <= |definition.steps| && completedSteps == definition.steps[..|completedSteps|]
      modifies this
      ensures |completedSteps| <= |definition.steps|
      ensures var b := Unwind(definition.steps, |completedSteps|, 0, context, old(world), old(clock));
        && trace == old(trace) + Undos(|completedSteps|, b.oks)
        && world == CallBack(definition.onFailure, context, b.world, b.clock).world
        && writes == old(writes) + RewindWrites(definition, |completedSteps|, b.oks, cancels)
        && status == StatusAfter(writes)
      ensures context == old(context) && completedSteps == old(completedSteps)
      ensures hasError == old(hasError) && failedStep == old(failedStep)
    {
      hide AllOk, Undos, Unwind, CallBack, CancelsInUnwinding;
      ghost var n := |completedSteps|;
      ghost var b := Unwind(definition.steps, n, 0, context, world, clock);
      WriteStatus(Compensating);
      var failed := CompensateAll(cancels);
      WriteStatus(if failed then Failed else Compensated);
      world := CallBack(definition.onFailure, context, world, clock).world;
      if definition.onFailure.Some? {
        LetCancel(cancels, DuringFailure);
      }
      assert writes == old(writes) + RewindWrites(definition, n, b.oks, cancels);
    }

    /** The loop over the completed steps, last one first; `failed` tells whether a compensation raised. */
    method CompensateAll(cancels: Await -> bool) returns (failed: bool)
      requires |completedSteps| <= |definition.steps| && completedSteps == definition.steps[..|completedSteps|]
      modifies this
      ensures |completedSteps| <= |definition.steps|
      ensures var b := Unwind(definition.steps, |completedSteps|, 0, context, old(world), old(clock));
        && (failed <==> !AllOk(b.oks))
        && trace == old(trace) + Undos(|completedSteps|, b.oks)
        && world == b.world && clock == b.clock
        && writes == old(writes) + CancelsInUnwinding(cancels, |completedSteps|, 0)
      ensures context == old(context) && completedSteps == old(completedSteps)
      ensures hasError == old(hasError) && failedStep == old(failedStep)
    {
      hide AllOk, Undos, CancelAt, CompensateStep;
      failed := false;
      var k := |completedSteps|;
      ghost var n := k;
      NothingUndone(n);
      while k > 0
        invariant 0 <= k <= n == |completedSteps|
        invariant context == old(context) && completedSteps == old(completedSteps)
        invariant hasError == old(hasError) && failedStep == old(failedStep)
        invariant var b := Unwind(definition.steps, n, k, context, old(world), old(clock));
          && world == b.world && clock == b.clock
          && (failed <==> !AllOk(b.oks))
          && trace == old(trace) + Undos(n, b.oks)
        invariant writes == old(writes) + CancelsInUnwinding(cancels, n, k)
      {
        k := k - 1;
        ghost var oks := Unwind(definition.steps, n, k + 1, context, old(world), old(clock)).oks;
        assert completedSteps[k] == definition.steps[k];
        var e := CompensateStep(completedSteps[k], context, world, clock);
        LetCancel(cancels, DuringCompensation(k));
        UndosSnoc(n, oks, e.Finished?);
        world, clock := e.world, clock + 1;
        trace := trace + [Compensate(k, e.Finished?)];
        failed := failed || e.Broke?;
      }
    }
  }

  lemma ForwardStory(n: nat)
    ensures Dids(0) == []
    ensures Dids(n + 1) == Dids(n) + [Did(n)]
    ensures Story(n, false, []) == Dids(n) && Story(n, true, []) == Dids(n) + [GaveUp(n)]
  {
    assert Undos(n, []) == [];
  }

  lemma NothingUndone(n: nat)
    ensures AllOk([]) && Undos(n, []) == []
  {
  }

  lemma StoryGoesOn(done: nat, raised: bool, oks: seq<bool>)
    requires |oks| <= done
    ensures Story(done, raised, oks) == Story(done, raised, []) + Undos(done, oks)
  {
    assert Undos(done, []) == [];
  }
}
