/**
 Compensation restores: if each compensation inverts its own action, failed
 attempts change nothing and everything else a saga does lies outside a chosen
 view of the world, then a run that ends COMPENSATED leaves that view as it was.
 */
module SagaRestoration {
  import opened Wrappers
  import opened TaskEvents
  import opened SagaSteps
  import opened SagaInstances

  /** The context keys a step's action may write and its compensation may read. */
  datatype Keys = Keys(writes: set<string>, needs: set<string>)

  ghost predicate AgreeOn(a: Context, b: Context, keys: set<string>) {
    forall k :: k in keys ==> (k in a <==> k in b) && (k in a ==> a[k] == b[k])
  }

  ghost predicate WritesOnly<W(!new)>(step: Step<W>, writes: set<string>) {
    forall ctx, w, t :: step.action(ctx, w, t).Returned? ==> step.action(ctx, w, t).result.Keys <= writes
  }

  ghost predicate ReadsOnly<W(!new)>(step: Step<W>, needs: set<string>) {
    forall a, b, w, t :: AgreeOn(a, b, needs) ==> CompensateStep(step, a, w, t) == CompensateStep(step, b, w, t)
  }

  predicate HasCompensation<W>(step: Step<W>) {
    step.compensation.Some? && step.isCompensatable
  }

  /**
   In any world that looks as the action left it, the compensation, if it
   finishes, brings back how the world looked before.
   */
  ghost predicate Inverts<W(!new), V>(step: Step<W>, view: W -> V, ctx: Context, w: W, t: nat)
    requires step.action(ctx, w, t).Returned?
  {
    var a := step.action(ctx, w, t);
    forall w2, t2 :: view(w2) == view(a.world) && CompensateStep(step, ctx + a.result, w2, t2).Finished? ==>
      view(CompensateStep(step, ctx + a.result, w2, t2).world) == view(w)
  }

  /** Failed calls, and steps without a compensation, are invisible; the others are inverted. */
  ghost predicate Reversible<W(!new), V>(step: Step<W>, view: W -> V) {
    forall ctx, w, t ::
      var a := step.action(ctx, w, t);
      if a.Returned? && HasCompensation(step) then Inverts(step, view, ctx, w, t)
      else view(a.world) == view(w)
  }

  /** What a step reads back in its compensation is not overwritten by the engine or by a later step. */
  ghost predicate KeysKept<W>(steps: seq<Step<W>>, keys: seq<Keys>) {
    && |keys| == |steps|
    && (forall i, j :: 0 <= i < j < |keys| ==> keys[j].writes !! keys[i].needs)
    && (forall i :: 0 <= i < |keys| ==> "current_step" !in keys[i].needs)
  }

  ghost predicate Restorable<W(!new), V>(steps: seq<Step<W>>, keys: seq<Keys>, view: W -> V) {
    && KeysKept(steps, keys)
    && forall i :: 0 <= i < |steps| ==>
         WritesOnly(steps[i], keys[i].writes) && ReadsOnly(steps[i], keys[i].needs) && Reversible(steps[i], view)
  }

  /** A callback, however it ends, is invisible. */
  ghost predicate Invisible<W(!new), V>(f: Option<Callback<W>>, view: W -> V) {
    forall ctx, w, t :: view(CallBack(f, ctx, w, t).world) == view(w)
  }

  // ---------- one step ----------

  lemma {:induction false} FailuresAreInvisible<W(!new), V>(step: Step<W>, view: W -> V, ctx: Context, w: W, clock: nat, k: nat)
    requires Reversible(step, view) && AllFail(step, ctx, w, clock, k)
    ensures view(WorldAfter(step, ctx, w, clock, k)) == view(w)
  {
    if k > 0 {
      FailuresAreInvisible(step, view, ctx, w, clock, k - 1);
      assert !AttemptAt(step, ctx, w, clock, k - 1).Returned?;
    }
  }

  /** A step that raises is invisible; one that succeeds is one successful call in a world that looks the same. */
  lemma StepEffect<W(!new), V>(step: Step<W>, view: W -> V, ctx: Context, w: W, clock: nat) returns (before: W, t: nat)
    requires Reversible(step, view)
    ensures var r := RunStep(step, ctx, w, clock);
      && (r.outcome.None? ==> view(r.world) == view(w))
      && (r.outcome.Some? ==>
            && view(before) == view(w)
            && var a := step.action(ctx, before, t);
               a.Returned? && r.outcome == Some(a.result) && r.world == a.world)
  {
    hide RunFrom, Reversible, WorldAfter;
    var r := RunStep(step, ctx, w, clock);
    RetryBounds(step, ctx, w, clock);
    before, t := w, clock;
    if r.outcome.None? {
      FailuresAreInvisible(step, view, ctx, w, clock, r.attempts);
    } else {
      before, t := WorldAfter(step, ctx, w, clock, r.attempts - 1), clock + r.attempts - 1;
      FailuresAreInvisible(step, view, ctx, w, clock, r.attempts - 1);
    }
  }

  lemma StepWrites<W(!new)>(step: Step<W>, writes: set<string>, ctx: Context, w: W, clock: nat)
    requires WritesOnly(step, writes) && RunStep(step, ctx, w, clock).outcome.Some?
    ensures RunStep(step, ctx, w, clock).outcome.value.Keys <= writes
  {
    hide RunFrom, WorldAfter;
    RetryBounds(step, ctx, w, clock);
  }

  // ---------- the context ----------

  lemma {:induction false} LaterStepsKeep<W(!new)>(steps: seq<Step<W>>, keys: seq<Keys>, i: nat, kept: set<string>,
                                                   ctx: Context, w: W, clock: nat)
    requires i <= |steps| && |keys| == |steps|
    requires forall j :: i <= j < |steps| ==> WritesOnly(steps[j], keys[j].writes) && keys[j].writes !! kept
    requires "current_step" !in kept
    ensures AgreeOn(ctx, RunSteps(steps, i, ctx, w, clock).context, kept)
    decreases |steps| - i
  {
    hide RunStep, WritesOnly;
    if i < |steps| {
      var c := ctx["current_step" := JString(steps[i].name)];
      var r := RunStep(steps[i], c, w, clock);
      if r.outcome.Some? {
        StepWrites(steps[i], keys[i].writes, c, w, clock);
        LaterStepsKeep(steps, keys, i + 1, kept, c + r.outcome.value, r.world, r.clock);
      }
    }
  }

  // ---------- unwinding ----------

  /** Undoing, in a world that looks as the forward loop left it, the steps it completed from `i` on. */
  lemma {:induction false} UnwindRestores<W(!new), V>(steps: seq<Step<W>>, keys: seq<Keys>, view: W -> V, i: nat,
                                                      ctx: Context, w: W, clock: nat, w2: W, clock2: nat)
    requires i <= |steps| && Restorable(steps, keys, view)
    requires view(w2) == view(RunSteps(steps, i, ctx, w, clock).world)
    ensures var f := RunSteps(steps, i, ctx, w, clock);
            var b := Unwind(steps, f.done, i, f.context, w2, clock2);
            AllOk(b.oks) ==> view(b.world) == view(w)
    decreases |steps| - i
  {
    hide RunStep, WritesOnly, ReadsOnly, Reversible, CompensateStep;
    if i < |steps| {
      var c := ctx["current_step" := JString(steps[i].name)];
      var before, t := StepEffect(steps[i], view, c, w, clock);
      var r := RunStep(steps[i], c, w, clock);
      if r.outcome.Some? {
        var c' := c + r.outcome.value;
        var f := RunSteps(steps, i + 1, c', r.world, r.clock);
        UnwindRestores(steps, keys, view, i + 1, c', r.world, r.clock, w2, clock2);
        var later := Unwind(steps, f.done, i + 1, f.context, w2, clock2);
        var b := Unwind(steps, f.done, i, f.context, w2, clock2);
        if AllOk(b.oks) {
          OksOfUnwind(later.oks, b.oks);
          KeptBetween(steps, keys, i, c', r.world, r.clock);
          UndoStep(steps[i], keys[i].needs, view, c, before, t, f.context, later.world, later.clock);
        }
      }
    }
  }

  lemma OksOfUnwind(later: seq<bool>, all: seq<bool>)
    requires |all| == |later| + 1 && all[..|later|] == later && AllOk(all)
    ensures AllOk(later) && all[|later|]
  {
    forall i | 0 <= i < |later| ensures later[i] {
      assert later[i] == all[i];
    }
  }

  lemma KeptBetween<W(!new)>(steps: seq<Step<W>>, keys: seq<Keys>, i: nat, ctx: Context, w: W, clock: nat)
    requires i < |steps| && KeysKept(steps, keys)
    requires forall j :: 0 <= j < |steps| ==> WritesOnly(steps[j], keys[j].writes)
    ensures AgreeOn(ctx, RunSteps(steps, i + 1, ctx, w, clock).context, keys[i].needs)
  {
    hide WritesOnly, RunSteps;
    LaterStepsKeep(steps, keys, i + 1, keys[i].needs, ctx, w, clock);
  }

  lemma UndoStep<W(!new), V>(step: Step<W>, needs: set<string>, view: W -> V, ctx: Context, before: W, t: nat,
                             final: Context, w2: W, t2: nat)
    requires Reversible(step, view) && ReadsOnly(step, needs)
    requires var a := step.action(ctx, before, t);
             a.Returned? && AgreeOn(ctx + a.result, final, needs) && view(w2) == view(a.world)
    requires CompensateStep(step, final, w2, t2).Finished?
    ensures view(CompensateStep(step, final, w2, t2).world) == view(before)
  {
    var a := step.action(ctx, before, t);
    assert CompensateStep(step, ctx + a.result, w2, t2) == CompensateStep(step, final, w2, t2);
    if HasCompensation(step) {
      assert Inverts(step, view, ctx, before, t);
    }
  }

  /**
   Any run that ends COMPENSATED leaves the view of the world as it was at the
   start, for every pattern of failures.
   */
  lemma CompensatedRunRestores<W(!new), V>(saga: Saga<W>, keys: seq<Keys>, view: W -> V, ctx: Context, world: W, clock: nat)
    requires Restorable(saga.steps, keys, view)
    requires Invisible(saga.onSuccess, view) && Invisible(saga.onFailure, view)
    ensures var r := RunSaga(saga, ctx, world, clock);
            r.status == Compensated ==> view(r.world) == view(world)
  {
    hide RunSteps, Unwind, Restorable;
    var f := RunSteps(saga.steps, 0, ctx, world, clock);
    if f.raised {
      UnwindRestores(saga.steps, keys, view, 0, ctx, world, clock, f.world, f.clock);
    } else {
      var e := CallBack(saga.onSuccess, f.context, f.world, f.clock);
      assert view(e.world) == view(f.world);
      UnwindRestores(saga.steps, keys, view, 0, ctx, world, clock, e.world, f.clock + 1);
    }
  }
}
