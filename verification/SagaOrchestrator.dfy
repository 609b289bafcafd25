/**
 The orchestrator: instances move from the running to the completed dictionary.
 First the interleavings of its asynchronous steps, then the object itself.
 */
module SagaOrchestrators {
  import opened SagaSteps
  import opened SagaInstances

  /**
   `waiting`: built, but `start_saga` has not got the lock yet. `ended`: still
   running as far as the dictionaries tell, but `execute` has returned or
   raised, and the lock is awaited. `completed` is in insertion order.
   */
  datatype Registry = Registry(waiting: set<string>, running: set<string>, ended: set<string>,
                               completed: seq<string>, status: map<string, SagaStatus>)

  datatype Step =
    | Build(id: string)
    | Register(id: string)
    | Write(id: string, written: SagaStatus)
    | Return(id: string)
    | Move(id: string)
    | Cancel(id: string)

  const NOTHING := Registry({}, {}, {}, [], map[])

  /**
   Ids are fresh: building under a known id, like any other step that is not due,
   does nothing. `Write` is a status write of the engine, which never writes
   CANCELLED.
   */
  function Apply(r: Registry, step: Step): Registry {
    match step
    case Build(id) =>
      if id in r.waiting || id in r.running || id in r.completed then r
      else r.(waiting := r.waiting + {id}, status := r.status[id := Pending])
    case Register(id) =>
      if id !in r.waiting then r
      else r.(waiting := r.waiting - {id}, running := r.running + {id})
    case Write(id, written) =>
      if id !in r.running || id in r.ended || written == Cancelled then r
      else r.(status := r.status[id := written])
    case Return(id) =>
      if id !in r.running || id in r.ended then r
      else r.(ended := r.ended + {id})
    case Move(id) =>
      if id !in r.ended then r
      else r.(running := r.running - {id}, ended := r.ended - {id}, completed := r.completed + [id])
    case Cancel(id) =>
      if id !in r.running then r
      else r.(status := r.status[id := Cancelled])
  }

  function ApplyAll(steps: seq<Step>): Registry {
    if steps == [] then NOTHING else Apply(ApplyAll(steps[..|steps| - 1]), steps[|steps| - 1])
  }

  /** The instances registered so far. */
  function Started(steps: seq<Step>): set<string> {
    if steps == [] then {}
    else
      var before, last := steps[..|steps| - 1], steps[|steps| - 1];
      Started(before) + (if last.Register? && last.id in ApplyAll(before).waiting then {last.id} else {})
  }

  /** The completions so far, in the order they happened. */
  function Completions(steps: seq<Step>): seq<string> {
    if steps == [] then []
    else
      var before, last := steps[..|steps| - 1], steps[|steps| - 1];
      Completions(before) + (if last.Move? && last.id in ApplyAll(before).ended then [last.id] else [])
  }

  /** `get_instance` finds something. */
  predicate Finds(r: Registry, id: string) {
    id in r.running || id in r.completed
  }

  ghost predicate RegistryInv(r: Registry, started: set<string>) {
    && r.ended <= r.running
    && r.waiting !! r.running
    && (forall i :: 0 <= i < |r.completed| ==> r.completed[i] !in r.running && r.completed[i] !in r.waiting)
    && (forall i, j :: 0 <= i < j < |r.completed| ==> r.completed[i] != r.completed[j])
    && (forall id :: id in started <==> Finds(r, id))
  }

  /** One step keeps the invariant; only a registration starts an instance. */
  lemma StepConserves(r: Registry, started: set<string>, step: Step)
    requires RegistryInv(r, started)
    ensures RegistryInv(Apply(r, step), started + (if step.Register? && step.id in r.waiting then {step.id} else {}))
  {
    var next := Apply(r, step);
    match step
    case Build(id) =>
    case Register(id) =>
    case Write(id, _) =>
    case Return(id) =>
    case Cancel(id) =>
    case Move(id) =>
      if id in r.ended {
        assert next.completed[|r.completed|] == id;
        assert forall i :: 0 <= i < |r.completed| ==> next.completed[i] == r.completed[i];
        assert forall other :: Finds(next, other) <==> Finds(r, other);
      }
  }

  /** Only a move writes the completed dictionary, and it appends. */
  lemma StepCompletes(r: Registry, step: Step)
    ensures Apply(r, step).completed == r.completed + (if step.Move? && step.id in r.ended then [step.id] else [])
  {
  }

  /** The invariant says where a started instance is. */
  lemma StartedIsInOne(r: Registry, started: set<string>, id: string)
    requires RegistryInv(r, started) && id in started
    ensures id in r.running <==> id !in r.completed
  {
  }

  /**
   Under every interleaving of starts, status writes, endings (by return or by
   exception), moves and cancels: each started instance is in exactly one of the two
   dictionaries and found by `get_instance`, nothing else is found, nothing is
   completed twice, and the completed dictionary lists the completions in the
   order they happened.
   */
  lemma {:induction false} InstancesAreConserved(steps: seq<Step>)
    ensures var r := ApplyAll(steps);
      && RegistryInv(r, Started(steps))
      && r.completed == Completions(steps)
      && (forall id :: id in Started(steps) ==> (id in r.running <==> id !in r.completed))
  {
    hide Apply, RegistryInv;
    if steps == [] {
      assert RegistryInv(NOTHING, {}) by { NothingIsConserved(); }
    } else {
      var before, last := steps[..|steps| - 1], steps[|steps| - 1];
      InstancesAreConserved(before);
      StepConserves(ApplyAll(before), Started(before), last);
      StepCompletes(ApplyAll(before), last);
    }
    forall id | id in Started(steps)
      ensures id in ApplyAll(steps).running <==> id !in ApplyAll(steps).completed
    {
      StartedIsInOne(ApplyAll(steps), Started(steps), id);
    }
  }

  lemma NothingIsConserved()
    ensures RegistryInv(NOTHING, {})
  {
  }

  /** A completed instance stays completed, at its place. */
  lemma {:induction false} CompletedForGood(steps: seq<Step>, more: seq<Step>)
    ensures ApplyAll(steps).completed <= ApplyAll(steps + more).completed
  {
    if more == [] {
      assert steps + more == steps;
    } else {
      CompletedForGood(steps, more[..|more| - 1]);
      assert (steps + more)[..|steps + more| - 1] == steps + more[..|more| - 1];
    }
  }

  // ---------- cancels ----------

  /** The same steps without the cancels. */
  function Uncancelled(steps: seq<Step>): seq<Step> {
    if steps == [] then []
    else Uncancelled(steps[..|steps| - 1]) + (if steps[|steps| - 1].Cancel? then [] else [steps[|steps| - 1]])
  }

  /** A cancel that finds the instance running. */
  predicate CancelHits(r: Registry, step: Step, id: string) {
    step == Cancel(id) && id in r.running
  }

  /** A write of this instance's status by the engine, or its first one, PENDING. */
  predicate EngineHits(r: Registry, step: Step, id: string) {
    match step
    case Build(b) => b == id && b !in r.waiting && b !in r.running && b !in r.completed
    case Write(b, written) => b == id && b in r.running && b !in r.ended && written != Cancelled
    case _ => false
  }

  predicate SameButStatus(a: Registry, b: Registry) {
    a.waiting == b.waiting && a.running == b.running && a.ended == b.ended && a.completed == b.completed
  }

  lemma OneStepUncancelled(a: Registry, b: Registry, step: Step, id: string)
    requires SameButStatus(a, b)
    ensures step.Cancel? ==> SameButStatus(Apply(a, step), b)
    ensures !step.Cancel? ==> SameButStatus(Apply(a, step), Apply(b, step))
    ensures EngineHits(a, step, id) ==>
      && id in Apply(a, step).status && id in Apply(b, step).status
      && Apply(a, step).status[id] == Apply(b, step).status[id] != Cancelled
    ensures !step.Cancel? && !EngineHits(a, step, id) ==>
      && (id in Apply(b, step).status <==> id in b.status)
      && (id in b.status ==> Apply(b, step).status[id] == b.status[id])
  {
  }

  /** The last status write of an instance was a cancel. */
  ghost predicate CancelledLast(steps: seq<Step>, id: string) {
    exists i :: 0 <= i < |steps| && CancelHits(ApplyAll(steps[..i]), steps[i], id) && Undisturbed(steps, i, id)
  }

  /** Since step `i`, the engine has not written the status. */
  ghost predicate Undisturbed(steps: seq<Step>, i: nat, id: string)
    requires i < |steps|
  {
    forall j :: i < j < |steps| ==> !EngineHits(ApplyAll(steps[..j]), steps[j], id)
  }

  lemma CancelledLastSnoc(before: seq<Step>, last: Step, id: string)
    ensures CancelledLast(before + [last], id) <==>
      CancelHits(ApplyAll(before), last, id) || (CancelledLast(before, id) && !EngineHits(ApplyAll(before), last, id))
  {
    hide ApplyAll, CancelHits, EngineHits;
    var steps, n := before + [last], |before|;
    assert steps[..n] == before;
    assert forall k :: 0 <= k < n ==> steps[..k] == before[..k] && steps[k] == before[k];
    if CancelHits(ApplyAll(before), last, id) {
      assert Undisturbed(steps, n, id);
    }
    if CancelledLast(before, id) && !EngineHits(ApplyAll(before), last, id) {
      var i :| 0 <= i < n && CancelHits(ApplyAll(before[..i]), before[i], id) && Undisturbed(before, i, id);
      assert Undisturbed(steps, i, id);
    }
    if CancelledLast(steps, id) && !CancelHits(ApplyAll(before), last, id) {
      var i :| 0 <= i < |steps| && CancelHits(ApplyAll(steps[..i]), steps[i], id) && Undisturbed(steps, i, id);
      assert i < n && Undisturbed(before, i, id);
    }
  }

  lemma OneStepStatus(r: Registry, step: Step, id: string)
    requires id in r.running ==> id in r.status
    ensures CancelHits(r, step, id) ==> id in Apply(r, step).status && Apply(r, step).status[id] == Cancelled
    ensures !CancelHits(r, step, id) && !EngineHits(r, step, id) ==>
      && (id in Apply(r, step).status <==> id in r.status)
      && (id in r.status ==> Apply(r, step).status[id] == r.status[id])
  {
  }

  lemma {:induction false} KnownHaveStatus(steps: seq<Step>)
    ensures var r := ApplyAll(steps);
            r.ended <= r.running && forall id :: id in r.waiting || id in r.running ==> id in r.status
  {
    if steps != [] {
      KnownHaveStatus(steps[..|steps| - 1]);
    }
  }

  /**
   For every placement of cancels: they move no instance, and the status of an
   instance is CANCELLED if and only if a cancel found it running after the
   engine's last write, be it during a callback or while `_execute_and_cleanup`
   waits for the lock; otherwise it is what it is without the cancels.
   */
  lemma {:induction false} CancelOnlyWritesStatus(steps: seq<Step>, id: string)
    ensures var r, undisturbed := ApplyAll(steps), ApplyAll(Uncancelled(steps));
      && SameButStatus(r, undisturbed)
      && (id in r.status <==> id in undisturbed.status)
      && (id in r.status ==>
            && (r.status[id] == Cancelled <==> CancelledLast(steps, id))
            && undisturbed.status[id] != Cancelled
            && (r.status[id] != Cancelled ==> r.status[id] == undisturbed.status[id]))
      && (CancelledLast(steps, id) ==> id in r.status)
  {
    hide Apply, EngineHits, CancelHits, CancelledLast, SameButStatus;
    if steps == [] {
      NothingIsCancelled(id);
    } else {
      var before, last := steps[..|steps| - 1], steps[|steps| - 1];
      assert before + [last] == steps;
      CancelOnlyWritesStatus(before, id);
      CancelledLastSnoc(before, last, id);
      KnownHaveStatus(before);
      OneStepUncancelled(ApplyAll(before), ApplyAll(Uncancelled(before)), last, id);
      OneStepStatus(ApplyAll(before), last, id);
      var kept := Uncancelled(before);
      assert ApplyAll(Uncancelled(steps)) == if last.Cancel? then ApplyAll(kept) else Apply(ApplyAll(kept), last) by {
        if last.Cancel? {
          assert Uncancelled(steps) == kept;
        } else {
          assert (kept + [last])[..|kept|] == kept;
        }
      }
      CancelIsNotEngine(ApplyAll(before), last, id);
    }
  }

  lemma NothingIsCancelled(id: string)
    ensures !CancelledLast([], id) && SameButStatus(NOTHING, NOTHING)
  {
  }

  lemma CancelIsNotEngine(r: Registry, step: Step, id: string)
    ensures CancelHits(r, step, id) ==> step.Cancel? && id in r.running
    ensures step.Cancel? ==> !EngineHits(r, step, id)
  {
  }

  /** What the engine has written to an instance's status, PENDING first. */
  function WrittenTo(steps: seq<Step>, id: string): seq<SagaStatus> {
    if steps == [] then []
    else
      var before, last := steps[..|steps| - 1], steps[|steps| - 1];
      WrittenTo(before, id)
      + (if !EngineHits(ApplyAll(before), last, id) then [] else [if last.Write? then last.written else Pending])
  }

  lemma {:induction false} StatusIsLastWrite(steps: seq<Step>, id: string)
    ensures var r, own := ApplyAll(steps), WrittenTo(steps, id);
      && (id in r.status <==> own != [])
      && (id in r.status && r.status[id] != Cancelled ==> r.status[id] == own[|own| - 1])
  {
    if steps != [] {
      var before, last := steps[..|steps| - 1], steps[|steps| - 1];
      StatusIsLastWrite(before, id);
      KnownHaveStatus(before);
      hide ApplyAll;
      if last.Cancel? && last.id in ApplyAll(before).running {
        assert last.id in ApplyAll(before).status;
      }
    }
  }

  /**
   A saga whose engine writes have all been made, in whatever interleaving with
   other instances and with cancels, has the status of its run, unless a cancel
   came after the last of them.
   */
  lemma RunDecidesStatus<W>(steps: seq<Step>, id: string, saga: Saga<W>, ctx: Context, world: W, clock: nat)
    requires WrittenTo(steps, id) == [Pending] + OwnWrites(RunSaga(saga, ctx, world, clock))
    ensures id in ApplyAll(steps).status
    ensures ApplyAll(steps).status[id] ==
            if CancelledLast(steps, id) then Cancelled else RunSaga(saga, ctx, world, clock).status
  {
    hide ApplyAll, CancelledLast, RunSaga, WrittenTo, SameButStatus;
    var r := RunSaga(saga, ctx, world, clock);
    CancelOnlyWritesStatus(steps, id);
    StatusIsLastWrite(steps, id);
    CancelledIff(saga, ctx, world, clock, _ => false);
    assert ([Pending] + OwnWrites(r))[|OwnWrites(r)|] == OwnWrites(r)[|OwnWrites(r)| - 1];
  }

  // ---------- history ----------

  /** Python's `s[-limit:]`. */
  function LastOf<T>(s: seq<T>, limit: int): seq<T> {
    if limit > 0 then (if limit <= |s| then s[|s| - limit..] else s)
    else if -limit <= |s| then s[-limit..]
    else []
  }

  /**
   The life of a new instance: unknown, then running from its registration on,
   with the status the engine writes, then completed for good.
   */
  lemma OneLife(r: Registry, started: set<string>, id: string, written: SagaStatus)
    requires RegistryInv(r, started) && id !in r.waiting && !Finds(r, id) && written != Cancelled
    ensures var built := Apply(r, Build(id));
            var registered := Apply(built, Register(id));
            var moved := Apply(Apply(Apply(registered, Write(id, written)), Return(id)), Move(id));
      && !Finds(built, id) && id in built.status && built.status[id] == Pending
      && id in registered.running && id !in registered.completed
      && id !in moved.running && moved.completed == r.completed + [id]
      && id in moved.status && moved.status[id] == written
  {
  }

  /**
   For a positive limit the history is the last completions, at most `limit` of
   them; a limit of zero gives all of them, and a negative one leaves out that
   many at the start.
   */
  lemma HistoryIsRecent(steps: seq<Step>, limit: int)
    ensures var h, all := LastOf(ApplyAll(steps).completed, limit), Completions(steps);
      && (limit > 0 ==> |h| == (if limit <= |all| then limit else |all|) && h == all[|all| - |h|..])
      && (limit == 0 ==> h == all)
      && (limit < 0 ==> h == if -limit <= |all| then all[-limit..] else [])
  {
    InstancesAreConserved(steps);
  }

  // ---------- the object ----------

  class Instance {
    const instanceId: string
    var status: SagaStatus

    constructor (id: string)
      ensures instanceId == id && status == Pending
    {
      instanceId, status := id, Pending;
    }
  }

  class SagaOrchestrator {
    var runningInstances: map<string, Instance>
    var completedInstances: map<string, Instance>
    /** The insertion order of the completed dictionary. */
    var completedOrder: seq<string>

    ghost predicate Valid()
      reads this
    {
      && runningInstances.Keys !! completedInstances.Keys
      && (forall id :: id in runningInstances ==> runningInstances[id].instanceId == id)
      && (forall id :: id in completedInstances ==> completedInstances[id].instanceId == id)
      && (forall id :: id in completedOrder <==> id in completedInstances)
      && (forall i, j :: 0 <= i < j < |completedOrder| ==> completedOrder[i] != completedOrder[j])
    }

    constructor ()
      ensures Valid() && runningInstances == map[] && completedInstances == map[]
    {
      runningInstances, completedInstances, completedOrder := map[], map[], [];
    }

    /** Is this what the dictionaries of `r` look like? */
    ghost predicate Shows(r: Registry)
      reads this
    {
      runningInstances.Keys == r.running && completedOrder == r.completed
    }

    /** The locked part of `start_saga`, for an instance with a new id. */
    method RegisterInstance(instance: Instance)
      requires Valid()
      requires instance.instanceId !in runningInstances && instance.instanceId !in completedInstances
      modifies this
      ensures Valid()
      ensures runningInstances == old(runningInstances)[instance.instanceId := instance]
      ensures completedInstances == old(completedInstances) && completedOrder == old(completedOrder)
      ensures forall r :: old(Shows(r)) && instance.instanceId in r.waiting ==> Shows(Apply(r, Register(instance.instanceId)))
    {
      runningInstances := runningInstances[instance.instanceId := instance];
    }

    /** The `finally` part of `_execute_and_cleanup`, reached whether `execute` returned or raised. */
    method MoveInstance(instance: Instance)
      requires Valid()
      requires instance.instanceId in runningInstances && runningInstances[instance.instanceId] == instance
      modifies this
      ensures Valid()
      ensures runningInstances == old(runningInstances) - {instance.instanceId}
      ensures completedInstances == old(completedInstances)[instance.instanceId := instance]
      ensures completedOrder == old(completedOrder) + [instance.instanceId]
      ensures forall r :: old(Shows(r)) && instance.instanceId in r.ended ==> Shows(Apply(r, Move(instance.instanceId)))
    {
      runningInstances := runningInstances - {instance.instanceId};
      if instance.instanceId !in completedInstances {
        completedOrder := completedOrder + [instance.instanceId];
      }
      completedInstances := completedInstances[instance.instanceId := instance];
    }

    method GetInstance(id: string) returns (instance: Instance?)
      requires Valid()
      ensures instance != null ==> instance.instanceId == id
      ensures id in runningInstances ==> instance == runningInstances[id]
      ensures id in completedInstances ==> instance == completedInstances[id]
      ensures forall r :: Shows(r) ==> (instance != null <==> Finds(r, id))
    {
      if id in runningInstances {
        return runningInstances[id];
      }
      instance := if id in completedInstances then completedInstances[id] else null;
    }

    method CancelSaga(id: string) returns (found: bool)
      requires Valid()
      modifies runningInstances.Values
      ensures found <==> id in runningInstances
      ensures found ==> runningInstances[id].status == Cancelled
      ensures forall other :: other in runningInstances && other != id ==>
        runningInstances[other].status == old(runningInstances[other].status)
    {
      found := id in runningInstances;
      if found {
        runningInstances[id].status := Cancelled;
      }
    }

    method GetSagaHistory(limit: int) returns (recent: seq<Instance>)
      requires Valid()
      ensures |recent| == |LastOf(completedOrder, limit)|
      ensures forall i :: 0 <= i < |recent| ==>
        LastOf(completedOrder, limit)[i] in completedInstances
        && recent[i] == completedInstances[LastOf(completedOrder, limit)[i]]
    {
      var ids := LastOf(completedOrder, limit);
      recent := [];
      for i := 0 to |ids|
        invariant |recent| == i
        invariant forall j :: 0 <= j < |ids| ==> ids[j] in completedInstances
        invariant forall j :: 0 <= j < i ==> recent[j] == completedInstances[ids[j]]
      {
        recent := recent + [completedInstances[ids[i]]];
      }
    }
  }
}
