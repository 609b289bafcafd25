/**
 The unit of work: saves every tracked aggregate, hands the saved events to the
 publisher, then marks them committed.
 */
module UnitsOfWork {
  import opened Wrappers
  import opened TaskEvents
  import opened TaskModel
  import opened EventLog
  import opened TaskAggregates
  import opened EventStores
  import opened Backoff

  /** An event passed to the publisher, and how many rows the store held at that moment. */
  datatype Handed = Handed(event: Event, rowsThen: nat)

  class EventPublisher {
    var handed: seq<Handed>

    constructor ()
      ensures handed == []
    {
      handed := [];
    }

    method Hand(e: Event, rowsThen: nat)
      modifies this
      ensures handed == old(handed) + [Handed(e, rowsThen)]
    {
      handed := handed + [Handed(e, rowsThen)];
    }
  }

  /**
   `_publish_with_retry` against an arbitrary pattern of failures: it stops at
   the first success and raises only after every attempt failed; the pauses
   before attempt `n` add up to 2^n - 1 seconds.
   */
  method PublishWithRetry(fails: nat -> bool, maxRetries: nat) returns (raised: bool, attempts: nat, slept: real)
    ensures attempts <= maxRetries
    ensures raised <==> maxRetries > 0 && forall a :: 0 <= a < maxRetries ==> fails(a)
    ensures raised ==> attempts == maxRetries
    ensures !raised && maxRetries > 0 ==> attempts > 0 && !fails(attempts - 1) && forall a :: 0 <= a < attempts - 1 ==> fails(a)
    ensures slept == if attempts == 0 then 0.0 else Pow2(attempts - 1) as real - 1.0
  {
    raised, attempts, slept := false, 0, 0.0;
    while attempts < maxRetries
      invariant attempts <= maxRetries && !raised
      invariant forall a :: 0 <= a < attempts ==> fails(a)
      invariant attempts == maxRetries ==> maxRetries == 0
      invariant slept == Slept(1.0, attempts)
    {
      var attempt := attempts;
      attempts := attempts + 1;
      if !fails(attempt) {
        return;
      }
      if attempt == maxRetries - 1 {
        raised := true;
        return;
      }
      slept := slept + Pow2(attempt) as real;
    }
  }

  datatype CommitResult = Done | Failed(cause: SaveResult) | AlreadyCompleted

  // ---------- what a commit stores ----------

  function OwnVersion(a: Agg): int {
    a.version - |a.pending|
  }

  /** Saving aggregates one after the other: the log reached, and the first refusal or `Saved`. */
  function SaveAll(log: seq<Event>, aggs: seq<Agg>): (seq<Event>, SaveResult) {
    if aggs == [] then (log, Saved)
    else
      var (before, r) := SaveAll(log, aggs[..|aggs| - 1]);
      var a := aggs[|aggs| - 1];
      if r != Saved then (before, r)
      else
        var r' := SaveOutcome(before, a.id, a.pending, OwnVersion(a));
        (if r' == Saved then before + a.pending else before, r')
  }

  function AllPending(aggs: seq<Agg>): seq<Event> {
    if aggs == [] then [] else AllPending(aggs[..|aggs| - 1]) + aggs[|aggs| - 1].pending
  }

  predicate Stamped(a: Agg) {
    forall i :: 0 <= i < |a.pending| ==> a.pending[i].aggregateId == a.id
  }

  predicate DistinctIds(aggs: seq<Agg>) {
    forall i, j :: 0 <= i < j < |aggs| ==> aggs[i].id != aggs[j].id
  }

  /** A successful commit appends exactly the unsaved events. */
  lemma {:induction false} SaveAllAppends(log: seq<Event>, aggs: seq<Agg>)
    requires SaveAll(log, aggs).1 == Saved
    ensures SaveAll(log, aggs).0 == log + AllPending(aggs)
  {
    hide SaveOutcome;
    if aggs == [] {
      assert log + [] == log;
    } else {
      var n := |aggs| - 1;
      SaveAllAppends(log, aggs[..n]);
      assert log + AllPending(aggs[..n]) + aggs[n].pending == log + (AllPending(aggs[..n]) + aggs[n].pending);
    }
  }

  /** A refused commit has stored the batches of the aggregates before the refused one, and nothing else. */
  lemma {:induction false} RefusedCommitStores(log: seq<Event>, aggs: seq<Agg>) returns (k: nat)
    requires SaveAll(log, aggs).1 != Saved
    ensures k < |aggs|
    ensures SaveAll(log, aggs).0 == log + AllPending(aggs[..k]) && SaveAll(log, aggs[..k]).1 == Saved
    ensures SaveAll(log, aggs).1 == SaveOutcome(log + AllPending(aggs[..k]), aggs[k].id, aggs[k].pending, OwnVersion(aggs[k]))
  {
    hide SaveOutcome;
    var n := |aggs| - 1;
    if SaveAll(log, aggs[..n]).1 == Saved {
      k := n;
      SaveAllAppends(log, aggs[..n]);
    } else {
      k := RefusedCommitStores(log, aggs[..n]);
      assert aggs[..n][..k] == aggs[..k];
    }
  }

  /**
   Per task: a successful commit extends each tracked log by exactly its unsaved
   events in order, and no other log.
   */
  lemma {:induction false} CommitExtendsEachLog(log: seq<Event>, aggs: seq<Agg>, id: string)
    requires SaveAll(log, aggs).1 == Saved && DistinctIds(aggs)
    requires forall i :: 0 <= i < |aggs| ==> Stamped(aggs[i])
    ensures forall i :: 0 <= i < |aggs| && aggs[i].id == id ==>
      EventsOf(SaveAll(log, aggs).0, id) == EventsOf(log, id) + aggs[i].pending
    ensures (forall i :: 0 <= i < |aggs| ==> aggs[i].id != id) ==>
      EventsOf(SaveAll(log, aggs).0, id) == EventsOf(log, id)
  {
    hide SaveOutcome, EventsOf;
    if aggs != [] {
      var n := |aggs| - 1;
      var a := aggs[n];
      CommitExtendsEachLog(log, aggs[..n], id);
      assert Stamped(a);
      AppendBatch(SaveAll(log, aggs[..n]).0, a.pending, a.id, id);
    }
  }

  /** The first refusal ends the saving. */
  lemma {:induction false} SaveAllStops(log: seq<Event>, aggs: seq<Agg>, k: nat)
    requires k <= |aggs| && SaveAll(log, aggs[..k]).1 != Saved
    ensures SaveAll(log, aggs) == SaveAll(log, aggs[..k])
  {
    hide SaveOutcome;
    if k == |aggs| {
      assert aggs[..k] == aggs;
    } else {
      assert aggs[..|aggs| - 1][..k] == aggs[..k];
      SaveAllStops(log, aggs[..|aggs| - 1], k);
    }
  }

  lemma NothingToSave(log: seq<Event>, none: seq<Agg>)
    requires none == []
    ensures SaveAll(log, none) == (log, Saved) && AllPending(none) == []
  {
  }

  /** One more aggregate. */
  lemma SaveAllNext(log: seq<Event>, aggs: seq<Agg>, i: nat)
    requires i < |aggs| && SaveAll(log, aggs[..i]).1 == Saved
    ensures var before, a := SaveAll(log, aggs[..i]).0, aggs[i];
            var r := SaveOutcome(before, a.id, a.pending, OwnVersion(a));
            && SaveAll(log, aggs[..i + 1]) == (if r == Saved then before + a.pending else before, r)
            && AllPending(aggs[..i + 1]) == AllPending(aggs[..i]) + a.pending
  {
    hide SaveOutcome;
    assert aggs[..i + 1][..i] == aggs[..i];
  }

  lemma EmptySave(log: seq<Event>, a: Agg)
    requires a.pending == []
    ensures SaveOutcome(log, a.id, a.pending, OwnVersion(a)) == Saved
  {
  }

  /**
   A handler that calls `repository.save` inside the unit of work saves the same
   batch again on commit: whatever version is expected and whatever was stored
   in between, that second save is refused and the log is left as it is.
   */
  lemma SecondSaveRefused(log: seq<Event>, between: seq<Event>, a: Agg, expected: int, again: int)
    requires a.pending != [] && Stamped(a)
    requires SaveOutcome(log, a.id, a.pending, expected) == Saved
    ensures SaveOutcome(log + a.pending + between, a.id, a.pending, again) != Saved
    ensures SaveAll(log + a.pending + between, [a]) ==
            (log + a.pending + between, SaveOutcome(log + a.pending + between, a.id, a.pending, OwnVersion(a)))
  {
    var later := log + a.pending + between;
    assert later[|log|] == a.pending[0];
    assert !Fits(later, a.pending[0]);
    assert later + a.pending[..0] == later;
    assert !BatchFits(later, a.pending);
    assert [a][..0] == [];
  }

  // ---------- the object ----------

  class UnitOfWork {
    const store: EventStore
    const publisher: EventPublisher
    var order: seq<string>
    var tracked: map<string, TaskAggregate>
    var eventsToPublish: seq<Event>
    var committed: bool
    var rolledBack: bool
    /** How many calls of `commit` got past its guard. */
    ghost var passes: nat

    ghost predicate Consistent()
      reads this, store
    {
      && store.Valid()
      && (forall i :: 0 <= i < |order| ==> order[i] in tracked)
      && (forall id :: id in tracked ==> id in order && tracked[id].aggregateId == id)
      && (forall i, j :: 0 <= i < j < |order| ==> order[i] != order[j])
      && passes <= 1
    }

    /** Until a commit or a rollback ends the unit, no commit has passed the guard. */
    ghost predicate Valid()
      reads this, store
    {
      && Consistent()
      && (!committed && !rolledBack ==> passes == 0 && eventsToPublish == [])
    }

    /** The tracked aggregates' values, in tracking order. */
    ghost function Snapshots(): (aggs: seq<Agg>)
      requires forall i :: 0 <= i < |order| ==> order[i] in tracked
      reads this, tracked.Values
    {
      seq(|order|, i requires 0 <= i < |order| && order[i] in tracked reads this, tracked.Values => tracked[order[i]].Value())
    }

    constructor (store: EventStore, publisher: EventPublisher)
      requires store.Valid()
      ensures Valid() && fresh(this) && this.store == store && this.publisher == publisher
      ensures order == [] && !committed && !rolledBack && passes == 0
    {
      this.store, this.publisher := store, publisher;
      order, tracked, eventsToPublish := [], map[], [];
      committed, rolledBack, passes := false, false, 0;
    }

    method TrackAggregate(a: TaskAggregate)
      requires Valid()
      modifies this
      ensures Valid()
      ensures tracked == old(tracked)[a.aggregateId := a]
      ensures order == if a.aggregateId in old(tracked) then old(order) else old(order) + [a.aggregateId]
      ensures committed == old(committed) && rolledBack == old(rolledBack) && passes == old(passes)
    {
      if a.aggregateId !in tracked {
        order := order + [a.aggregateId];
      }
      tracked := tracked[a.aggregateId := a];
    }

    method Rollback()
      requires Consistent()
      modifies this
      ensures Valid()
      ensures order == [] && tracked == map[] && eventsToPublish == [] && rolledBack
      ensures committed == old(committed) && passes == old(passes)
    {
      order, tracked, eventsToPublish := [], map[], [];
      rolledBack := true;
    }

    /** The first loop of `commit`. */
    method SaveTracked() returns (r: SaveResult)
      requires Consistent() && eventsToPublish == []
      requires forall i :: 0 <= i < |order| ==> Stamped(tracked[order[i]].Value())
      modifies this, store
      ensures Consistent()
      ensures order == old(order) && tracked == old(tracked)
      ensures committed == old(committed) && rolledBack == old(rolledBack) && passes == old(passes)
      ensures (store.log, r) == SaveAll(old(store.log), old(Snapshots()))
      ensures r == Saved ==> eventsToPublish == AllPending(old(Snapshots()))
    {
      hide SaveOutcome, SaveAll, AllPending, EventStore.Valid;
      ghost var aggs := Snapshots();
      assert SaveAll(store.log, aggs[..0]) == (store.log, Saved) && AllPending(aggs[..0]) == [] by {
        NothingToSave(store.log, aggs[..0]);
      }
      for i := 0 to |order|
        invariant store.Valid() && order == old(order) && tracked == old(tracked)
        invariant committed == old(committed) && rolledBack == old(rolledBack) && passes == old(passes)
        invariant (store.log, Saved) == SaveAll(old(store.log), aggs[..i])
        invariant eventsToPublish == AllPending(aggs[..i])
      {
        var id := order[i];
        var aggregate := tracked[id];
        assert aggs[i] == aggregate.Value();
        SaveAllNext(old(store.log), aggs, i);
        var events := aggregate.uncommitted;
        if events != [] {
          r := store.SaveEvents(id, events, aggregate.version - |events|);
          if r != Saved {
            SaveAllStops(old(store.log), aggs, i + 1);
            return;
          }
          eventsToPublish := eventsToPublish + events;
        } else {
          EmptySave(store.log, aggs[i]);
          assert store.log + [] == store.log && eventsToPublish + [] == eventsToPublish;
        }
      }
      assert aggs[..|aggs|] == aggs;
      r := Saved;
    }

    /**
     The publishing part of `commit`: every event is handed over, in order, and
     failed or slow publishes do not fail the commit.
     */
    method HandToPublisher()
      requires store.Valid()
      modifies publisher
      ensures |publisher.handed| == |old(publisher.handed)| + |eventsToPublish|
      ensures old(publisher.handed) <= publisher.handed
      ensures forall i :: 0 <= i < |eventsToPublish| ==>
        publisher.handed[|old(publisher.handed)| + i] == Handed(eventsToPublish[i], |store.log|)
    {
      for i := 0 to |eventsToPublish|
        invariant |publisher.handed| == |old(publisher.handed)| + i
        invariant old(publisher.handed) <= publisher.handed
        invariant forall j :: 0 <= j < i ==>
          publisher.handed[|old(publisher.handed)| + j] == Handed(eventsToPublish[j], |store.log|)
      {
        publisher.Hand(eventsToPublish[i], |store.rows|);
      }
    }

    method MarkTracked()
      requires Consistent()
      modifies tracked.Values
      ensures forall id :: id in tracked ==> tracked[id].Value() == old(tracked[id].Value()).(pending := [])
    {
      for i := 0 to |order|
        invariant forall j :: 0 <= j < i ==> tracked[order[j]].Value() == old(tracked[order[j]].Value()).(pending := [])
        invariant forall j :: i <= j < |order| ==> tracked[order[j]].Value() == old(tracked[order[j]].Value())
      {
        var aggregate := tracked[order[i]];
        assert forall j :: 0 <= j < |order| && j != i ==> tracked[order[j]].aggregateId != aggregate.aggregateId;
        aggregate.MarkEventsCommitted();
      }
    }

    /**
     `commit`. Past the guard, either every tracked aggregate is saved, and only
     then are exactly their events handed over and marked; or nothing is
     handed over and the unit is rolled back. Either way no later commit gets
     past the guard.
     */
    method Commit() returns (r: CommitResult)
      requires Valid()
      requires forall i :: 0 <= i < |order| ==> Stamped(tracked[order[i]].Value())
      modifies this, store, publisher, tracked.Values
      ensures Valid() && (committed || rolledBack)
      ensures passes == old(passes) + (if old(committed || rolledBack) then 0 else 1)
      ensures old(committed || rolledBack) ==>
        && r == AlreadyCompleted && unchanged(this) && unchanged(store) && unchanged(publisher)
        && forall id :: id in tracked ==> tracked[id].Value() == old(tracked[id].Value())
      ensures !old(committed || rolledBack) ==>
        var (log, saved) := SaveAll(old(store.log), old(Snapshots()));
        && store.log == log
        && (r == Done <==> saved == Saved) && (r != Done ==> r == Failed(saved))
      ensures r == Done ==>
        && committed && !rolledBack && tracked == old(tracked)
        && (forall id :: id in tracked ==> tracked[id].Value() == old(tracked[id].Value()).(pending := []))
        && var events, before := AllPending(old(Snapshots())), old(publisher.handed);
           && |publisher.handed| == |before| + |events| && before <= publisher.handed
           && forall i :: 0 <= i < |events| ==> publisher.handed[|before| + i] == Handed(events[i], |store.log|)
      ensures r.Failed? ==>
        && rolledBack && tracked == map[]
        && publisher.handed == old(publisher.handed)
        && forall id :: id in old(tracked) ==> old(tracked)[id].Value() == old(tracked[id].Value())
    {
      hide SaveOutcome, SaveAll, AllPending, EventStore.Valid, Snapshots;
      if committed || rolledBack {
        return AlreadyCompleted;
      }
      var saved := SaveTracked();
      passes := passes + 1;
      if saved != Saved {
        Rollback();
        return Failed(saved);
      }
      PublishAndMark();
      r := Done;
    }

    /** The part of `commit` after the last save. */
    method PublishAndMark()
      requires Consistent()
      modifies this`committed, publisher, tracked.Values
      ensures Consistent() && committed
      ensures forall id :: id in tracked ==> tracked[id].Value() == old(tracked[id].Value()).(pending := [])
      ensures |publisher.handed| == |old(publisher.handed)| + |eventsToPublish| && old(publisher.handed) <= publisher.handed
      ensures forall i :: 0 <= i < |eventsToPublish| ==>
        publisher.handed[|old(publisher.handed)| + i] == Handed(eventsToPublish[i], |store.log|)
    {
      hide EventStore.Valid;
      HandToPublisher();
      MarkTracked();
      committed := true;
    }

    /** Leaving the `async with` block, with or without an exception. */
    method Exit(failed: bool) returns (r: Option<CommitResult>)
      requires Valid()
      requires forall i :: 0 <= i < |order| ==> Stamped(tracked[order[i]].Value())
      modifies this, store, publisher, tracked.Values
      ensures Valid() && (committed || rolledBack)
      ensures r.Some? <==> !failed && !old(committed || rolledBack)
      ensures passes == old(passes) + (if r.Some? then 1 else 0)
      ensures r.Some? ==> store.log == SaveAll(old(store.log), old(Snapshots())).0
      ensures r.None? ==> unchanged(store) && unchanged(publisher)
      ensures failed ==> rolledBack && tracked == map[] && committed == old(committed)
      ensures !failed && r.None? ==> unchanged(this)
    {
      hide SaveAll;
      r := None;
      if failed {
        Rollback();
      } else if !committed && !rolledBack {
        var result := Commit();
        r := Some(result);
      }
    }
  }
}
