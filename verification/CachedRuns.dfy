/**
 The repository's cache over whole runs. Objects are the writers of
 WriterProtocol, the cache maps task ids to objects, and every row is written
 through this repository.
 */
module CachedRuns {
  import opened Wrappers
  import opened TaskModel
  import opened TaskHistory
  import opened EventLog
  import opened WriterProtocol
  import EventStores
  import TaskListing

  datatype Repo = Repo(s: State, cache: map<string, nat>)

  datatype Call =
    | Get(id: string, object: nat)
    | Make(create: CreateCommand, id: string, eventId: string, object: nat)
    | Command(object: nat, command: TaskModel.Command, eventId: string)
    | BeginSave(object: nat, expected: Option<int>)
    | FinishSave(object: nat)
    | Committed(object: nat)
    | Invalidate(key: Option<string>)

  const EMPTY := Repo(INIT, map[])

  /** A save is accepted exactly when its rows appear. */
  predicate Accepts(s: State, w: nat) {
    w in s.writers && s.writers[w].phase.Checked? && BatchFits(s.rows, s.writers[w].phase.batch)
  }

  /** New objects get new names; a call that names a used one for them does nothing. */
  function Apply(r: Repo, c: Call): Repo {
    match c
    case Get(id, w) =>
      if id in r.cache || w in r.s.writers then r else
      var s := Do(r.s, Load(w, id));
      if w in s.writers then Repo(s, r.cache[id := w]) else r
    case Make(create, id, eventId, w) =>
      if w in r.s.writers then r else r.(s := Do(r.s, NewTask(w, create, id, eventId)))
    case Command(w, command, eventId) => r.(s := Do(r.s, Run(w, command, eventId)))
    case BeginSave(w, expected) => r.(s := Do(r.s, Check(w, expected)))
    case FinishSave(w) =>
      if Accepts(r.s, w) then Repo(Do(r.s, Insert(w)), r.cache[r.s.writers[w].agg.id := w])
      else r.(s := Do(r.s, Insert(w)))
    case Committed(w) => r.(s := Do(r.s, Mark(w)))
    case Invalidate(key) =>
      r.(cache := if key.None? || key.value == "" then map[] else r.cache - {key.value})
  }

  function ApplyAll(r: Repo, cs: seq<Call>): Repo {
    if cs == [] then r else Apply(ApplyAll(r, cs[..|cs| - 1]), cs[|cs| - 1])
  }

  /**
   A save that nothing comes between is the `save` of the repository object: the
   same outcome, the same rows, the same cache. It fails its check exactly when
   the outcome is a version conflict.
   */
  lemma SaveIsCheckThenInsert(r: Repo, w: nat, expected: Option<int>)
    requires w in r.s.writers && r.s.writers[w].phase.Holding? && r.s.writers[w].agg.pending != []
    ensures var a := r.s.writers[w].agg;
            var outcome := EventStores.SaveOutcome(r.s.rows, a.id, a.pending, ExpectedVersion(a, expected));
            var checked := Apply(r, BeginSave(w, expected));
            var r' := Apply(checked, FinishSave(w));
            && r'.s.rows == (if outcome.Saved? then r.s.rows + a.pending else r.s.rows)
            && r'.cache == (if outcome.Saved? then r.cache[a.id := w] else r.cache)
            && (outcome.VersionConflict? <==> checked == r)
            && r'.s.writers[w].agg == a && r'.s.writers[w].phase.Holding?
  {
    hide CurrentVersion, BatchFits;
  }

  predicate DisciplinedCall(r: Repo, c: Call) {
    match c
    case BeginSave(w, expected) => Disciplined(r.s, Check(w, expected))
    case Committed(w) => Disciplined(r.s, Mark(w))
    case _ => true
  }

  predicate DisciplinedCalls(r: Repo, cs: seq<Call>) {
    cs == [] ||
    (var n := |cs| - 1; DisciplinedCalls(r, cs[..n]) && DisciplinedCall(ApplyAll(r, cs[..n]), cs[n]))
  }

  /** A cached object belongs to its key and has seen, or itself stored, everything in its log. */
  ghost predicate Fresh(s: State, id: string, w: nat) {
    && w in s.writers
    && s.writers[w].agg.id == id
    && s.writers[w].base + s.writers[w].stored == |EventsOf(s.rows, id)|
  }

  ghost predicate EntryFresh(r: Repo, id: string) {
    id in r.cache ==> Fresh(r.s, id, r.cache[id])
  }

  ghost predicate RepoInv(r: Repo) {
    && Inv(r.s)
    && forall id :: EntryFresh(r, id)
  }

  lemma FreshAfterCommand(s: State, w: nat, command: TaskModel.Command, eventId: string, id: string, v: nat)
    requires Fresh(s, id, v)
    ensures Fresh(Do(s, Run(w, command, eventId)), id, v)
  {
    hide EventsOf, Decide, TaskModel.Apply;
  }

  lemma LoadedIsFresh(s: State, w: nat, id: string)
    requires Inv(s) && w !in s.writers && w in Do(s, Load(w, id)).writers
    ensures Fresh(Do(s, Load(w, id)), id, w)
    ensures forall key, v :: Fresh(s, key, v) ==> Fresh(Do(s, Load(w, id)), key, v)
  {
    hide WriterInv, Legal, FromEvents;
    assert Legal(id, EventsOf(s.rows, id));
    LoadNeedsEvents(s.rows, id);
    RebuildFromStore(s.rows, id);
  }

  lemma FinishKeepsFresh(s: State, w: nat, id: string, v: nat)
    requires Inv(s) && Fresh(s, id, v)
    requires Accepts(s, w) ==> s.writers[w].agg.id != id
    ensures Fresh(Do(s, Insert(w)), id, v)
  {
    hide WriterInv, Legal, EventsOf, BatchFits;
    if Accepts(s, w) {
      assert WriterOk(s, w);
      InsertKeeps(s.writers[w], s.rows);
    }
  }

  lemma SavedIsFresh(s: State, w: nat)
    requires Inv(s) && Accepts(s, w)
    ensures Fresh(Do(s, Insert(w)), s.writers[w].agg.id, w)
  {
    hide WriterInv, Legal, EventsOf, BatchFits;
    assert WriterOk(s, w);
    InsertKeeps(s.writers[w], s.rows);
  }

  lemma EntriesAreFresh(r: Repo)
    requires RepoInv(r)
    ensures forall key :: key in r.cache ==> Fresh(r.s, key, r.cache[key])
  {
    hide Fresh, Inv;
    forall key | key in r.cache ensures Fresh(r.s, key, r.cache[key]) {
      assert EntryFresh(r, key);
    }
  }

  lemma CallKeepsInv(r: Repo, c: Call)
    requires RepoInv(r) && DisciplinedCall(r, c)
    ensures RepoInv(Apply(r, c))
  {
    hide Inv, Do, Fresh, BatchFits, EventsOf;
    EntriesAreFresh(r);
    match c
    case Get(id, w) =>
      StepKeepsInv(r.s, Load(w, id));
      if id !in r.cache && w !in r.s.writers && w in Do(r.s, Load(w, id)).writers {
        LoadedIsFresh(r.s, w, id);
      }
    case Make(create, id, eventId, w) =>
      StepKeepsInv(r.s, NewTask(w, create, id, eventId));
      if w !in r.s.writers {
        MadeKeepsFresh(r, create, id, eventId, w);
      }
    case Command(w, command, eventId) =>
      StepKeepsInv(r.s, Run(w, command, eventId));
      forall key | key in r.cache ensures Fresh(Do(r.s, Run(w, command, eventId)), key, r.cache[key]) {
        FreshAfterCommand(r.s, w, command, eventId, key, r.cache[key]);
      }
    case BeginSave(w, expected) =>
      StepKeepsInv(r.s, Check(w, expected));
      QuietKeepsFresh(r, Check(w, expected));
    case FinishSave(w) =>
      StepKeepsInv(r.s, Insert(w));
      if Accepts(r.s, w) {
        SavedIsFresh(r.s, w);
      }
      forall key | key in r.cache && !(Accepts(r.s, w) && r.s.writers[w].agg.id == key)
        ensures Fresh(Do(r.s, Insert(w)), key, r.cache[key])
      {
        FinishKeepsFresh(r.s, w, key, r.cache[key]);
      }
    case Committed(w) =>
      StepKeepsInv(r.s, Mark(w));
      QuietKeepsFresh(r, Mark(w));
    case Invalidate(_) =>
  }

  lemma MadeKeepsFresh(r: Repo, create: CreateCommand, id: string, eventId: string, w: nat)
    requires RepoInv(r) && w !in r.s.writers
    ensures forall key :: key in r.cache ==> Fresh(Do(r.s, NewTask(w, create, id, eventId)), key, r.cache[key])
  {
    hide Inv, Create, EventsOf;
    EntriesAreFresh(r);
  }

  lemma QuietKeepsFresh(r: Repo, step: Step)
    requires RepoInv(r) && (step.Check? || (step.Mark? && Disciplined(r.s, step)))
    ensures forall key :: key in r.cache ==> Fresh(Do(r.s, step), key, r.cache[key])
  {
    hide Inv, EventsOf, CurrentVersion;
    EntriesAreFresh(r);
  }

  lemma {:induction false} CallsKeepInv(r: Repo, cs: seq<Call>)
    requires RepoInv(r) && DisciplinedCalls(r, cs)
    ensures RepoInv(ApplyAll(r, cs))
  {
    hide RepoInv, Apply, DisciplinedCall;
    if cs != [] {
      var n := |cs| - 1;
      CallsKeepInv(r, cs[..n]);
      CallKeepsInv(ApplyAll(r, cs[..n]), cs[n]);
    }
  }

  /** The protocol step of a call, if it makes one. */
  function StepsOf(r: Repo, c: Call): seq<Step> {
    match c
    case Get(id, w) => if id in r.cache || w in r.s.writers then [] else [Load(w, id)]
    case Make(create, id, eventId, w) => if w in r.s.writers then [] else [NewTask(w, create, id, eventId)]
    case Command(w, command, eventId) => [Run(w, command, eventId)]
    case BeginSave(w, expected) => [Check(w, expected)]
    case FinishSave(w) => [Insert(w)]
    case Committed(w) => [Mark(w)]
    case Invalidate(_) => []
  }

  /** The protocol steps of a run. */
  function Trace(cs: seq<Call>): seq<Step> {
    if cs == [] then []
    else Trace(cs[..|cs| - 1]) + StepsOf(ApplyAll(EMPTY, cs[..|cs| - 1]), cs[|cs| - 1])
  }

  lemma CallIsItsSteps(r: Repo, c: Call)
    ensures Apply(r, c).s == if StepsOf(r, c) == [] then r.s else Do(r.s, StepsOf(r, c)[0])
    ensures |StepsOf(r, c)| <= 1
  {
    hide FromEvents, GetEvents, Create, BatchFits, CurrentVersion;
  }

  lemma {:induction false} TraceExecutes(cs: seq<Call>)
    ensures ApplyAll(EMPTY, cs).s == Execute(INIT, Trace(cs))
  {
    hide Do, Apply, StepsOf;
    if cs != [] {
      var before, last := cs[..|cs| - 1], cs[|cs| - 1];
      TraceExecutes(before);
      CallIsItsSteps(ApplyAll(EMPTY, before), last);
      var step := StepsOf(ApplyAll(EMPTY, before), last);
      if step == [] {
        assert Trace(cs) == Trace(before);
      } else {
        assert Trace(cs)[..|Trace(cs)| - 1] == Trace(before);
      }
    }
  }

  /** The cached object has accepted a shrinking command since it was built or last committed. */
  predicate EntryShrunk(cs: seq<Call>, id: string)
    requires id in ApplyAll(EMPTY, cs).cache
  {
    ShrunkSince(Trace(cs), ApplyAll(EMPTY, cs).cache[id])
  }

  /**
   Across any run of gets, commands, saves (accepted or refused), commits and
   invalidations, a cached aggregate is the replay of a prefix of its stored
   log and its own unsaved events if and only if it has accepted no shrinking
   command since it was built or last committed. Once it has no unsaved events,
   it is exactly what a fresh rebuild from the store gives.
   */
  lemma CacheInvariant(cs: seq<Call>, id: string)
    requires DisciplinedCalls(EMPTY, cs) && id in ApplyAll(EMPTY, cs).cache
    ensures CacheEntryOk(ApplyAll(EMPTY, cs), id)
    ensures IsReplay(ApplyAll(EMPTY, cs), id) <==> !EntryShrunk(cs, id)
  {
    hide ApplyAll, DisciplinedCalls, Execute, ShrunkSince, Trace;
    assert RepoInv(EMPTY) by {
      assert Inv(INIT);
    }
    CallsKeepInv(EMPTY, cs);
    EntryOk(ApplyAll(EMPTY, cs), id);
    TraceExecutes(cs);
    FailedIff(Trace(cs), ApplyAll(EMPTY, cs).cache[id]);
  }

  /** The cached object is the replay of the log prefix it was built on and its unsaved events. */
  predicate IsReplay(r: Repo, id: string) {
    && id in r.cache && r.cache[id] in r.s.writers
    && var wr, log := r.s.writers[r.cache[id]], EventsOf(r.s.rows, id);
       wr.base <= |log| && Replay(log[..wr.base] + wr.agg.pending) == Some(wr.agg.task)
  }

  ghost predicate CacheEntryOk(r: Repo, id: string) {
    && id in r.cache && r.cache[id] in r.s.writers
    && var wr, log := r.s.writers[r.cache[id]], EventsOf(r.s.rows, id);
       && wr.agg.id == id && wr.base <= |log|
       && (IsReplay(r, id) <==> wr.poisonAt.None?)
       && (wr.agg.pending == [] ==> FromEvents(GetEvents(r.s.rows, id, 0)) == Some(wr.agg))
  }

  lemma EntryOk(r: Repo, id: string)
    requires RepoInv(r) && id in r.cache
    ensures CacheEntryOk(r, id)
  {
    hide Legal, EventsOf, FromEvents, GetEvents, Replay, UniqueRows;
    EntriesAreFresh(r);
    var wr, log := r.s.writers[r.cache[id]], EventsOf(r.s.rows, id);
    assert WriterOk(r.s, r.cache[id]) && Legal(id, log);
    ReplayOfPending(wr, log);
    if wr.agg.pending == [] {
      assert wr.base == |log| && wr.applied == [];
      assert log[..wr.base] + wr.applied == log;
      RebuildFromStore(r.s.rows, id);
    }
  }

  /** What `get_by_id` returns for an id without and with its cache entry. */
  function Rebuilt(r: Repo, id: string): Option<Agg> {
    var a :- FromEvents(GetEvents(r.s.rows, id, 0));
    if a.task.isDeleted then None else Some(a)
  }

  /**
   A cache hit without unsaved events agrees with a fresh lookup exactly when the
   task is not deleted: a deleted one stays visible through the cache.
   */
  lemma HitAgreesIff(cs: seq<Call>, id: string)
    requires DisciplinedCalls(EMPTY, cs) && id in ApplyAll(EMPTY, cs).cache
    ensures var r := ApplyAll(EMPTY, cs);
            && r.cache[id] in r.s.writers
            && var a := r.s.writers[r.cache[id]].agg;
               a.pending == [] ==> (Rebuilt(r, id) == Some(a) <==> !a.task.isDeleted)
  {
    hide EventsOf, FromEvents, GetEvents, Replay, ApplyAll;
    CacheInvariant(cs, id);
  }

  // ---------- listing ----------

  /**
   After any run of any number of writers, a scan of the whole table lists each
   task as its own lookup would rebuild it.
   */
  lemma ListingAgreesWithLookups(steps: seq<Step>, status: Option<string>, assignee: Option<string>)
    requires DisciplinedRun(INIT, steps)
    ensures var rows := Execute(INIT, steps).rows;
            var ids := TaskListing.FirstSeen(rows);
            TaskListing.Listed(rows, ids, status, assignee) == TaskListing.ListedFromStore(rows, ids, status, assignee)
  {
    hide Legal, Execute, DisciplinedRun, UniqueRows, TaskListing.Listed, TaskListing.ListedFromStore;
    var rows := Execute(INIT, steps).rows;
    Serializability(steps, "");
    forall i | 0 <= i < |rows| ensures rows[i].version > 0 {
      var id := rows[i].aggregateId;
      Serializability(steps, id);
      LegalVersions(id, EventsOf(rows, id));
      EventsOfMembers(rows, id, rows[i]);
    }
    TaskListing.FullScanIsPerTaskReplay(rows, TaskListing.FirstSeen(rows), status, assignee);
  }

  // ---------- lookups ----------

  /** A miss finds what a rebuild finds, and caches it; a hit changes nothing. */
  lemma MissIsRebuild(r: Repo, id: string, w: nat)
    requires w !in r.s.writers
    ensures var r' := Apply(r, Get(id, w));
      && (id in r.cache ==> r' == r)
      && (id !in r.cache ==>
            && (id in r'.cache <==> Rebuilt(r, id).Some?)
            && (id in r'.cache ==> r'.cache[id] == w && w in r'.s.writers && Some(r'.s.writers[w].agg) == Rebuilt(r, id))
            && r'.s.rows == r.s.rows && forall other :: other != id ==> (other in r'.cache <==> other in r.cache))
  {
    hide FromEvents, GetEvents;
  }

  /** Invalidating an entry, or all of them, makes the next lookup a rebuild, so a deleted task is gone. */
  lemma InvalidationHeals(r: Repo, key: Option<string>, id: string, w: nat)
    requires w !in r.s.writers && (key.None? || key.value == "" || key.value == id)
    ensures var r' := Apply(Apply(r, Invalidate(key)), Get(id, w));
      && (id in r'.cache <==> Rebuilt(r, id).Some?)
      && (id in r'.cache ==> r'.cache[id] == w && w in r'.s.writers && Some(r'.s.writers[w].agg) == Rebuilt(r, id))
  {
    hide FromEvents, GetEvents;
    MissIsRebuild(Apply(r, Invalidate(key)), id, w);
  }

  /** Invalidating one entry keeps the others. */
  lemma InvalidationIsLocal(r: Repo, key: string, other: string)
    requires key != "" && key != other && other in r.cache
    ensures var r' := Apply(r, Invalidate(Some(key))); other in r'.cache && r'.cache[other] == r.cache[other] && r'.s == r.s
  {
  }
}
