/**
 Any number of writers working on one event store. A save is two steps, the
 version check and the batch insert, and steps of different writers interleave
 freely. Each writer holds its own aggregate object.
 */
module WriterProtocol {
  import opened Wrappers
  import opened TaskEvents
  import opened TaskModel
  import opened TaskHistory
  import opened EventLog

  /** Between the check and the insert, `save_events` holds the copy of the batch it was called with. */
  datatype Phase = Holding | Checked(expected: int, batch: seq<Event>)

  /**
   `base`, `applied`, `poisonAt` and `stored` are history variables: the log
   length the object was built on, the events applied to it since, the place of
   the first pending event whose application raised, and how many pending
   events are already in the table.
   */
  datatype Writer = Writer(agg: Agg, phase: Phase, base: nat, applied: seq<Event>, poisonAt: Option<nat>, stored: nat)

  datatype State = State(rows: seq<Event>, writers: map<nat, Writer>)

  datatype Step =
    | NewTask(w: nat, create: CreateCommand, id: string, eventId: string)
    | Load(w: nat, id: string)
    | Run(w: nat, command: Command, eventId: string)
    | Check(w: nat, expected: Option<int>)
    | Insert(w: nat)
    | Mark(w: nat)
    | Drop(w: nat)

  const INIT := State([], map[])

  function AfterRun(wr: Writer, c: Command, eventId: string): Writer {
    var (a, outcome) := Handle(wr.agg, c, eventId);
    match outcome
    case Refused => wr
    case Unchanged => wr
    case Recorded => wr.(agg := a, applied := wr.applied + [a.pending[|a.pending| - 1]])
    case ApplyRaised => wr.(agg := a, poisonAt := if wr.poisonAt.None? then Some(|wr.agg.pending|) else wr.poisonAt)
  }

  /** The expected version a save checks: the caller's, or the version minus the unsaved events. */
  function ExpectedVersion(a: Agg, expected: Option<int>): int {
    if expected.Some? then expected.value else a.version - |a.pending|
  }

  /** A step that is not enabled leaves the state alone; so does a command, load or check that raises. */
  function Do(s: State, step: Step): State {
    match step
    case NewTask(w, create, id, eventId) =>
      (match Create(create, id, eventId)
       case None => s
       case Some(a) => s.(writers := s.writers[w := Writer(a, Holding, 0, a.pending, None, 0)]))
    case Load(w, id) =>
      var es := GetEvents(s.rows, id, 0);
      (match FromEvents(es)
       case None => s
       case Some(a) =>
         if a.task.isDeleted then s
         else s.(writers := s.writers[w := Writer(a, Holding, |es|, [], None, 0)]))
    case Run(w, command, eventId) =>
      if w !in s.writers then s
      else s.(writers := s.writers[w := AfterRun(s.writers[w], command, eventId)])
    case Check(w, expected) =>
      if w !in s.writers || s.writers[w].phase.Checked? || s.writers[w].agg.pending == [] then s else
      var wr := s.writers[w];
      var e := ExpectedVersion(wr.agg, expected);
      if CurrentVersion(s.rows, wr.agg.id) != e then s
      else s.(writers := s.writers[w := wr.(phase := Checked(e, wr.agg.pending))])
    case Insert(w) =>
      if w !in s.writers || s.writers[w].phase.Holding? then s else
      var wr := s.writers[w];
      if BatchFits(s.rows, wr.phase.batch) then
        State(s.rows + wr.phase.batch, s.writers[w := wr.(phase := Holding, stored := |wr.phase.batch|)])
      else
        s.(writers := s.writers[w := wr.(phase := Holding)])
    case Mark(w) =>
      if w !in s.writers then s else
      var wr := s.writers[w];
      s.(writers := s.writers[w := wr.(agg := wr.agg.(pending := []), base := wr.base + |wr.agg.pending|,
                                      applied := [], poisonAt := None, stored := 0)])
    case Drop(w) =>
      s.(writers := map v | v in s.writers && v != w :: s.writers[v])
  }

  function Execute(s: State, steps: seq<Step>): State {
    if steps == [] then s else Do(Execute(s, steps[..|steps| - 1]), steps[|steps| - 1])
  }

  /**
   The two things the protocol relies on its callers for: events are marked as
   committed only once they are all in the table and no save is under way
   (private ownership), and a caller passes an expected version of its own only
   with an aggregate none of whose pending events failed to apply.
   */
  predicate Disciplined(s: State, step: Step) {
    match step
    case Mark(w) => w in s.writers ==> s.writers[w].phase.Holding? && s.writers[w].stored == |s.writers[w].agg.pending|
    case Check(w, expected) => w in s.writers && expected.Some? ==> s.writers[w].poisonAt.None?
    case _ => true
  }

  /** Every step is disciplined in the state it is taken in. */
  predicate DisciplinedRun(s: State, steps: seq<Step>) {
    steps == [] ||
    (var n := |steps| - 1; DisciplinedRun(s, steps[..n]) && Disciplined(Execute(s, steps[..n]), steps[n]))
  }

  // ---------- the invariant ----------

  ghost predicate WriterInv(wr: Writer, log: seq<Event>) {
    && wr.base <= |log|
    && log[..wr.base] + wr.applied != []
    && Legal(wr.agg.id, log[..wr.base] + wr.applied)
    && Replay(log[..wr.base] + wr.applied) == Some(wr.agg.task)
    && wr.agg.version == wr.base + |wr.applied|
    && (wr.agg.pending != [] ==> wr.agg.pending[0].version == wr.base + 1)
    && (forall i :: 0 <= i < |wr.agg.pending| ==> wr.agg.pending[i].aggregateId == wr.agg.id)
    && (wr.poisonAt.None? ==> wr.agg.pending == wr.applied)
    && (wr.poisonAt.Some? ==> PoisonInv(wr, log, wr.poisonAt.value))
    && wr.stored <= |wr.agg.pending| && wr.base + wr.stored <= |log|
    && log[wr.base..wr.base + wr.stored] == wr.agg.pending[..wr.stored]
    && (wr.phase.Checked? ==> CheckedInv(wr, log))
  }

  ghost predicate PoisonInv(wr: Writer, log: seq<Event>, k: nat)
    requires wr.base <= |log|
  {
    && |wr.applied| < |wr.agg.pending|
    && k < |wr.agg.pending| && k <= |wr.applied|
    && wr.agg.pending[..k] == wr.applied[..k]
    && Replay(log[..wr.base] + wr.applied[..k] + [wr.agg.pending[k]]).None?
  }

  ghost predicate CheckedInv(wr: Writer, log: seq<Event>)
    requires wr.phase.Checked?
  {
    && wr.phase.batch != []
    && wr.phase.batch <= wr.agg.pending
    && wr.phase.batch <= wr.applied
    && wr.base <= wr.phase.expected <= |log|
  }

  ghost predicate WriterOk(s: State, w: nat) {
    w in s.writers ==> WriterInv(s.writers[w], EventsOf(s.rows, s.writers[w].agg.id))
  }

  ghost predicate Inv(s: State) {
    && UniqueRows(s.rows)
    && (forall id :: Legal(id, EventsOf(s.rows, id)))
    && (forall w :: WriterOk(s, w))
  }

  // ---------- one lemma per step ----------

  lemma WriterStable(wr: Writer, log: seq<Event>, log': seq<Event>)
    requires WriterInv(wr, log) && log <= log'
    ensures WriterInv(wr, log')
  {
    hide Legal, Replay;
    assert log[..wr.base] == log'[..wr.base];
    assert log[wr.base..wr.base + wr.stored] == log'[wr.base..wr.base + wr.stored];
  }

  lemma CreatedWriter(c: CreateCommand, id: string, eventId: string, log: seq<Event>)
    requires Create(c, id, eventId).Some?
    ensures WriterInv(Writer(Create(c, id, eventId).value, Holding, 0, Create(c, id, eventId).value.pending, None, 0), log)
  {
    hide Create, Legal, Replay;
    CreatedIsLegal(c, id, eventId);
    var a := Create(c, id, eventId).value;
    assert log[..0] + a.pending == a.pending;
    assert log[0..0] == a.pending[..0];
  }

  lemma LoadedWriter(rows: seq<Event>, id: string)
    requires Legal(id, EventsOf(rows, id)) && EventsOf(rows, id) != []
    ensures FromEvents(GetEvents(rows, id, 0)).Some?
    ensures var es := GetEvents(rows, id, 0);
            var a := FromEvents(es).value;
            a.id == id && WriterInv(Writer(a, Holding, |es|, [], None, 0), EventsOf(rows, id))
  {
    RebuildFromStore(rows, id);
    var log := EventsOf(rows, id);
    assert log[..|log|] + [] == log;
  }

  lemma LoadNeedsEvents(rows: seq<Event>, id: string)
    requires Legal(id, EventsOf(rows, id))
    requires FromEvents(GetEvents(rows, id, 0)).Some?
    ensures EventsOf(rows, id) != []
  {
    GetEventsOfLegal(rows, id, 0);
  }

  lemma RunKeeps(wr: Writer, log: seq<Event>, c: Command, eventId: string)
    requires WriterInv(wr, log)
    ensures AfterRun(wr, c, eventId).agg.id == wr.agg.id
    ensures WriterInv(AfterRun(wr, c, eventId), log)
  {
    hide Decide, Apply, WriterInv;
    match Decide(wr.agg.task, c)
    case Reject =>
    case NoChange =>
    case Emit(p) =>
      var e := Event(eventId, wr.agg.id, wr.agg.version + 1, p);
      if Apply(wr.agg.task, p).Some? {
        RecordedKeeps(wr, log, c, e);
      } else {
        RaisedKeeps(wr, log, e);
      }
  }

  lemma RecordedKeeps(wr: Writer, log: seq<Event>, c: Command, e: Event)
    requires WriterInv(wr, log)
    requires Decide(wr.agg.task, c) == Emit(e.payload) && Apply(wr.agg.task, e.payload).Some?
    requires e.aggregateId == wr.agg.id && e.version == wr.agg.version + 1
    ensures WriterInv(wr.(agg := Agg(wr.agg.id, Apply(wr.agg.task, e.payload).value, wr.agg.version + 1, wr.agg.pending + [e]),
                          applied := wr.applied + [e]), log)
  {
    hide Decide, Apply, Legal, Replay;
    var history := log[..wr.base] + wr.applied;
    HistoryGrows(wr.agg.id, history, wr.agg.task, c, e);
    assert history + [e] == log[..wr.base] + (wr.applied + [e]);
    assert (wr.agg.pending + [e])[..wr.stored] == wr.agg.pending[..wr.stored];
    if wr.poisonAt.Some? {
      var k := wr.poisonAt.value;
      assert (wr.agg.pending + [e])[..k] == wr.agg.pending[..k];
      assert (wr.applied + [e])[..k] == wr.applied[..k];
    }
  }

  lemma HistoryGrows(id: string, history: seq<Event>, t: Task, c: Command, e: Event)
    requires history != [] && Legal(id, history) && Replay(history) == Some(t)
    requires Decide(t, c) == Emit(e.payload) && Apply(t, e.payload).Some?
    requires e.aggregateId == id && e.version == |history| + 1
    ensures Legal(id, history + [e]) && Replay(history + [e]) == Apply(t, e.payload)
  {
    hide Decide, Apply;
    assert (history + [e])[..|history + [e]| - 1] == history;
    assert IsDecision(t, e.payload);
    LegalAppend(id, history, e);
  }

  lemma RaisedKeeps(wr: Writer, log: seq<Event>, e: Event)
    requires WriterInv(wr, log)
    requires Apply(wr.agg.task, e.payload).None?
    requires e.aggregateId == wr.agg.id && e.version == wr.agg.version + 1
    ensures WriterInv(wr.(agg := wr.agg.(pending := wr.agg.pending + [e]),
                          poisonAt := if wr.poisonAt.None? then Some(|wr.agg.pending|) else wr.poisonAt), log)
  {
    hide Apply, Legal, Replay;
    var history := log[..wr.base] + wr.applied;
    var pending := wr.agg.pending + [e];
    assert pending[..wr.stored] == wr.agg.pending[..wr.stored];
    if wr.poisonAt.None? {
      var k := |wr.agg.pending|;
      assert pending[..k] == wr.applied[..k] == wr.applied;
      ReplayExtend(history, e);
    } else {
      var k := wr.poisonAt.value;
      assert pending[..k] == wr.agg.pending[..k];
    }
  }

  /** With a failed event pending, the default expected version lies below the version the object was built on. */
  lemma CheckKeeps(wr: Writer, rows: seq<Event>, expected: Option<int>)
    requires WriterInv(wr, EventsOf(rows, wr.agg.id)) && Legal(wr.agg.id, EventsOf(rows, wr.agg.id))
    requires wr.phase.Holding? && wr.agg.pending != []
    requires expected.Some? ==> wr.poisonAt.None?
    requires CurrentVersion(rows, wr.agg.id) == ExpectedVersion(wr.agg, expected)
    ensures WriterInv(wr.(phase := Checked(ExpectedVersion(wr.agg, expected), wr.agg.pending)), EventsOf(rows, wr.agg.id))
  {
    hide Legal, Replay, EventsOf, CurrentVersion;
    LegalCurrentVersion(rows, wr.agg.id);
    assert wr.poisonAt.None?;
  }

  /** The unique index accepts a checked batch only at the very end of the log it was built on. */
  lemma AcceptedOnlyAtEnd(wr: Writer, rows: seq<Event>)
    requires WriterInv(wr, EventsOf(rows, wr.agg.id)) && Legal(wr.agg.id, EventsOf(rows, wr.agg.id))
    requires wr.agg.pending != [] && Fits(rows, wr.agg.pending[0])
    ensures wr.base == |EventsOf(rows, wr.agg.id)| && wr.stored == 0
  {
    hide Legal, Replay;
    var log := EventsOf(rows, wr.agg.id);
    if wr.base < |log| {
      LegalVersions(wr.agg.id, log);
      EventsOfMembers(rows, wr.agg.id, log[wr.base]);
    }
  }

  lemma FirstFits(rows: seq<Event>, batch: seq<Event>)
    requires BatchFits(rows, batch) && batch != []
    ensures Fits(rows, batch[0])
  {
    assert rows + batch[..0] == rows;
  }

  lemma InsertKeeps(wr: Writer, rows: seq<Event>)
    requires WriterInv(wr, EventsOf(rows, wr.agg.id)) && Legal(wr.agg.id, EventsOf(rows, wr.agg.id))
    requires wr.phase.Checked? && BatchFits(rows, wr.phase.batch)
    ensures EventsOf(rows + wr.phase.batch, wr.agg.id) == EventsOf(rows, wr.agg.id) + wr.phase.batch
    ensures forall other :: other != wr.agg.id ==> EventsOf(rows + wr.phase.batch, other) == EventsOf(rows, other)
    ensures Legal(wr.agg.id, EventsOf(rows + wr.phase.batch, wr.agg.id))
    ensures wr.phase.expected == wr.base == |EventsOf(rows, wr.agg.id)|
    ensures WriterInv(wr.(phase := Holding, stored := |wr.phase.batch|), EventsOf(rows + wr.phase.batch, wr.agg.id))
  {
    hide Legal, Replay, BatchFits, Fits, EventsOf;
    var id, batch, log := wr.agg.id, wr.phase.batch, EventsOf(rows, wr.agg.id);
    FirstFits(rows, batch);
    assert batch[0] == wr.agg.pending[0];
    AcceptedOnlyAtEnd(wr, rows);
    forall other ensures EventsOf(rows + batch, id) == log + batch
                 ensures other != id ==> EventsOf(rows + batch, other) == EventsOf(rows, other) {
      AppendBatch(rows, batch, id, other);
    }
    var history := log[..wr.base] + wr.applied;
    assert log[..wr.base] == log;
    LegalPrefix(id, history, |log| + |batch|);
    assert history[..|log| + |batch|] == log + batch;
    assert log <= log + batch;
    WriterStable(wr, log, log + batch);
    assert (log + batch)[wr.base..wr.base + |batch|] == batch == wr.agg.pending[..|batch|];
  }

  /** A log that goes on from a writer's base with its pending events, one of which failed to apply, cannot be replayed. */
  lemma FailedEventIsInTheWay(wr: Writer, log: seq<Event>, all: seq<Event>)
    requires WriterInv(wr, log) && wr.poisonAt.Some? && log[..wr.base] + wr.agg.pending <= all
    ensures Replay(all).None? && !Legal(wr.agg.id, all)
  {
    hide Legal, Replay;
    var n := wr.base + wr.poisonAt.value + 1;
    var cut := log[..wr.base] + wr.applied[..wr.poisonAt.value] + [wr.agg.pending[wr.poisonAt.value]];
    assert Replay(cut).None?;
    assert all[..n] == cut by {
      assert all[..n] == (log[..wr.base] + wr.agg.pending)[..n];
      assert wr.agg.pending[..n - wr.base] == wr.applied[..n - wr.base - 1] + [wr.agg.pending[n - wr.base - 1]];
    }
    NoReplay(wr.agg.id, all, n);
  }

  lemma NoReplay(id: string, log: seq<Event>, n: nat)
    requires n <= |log| && Replay(log[..n]).None?
    ensures Replay(log).None? && !Legal(id, log)
  {
    hide Legal, Replay;
    if Replay(log).Some? {
      ReplayPrefix(log, n);
      assert false;
    }
    if Legal(id, log) {
      LegalVersions(id, log);
      assert false;
    }
  }

  lemma StoredIsNotPoisoned(wr: Writer, log: seq<Event>)
    requires WriterInv(wr, log) && Legal(wr.agg.id, log) && wr.stored == |wr.agg.pending|
    ensures wr.poisonAt.None?
  {
    hide Legal, Replay;
    if wr.poisonAt.Some? {
      assert log[..wr.base] + log[wr.base..wr.base + wr.stored] <= log;
      FailedEventIsInTheWay(wr, log, log);
      assert false;
    }
  }

  lemma MarkKeeps(wr: Writer, log: seq<Event>)
    requires WriterInv(wr, log) && Legal(wr.agg.id, log)
    requires wr.phase.Holding? && wr.stored == |wr.agg.pending|
    ensures WriterInv(wr.(agg := wr.agg.(pending := []), base := wr.base + |wr.agg.pending|,
                          applied := [], poisonAt := None, stored := 0), log)
  {
    hide Legal, Apply;
    var n := wr.base + |wr.agg.pending|;
    assert log[..n] == log[..wr.base] + log[wr.base..n];
    assert log[wr.base..n] == wr.agg.pending;
    if wr.poisonAt.Some? {
      StoredIsNotPoisoned(wr, log);
      assert false;
    }
    assert log[..n] + [] == log[..wr.base] + wr.applied;
  }

  lemma StepKeepsInv(s: State, step: Step)
    requires Inv(s) && Disciplined(s, step)
    ensures Inv(Do(s, step))
  {
    hide WriterInv, Legal, UniqueRows, BatchFits, GetEvents, FromEvents, Create, AfterRun, CurrentVersion, EventsOf;
    if !step.Load? && !step.NewTask? {
      assert WriterOk(s, step.w);
    }
    forall v | !step.Insert? && v != step.w ensures WriterOk(Do(s, step), v) {
      assert WriterOk(s, v);
    }
    match step
    case NewTask(w, create, id, eventId) =>
      if Create(create, id, eventId).Some? {
        CreatedWriter(create, id, eventId, EventsOf(s.rows, Create(create, id, eventId).value.id));
      }
    case Load(w, id) =>
      if FromEvents(GetEvents(s.rows, id, 0)).Some? {
        LoadNeedsEvents(s.rows, id);
        LoadedWriter(s.rows, id);
      }
    case Run(w, command, eventId) =>
      if w in s.writers {
        RunKeeps(s.writers[w], EventsOf(s.rows, s.writers[w].agg.id), command, eventId);
      }
    case Check(w, expected) =>
      if w in s.writers && Do(s, step) != s {
        CheckKeeps(s.writers[w], s.rows, expected);
      }
    case Insert(w) =>
      if w in s.writers && s.writers[w].phase.Checked? {
        InsertStepKeeps(s, w);
      }
    case Mark(w) =>
      if w in s.writers {
        MarkKeeps(s.writers[w], EventsOf(s.rows, s.writers[w].agg.id));
      }
    case Drop(w) =>
  }

  lemma HoldingKeeps(wr: Writer, log: seq<Event>)
    requires WriterInv(wr, log)
    ensures WriterInv(wr.(phase := Holding), log)
  {
    hide Legal, Replay;
  }

  lemma InsertStepKeeps(s: State, w: nat)
    requires Inv(s) && w in s.writers && s.writers[w].phase.Checked?
    ensures Inv(Do(s, Insert(w)))
  {
    hide WriterInv, Legal, UniqueRows, BatchFits, EventsOf;
    var wr := s.writers[w];
    assert WriterOk(s, w);
    if BatchFits(s.rows, wr.phase.batch) {
      var s' := Do(s, Insert(w));
      InsertKeeps(wr, s.rows);
      FittingBatchKeepsUnique(s.rows, wr.phase.batch);
      forall id ensures Legal(id, EventsOf(s'.rows, id)) {
      }
      forall v ensures WriterOk(s', v) {
        assert WriterOk(s, v);
        if v != w && v in s.writers {
          var other := s.writers[v];
          WriterStable(other, EventsOf(s.rows, other.agg.id), EventsOf(s'.rows, other.agg.id));
        }
      }
    } else {
      HoldingKeeps(wr, EventsOf(s.rows, wr.agg.id));
      forall v ensures WriterOk(Do(s, Insert(w)), v) {
        assert WriterOk(s, v);
      }
    }
  }

  lemma {:induction false} RunKeepsInv(s: State, steps: seq<Step>)
    requires Inv(s) && DisciplinedRun(s, steps)
    ensures Inv(Execute(s, steps))
  {
    hide Inv, Do;
    if steps != [] {
      var n := |steps| - 1;
      RunKeepsInv(s, steps[..n]);
      StepKeepsInv(Execute(s, steps[..n]), steps[n]);
    }
  }

  // ---------- main results ----------

  /** Under every interleaving of any number of writers, every stored log is one legal sequential history. */
  lemma Serializability(steps: seq<Step>, id: string)
    requires DisciplinedRun(INIT, steps)
    ensures Legal(id, EventsOf(Execute(INIT, steps).rows, id))
    ensures UniqueRows(Execute(INIT, steps).rows)
    ensures var rows := Execute(INIT, steps).rows;
      forall i, j :: 0 <= i < j < |rows| ==>
        && rows[i].eventId != rows[j].eventId
        && (rows[i].aggregateId == rows[j].aggregateId ==> rows[i].version != rows[j].version)
  {
    assert Inv(INIT);
    RunKeepsInv(INIT, steps);
  }

  /** Logs only ever grow at their end. */
  lemma {:induction false} LogsAreAppendOnly(s: State, steps: seq<Step>, id: string)
    requires Inv(s) && DisciplinedRun(s, steps)
    ensures EventsOf(s.rows, id) <= EventsOf(Execute(s, steps).rows, id)
  {
    hide Inv, Do;
    if steps != [] {
      var n := |steps| - 1;
      LogsAreAppendOnly(s, steps[..n], id);
      RunKeepsInv(s, steps[..n]);
      StepAppends(Execute(s, steps[..n]), steps[n], id);
    }
  }

  lemma StepAppends(s: State, step: Step, id: string)
    requires Inv(s)
    ensures EventsOf(s.rows, id) <= EventsOf(Do(s, step).rows, id)
  {
    hide WriterInv, Legal, UniqueRows, BatchFits, GetEvents, FromEvents, Create, AfterRun, CurrentVersion;
    if step.Insert? && step.w in s.writers && s.writers[step.w].phase.Checked? {
      EventsOfAppend(s.rows, s.writers[step.w].phase.batch, id);
    }
  }

  /**
   Whatever expected version the caller gave, and however the log grew since
   the check: an accepted insert had that number equal to the version the
   unsaved events were built on and to the length of the log they extend, and
   the aggregate is the replay of the result when it holds no later events.
   */
  lemma ExpectedVersionSound(s: State, w: nat)
    requires Inv(s) && w in s.writers && s.writers[w].phase.Checked?
    requires BatchFits(s.rows, s.writers[w].phase.batch)
    ensures var wr := s.writers[w];
            var log, log' := EventsOf(s.rows, wr.agg.id), EventsOf(Do(s, Insert(w)).rows, wr.agg.id);
            && wr.phase.expected == wr.base == |log|
            && log' == log + wr.phase.batch
            && (wr.agg.pending == wr.phase.batch ==> (Replay(log') == Some(wr.agg.task) <==> wr.poisonAt.None?))
    ensures forall other :: other != s.writers[w].agg.id ==> EventsOf(Do(s, Insert(w)).rows, other) == EventsOf(s.rows, other)
  {
    hide WriterInv, Legal, UniqueRows, Replay;
    var wr := s.writers[w];
    assert WriterOk(s, w);
    InsertKeeps(wr, s.rows);
    ReplayOfPending(wr, EventsOf(s.rows, wr.agg.id));
  }

  /** A writer's aggregate is the replay of a prefix of the log followed by its own pending events, exactly when all of these could be applied. */
  lemma ReplayOfPending(wr: Writer, log: seq<Event>)
    requires WriterInv(wr, log)
    ensures Replay(log[..wr.base] + wr.agg.pending) == Some(wr.agg.task) <==> wr.poisonAt.None?
    ensures wr.base == |log| ==> log[..wr.base] == log
  {
    hide Legal, Replay;
    if wr.poisonAt.Some? {
      FailedEventIsInTheWay(wr, log, log[..wr.base] + wr.agg.pending);
    }
  }

  /** The object in slot `w` is built anew, or its pending list emptied, by this step. */
  predicate Rebuilds(s: State, step: Step, w: nat) {
    match step
    case NewTask(v, create, id, eventId) => v == w && Create(create, id, eventId).Some?
    case Load(v, id) =>
      v == w && var a := FromEvents(GetEvents(s.rows, id, 0)); a.Some? && !a.value.task.isDeleted
    case Mark(v) => v == w
    case Drop(v) => v == w
    case _ => false
  }

  /** The object in slot `w` accepts a command that shrinks its title. */
  predicate Shrinks(s: State, step: Step, w: nat) {
    && step.Run? && step.w == w && w in s.writers
    && Decide(s.writers[w].agg.task, step.command).Emit? && ShrinksTitle(s.writers[w].agg.task, step.command)
  }

  /** It has done so since it was built or last marked. */
  predicate ShrunkSince(steps: seq<Step>, w: nat) {
    steps != [] &&
    (var n := |steps| - 1;
     !Rebuilds(Execute(INIT, steps[..n]), steps[n], w)
     && (ShrunkSince(steps[..n], w) || Shrinks(Execute(INIT, steps[..n]), steps[n], w)))
  }

  lemma StepFails(s: State, step: Step, w: nat)
    requires w in Do(s, step).writers
    ensures Rebuilds(s, step, w) ==> Do(s, step).writers[w].poisonAt.None?
    ensures !Rebuilds(s, step, w) ==>
      w in s.writers && (Do(s, step).writers[w].poisonAt.Some? <==> s.writers[w].poisonAt.Some? || Shrinks(s, step, w))
  {
    hide BatchFits, GetEvents, FromEvents, Create, CurrentVersion, Decide, Apply, ShrinksTitle;
    if step.Run? && step.w == w && w in s.writers && Decide(s.writers[w].agg.task, step.command).Emit? {
      DecidedEventApplies(s.writers[w].agg.task, step.command);
    }
  }

  /** An object holds an event that failed to apply exactly when it has accepted a shrinking command since it was built or last marked. */
  lemma {:induction false} FailedIff(steps: seq<Step>, w: nat)
    requires w in Execute(INIT, steps).writers
    ensures Execute(INIT, steps).writers[w].poisonAt.Some? <==> ShrunkSince(steps, w)
  {
    hide Do, Rebuilds, Shrinks;
    var n := |steps| - 1;
    StepFails(Execute(INIT, steps[..n]), steps[n], w);
    if !Rebuilds(Execute(INIT, steps[..n]), steps[n], w) {
      FailedIff(steps[..n], w);
    }
  }

  /**
   A checked batch is accepted exactly when nothing was stored since the object
   was built and its event ids are new.
   */
  lemma AcceptedIff(s: State, w: nat)
    requires Inv(s) && w in s.writers && s.writers[w].phase.Checked?
    ensures var wr := s.writers[w];
            BatchFits(s.rows, wr.phase.batch) <==>
              && wr.base == |EventsOf(s.rows, wr.agg.id)|
              && (forall i, j :: 0 <= i < |wr.phase.batch| && 0 <= j < |s.rows| ==> wr.phase.batch[i].eventId != s.rows[j].eventId)
              && (forall i, j :: 0 <= i < j < |wr.phase.batch| ==> wr.phase.batch[i].eventId != wr.phase.batch[j].eventId)
  {
    hide WriterInv, Legal, BatchFits, EventsOf, UniqueRows;
    var wr := s.writers[w];
    var id, batch, log := wr.agg.id, wr.phase.batch, EventsOf(s.rows, wr.agg.id);
    assert WriterOk(s, w) && Legal(id, log);
    if BatchFits(s.rows, batch) {
      InsertKeeps(wr, s.rows);
      BatchIdsNew(s.rows, batch);
    }
    if wr.base == |log|
       && (forall i, j :: 0 <= i < |batch| && 0 <= j < |s.rows| ==> batch[i].eventId != s.rows[j].eventId)
       && (forall i, j :: 0 <= i < j < |batch| ==> batch[i].eventId != batch[j].eventId)
    {
      NewBatchFits(wr, s.rows);
    }
  }

  lemma BatchIdsNew(rows: seq<Event>, batch: seq<Event>)
    requires BatchFits(rows, batch)
    ensures forall i, j :: 0 <= i < |batch| && 0 <= j < |rows| ==> batch[i].eventId != rows[j].eventId
    ensures forall i, j :: 0 <= i < j < |batch| ==> batch[i].eventId != batch[j].eventId
  {
    forall i, j | 0 <= i < |batch| && 0 <= j < |rows| ensures batch[i].eventId != rows[j].eventId {
      assert Fits(rows + batch[..i], batch[i]);
      assert (rows + batch[..i])[j] == rows[j];
    }
    forall i, j | 0 <= i < j < |batch| ensures batch[i].eventId != batch[j].eventId {
      assert Fits(rows + batch[..j], batch[j]);
      assert (rows + batch[..j])[|rows| + i] == batch[i];
    }
  }

  lemma NewBatchFits(wr: Writer, rows: seq<Event>)
    requires WriterInv(wr, EventsOf(rows, wr.agg.id)) && Legal(wr.agg.id, EventsOf(rows, wr.agg.id))
    requires wr.phase.Checked? && wr.base == |EventsOf(rows, wr.agg.id)|
    requires forall i, j :: 0 <= i < |wr.phase.batch| && 0 <= j < |rows| ==> wr.phase.batch[i].eventId != rows[j].eventId
    requires forall i, j :: 0 <= i < j < |wr.phase.batch| ==> wr.phase.batch[i].eventId != wr.phase.batch[j].eventId
    ensures BatchFits(rows, wr.phase.batch)
  {
    hide Legal, Replay;
    var id, batch, log := wr.agg.id, wr.phase.batch, EventsOf(rows, wr.agg.id);
    var history := log[..wr.base] + wr.applied;
    LegalVersions(id, history);
    LegalVersions(id, log);
    forall i | 0 <= i < |batch| ensures Fits(rows + batch[..i], batch[i]) {
      assert history[wr.base + i] == batch[i];
      var all := rows + batch[..i];
      forall j | 0 <= j < |all|
        ensures !(all[j].aggregateId == id && all[j].version == batch[i].version) && all[j].eventId != batch[i].eventId
      {
        if j < |rows| {
          EventsOfMembers(rows, id, rows[j]);
        } else {
          assert all[j] == batch[j - |rows|] == history[wr.base + j - |rows|];
        }
      }
    }
  }

  // ---------- saving again ----------

  /**
   While a stored batch is still pending, a save with the default version fails
   its check, and no save is accepted.
   */
  lemma ResaveRejected(s: State, w: nat)
    requires Inv(s) && w in s.writers && s.writers[w].stored > 0
    ensures Do(s, Check(w, None)) == s
    ensures Do(s, Insert(w)).rows == s.rows
  {
    hide Legal, Replay, UniqueRows;
    var wr := s.writers[w];
    assert WriterOk(s, w);
    LegalCurrentVersion(s.rows, wr.agg.id);
    if wr.phase.Checked? && BatchFits(s.rows, wr.phase.batch) {
      assert s.rows + wr.phase.batch[..0] == s.rows;
      assert Fits(s.rows, wr.phase.batch[0]);
      AcceptedOnlyAtEnd(wr, s.rows);
      assert false;
    }
  }

  /** The object in slot `w` is replaced, or its pending list emptied, by this step. */
  predicate Renews(step: Step, w: nat) {
    match step
    case NewTask(v, _, _, _) => v == w
    case Load(v, _) => v == w
    case Mark(v) => v == w
    case Drop(v) => v == w
    case _ => false
  }

  /**
   However often a batch is saved again, by whatever interleaving, it enters the
   log once and no later attempt adds a row.
   */
  lemma {:induction false} StoredAtMostOnce(s: State, steps: seq<Step>, w: nat)
    requires Inv(s) && w in s.writers && s.writers[w].stored > 0
    requires DisciplinedRun(s, steps)
    requires forall i :: 0 <= i < |steps| ==> !Renews(steps[i], w)
    ensures w in Execute(s, steps).writers
    ensures Execute(s, steps).writers[w].stored == s.writers[w].stored
    ensures Execute(s, steps).writers[w].base == s.writers[w].base
    ensures Do(Execute(s, steps), Insert(w)).rows == Execute(s, steps).rows
  {
    hide Inv, UniqueRows;
    if steps != [] {
      var n := |steps| - 1;
      StoredAtMostOnce(s, steps[..n], w);
      RunKeepsInv(s, steps[..n]);
      StepKeepsStored(Execute(s, steps[..n]), steps[n], w);
      StepKeepsInv(Execute(s, steps[..n]), steps[n]);
      assert Execute(s, steps) == Do(Execute(s, steps[..n]), steps[n]);
    }
    ResaveRejected(Execute(s, steps), w);
  }

  lemma StepKeepsStored(s: State, step: Step, w: nat)
    requires Inv(s) && w in s.writers && s.writers[w].stored > 0 && !Renews(step, w)
    ensures w in Do(s, step).writers
    ensures Do(s, step).writers[w].stored == s.writers[w].stored
    ensures Do(s, step).writers[w].base == s.writers[w].base
  {
    hide WriterInv, Legal, UniqueRows, BatchFits, GetEvents, FromEvents, Create, CurrentVersion, Decide, Apply;
    if step == Insert(w) {
      ResaveRejected(s, w);
      var wr := s.writers[w];
      if wr.phase.Checked? && BatchFits(s.rows, wr.phase.batch) {
        assert |Do(s, step).rows| == |s.rows| + |wr.phase.batch|;
        assert WriterOk(s, w);
        BatchNotEmpty(wr, EventsOf(s.rows, wr.agg.id));
        assert false;
      }
    }
  }

  lemma BatchNotEmpty(wr: Writer, log: seq<Event>)
    requires WriterInv(wr, log) && wr.phase.Checked?
    ensures wr.phase.batch != []
  {
  }

  // ---------- what the discipline is for ----------

  /** Marks follow the rule; nothing is asked of checks. */
  predicate OwnedMarks(s: State, steps: seq<Step>) {
    steps == [] ||
    (var n := |steps| - 1;
     OwnedMarks(s, steps[..n]) && (steps[n].Mark? ==> Disciplined(Execute(s, steps[..n]), steps[n])))
  }

  /** No command shrinks the title of the aggregate it is given to. */
  predicate CleanCommands(s: State, steps: seq<Step>) {
    steps == [] ||
    (var n := |steps| - 1;
     CleanCommands(s, steps[..n]) && CleanStep(Execute(s, steps[..n]), steps[n]))
  }

  predicate CleanStep(s: State, step: Step) {
    step.Run? && step.w in s.writers ==> !ShrinksTitle(s.writers[step.w].agg.task, step.command)
  }

  /** Saves with default expected versions are disciplined, whatever the commands. */
  lemma {:induction false} DefaultsAreDisciplined(s: State, steps: seq<Step>)
    requires OwnedMarks(s, steps)
    requires forall i :: 0 <= i < |steps| && steps[i].Check? ==> steps[i].expected.None?
    ensures DisciplinedRun(s, steps)
  {
    hide Execute;
    if steps != [] {
      DefaultsAreDisciplined(s, steps[..|steps| - 1]);
    }
  }

  /** Commands that never shrink a title below the rule leave no failed event behind, so every save is disciplined. */
  lemma {:induction false} CleanRunsAreDisciplined(steps: seq<Step>)
    requires OwnedMarks(INIT, steps) && CleanCommands(INIT, steps)
    ensures forall w :: w in Execute(INIT, steps).writers ==> Execute(INIT, steps).writers[w].poisonAt.None?
    ensures DisciplinedRun(INIT, steps)
  {
    hide Do, CleanStep;
    if steps != [] {
      var n := |steps| - 1;
      CleanRunsAreDisciplined(steps[..n]);
      CleanStepKeepsClean(Execute(INIT, steps[..n]), steps[n]);
    }
  }

  lemma CleanStepKeepsClean(s: State, step: Step)
    requires forall w :: w in s.writers ==> s.writers[w].poisonAt.None?
    requires CleanStep(s, step)
    ensures forall w :: w in Do(s, step).writers ==> Do(s, step).writers[w].poisonAt.None?
  {
    hide BatchFits, GetEvents, FromEvents, Create, CurrentVersion, Decide, Apply, ShrinksTitle;
    if step.Run? && step.w in s.writers && Decide(s.writers[step.w].agg.task, step.command).Emit? {
      DecidedEventApplies(s.writers[step.w].agg.task, step.command);
    }
  }

  lemma WholePendingIsLegal(wr: Writer, log: seq<Event>)
    requires WriterInv(wr, log) && wr.base == |log| && wr.poisonAt.None?
    ensures Legal(wr.agg.id, log + wr.agg.pending)
  {
    hide Legal, Replay;
    assert log[..wr.base] == log;
  }

  /**
   If the indexes accept everything an aggregate holds, the log stays legal
   exactly when none of its events failed to apply.
   */
  lemma StoredLegallyIff(wr: Writer, rows: seq<Event>)
    requires WriterInv(wr, EventsOf(rows, wr.agg.id)) && Legal(wr.agg.id, EventsOf(rows, wr.agg.id))
    requires wr.agg.pending != [] && BatchFits(rows, wr.agg.pending)
    ensures Legal(wr.agg.id, EventsOf(rows + wr.agg.pending, wr.agg.id)) <==> wr.poisonAt.None?
  {
    hide WriterInv, Legal, BatchFits, Fits, EventsOf;
    var id, pending, log := wr.agg.id, wr.agg.pending, EventsOf(rows, wr.agg.id);
    FirstFits(rows, pending);
    AcceptedOnlyAtEnd(wr, rows);
    PendingHasOneId(wr, log);
    AppendBatch(rows, pending, id, id);
    if wr.poisonAt.None? {
      WholePendingIsLegal(wr, log);
    } else {
      assert log[..wr.base] == log;
      FailedEventIsInTheWay(wr, log, log + pending);
    }
  }

  lemma PendingHasOneId(wr: Writer, log: seq<Event>)
    requires WriterInv(wr, log)
    ensures forall i :: 0 <= i < |wr.agg.pending| ==> wr.agg.pending[i].aggregateId == wr.agg.id
  {
    hide Legal, Replay;
  }
}
