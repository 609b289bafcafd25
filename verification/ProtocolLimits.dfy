/**
 Why both rules of `Disciplined` are there. In any state of the protocol where
 one writer (for the rule on expected versions) or two writers (for the rule on
 marks) hold a live task with nothing unsaved, breaking the rule leads in a few
 steps to a stored log that is no longer a legal history.
 */
module ProtocolLimits {
  import opened Wrappers
  import opened ValueObjects
  import opened TaskEvents
  import opened TaskModel
  import opened EventOrder
  import opened TaskHistory
  import opened EventLog
  import opened WriterProtocol
  import CommandEffects

  /** A writer that has nothing unsaved and has seen the whole log. */
  ghost predicate UpToDate(s: State, w: nat, log: seq<Event>) {
    && w in s.writers
    && s.writers[w].phase.Holding?
    && s.writers[w].agg.pending == []
    && log == EventsOf(s.rows, s.writers[w].agg.id)
    && s.writers[w].base == |log|
  }

  predicate NewId(rows: seq<Event>, eventId: string) {
    forall i :: 0 <= i < |rows| ==> rows[i].eventId != eventId
  }

  lemma UpToDateWriter(s: State, w: nat, log: seq<Event>)
    requires Inv(s) && UpToDate(s, w, log)
    ensures var wr := s.writers[w];
            && Legal(wr.agg.id, log) && log != []
            && wr.agg.version == |log| && wr.applied == [] && wr.poisonAt.None? && wr.stored == 0
            && Replay(log) == Some(wr.agg.task)
            && CurrentVersion(s.rows, wr.agg.id) == |log|
  {
    hide Legal, Replay, CurrentVersion;
    var wr := s.writers[w];
    assert WriterOk(s, w);
    assert log[..wr.base] + [] == log;
    LegalCurrentVersion(s.rows, wr.agg.id);
  }

  lemma OneEventFits(rows: seq<Event>, e: Event)
    requires Legal(e.aggregateId, EventsOf(rows, e.aggregateId))
    requires e.version == |EventsOf(rows, e.aggregateId)| + 1 && NewId(rows, e.eventId)
    ensures BatchFits(rows, [e])
    ensures EventsOf(rows + [e], e.aggregateId) == EventsOf(rows, e.aggregateId) + [e]
    ensures forall other :: other != e.aggregateId ==> EventsOf(rows + [e], other) == EventsOf(rows, other)
  {
    var log := EventsOf(rows, e.aggregateId);
    LegalVersions(e.aggregateId, log);
    assert rows + [e][..0] == rows;
    forall i | 0 <= i < |rows| ensures !(rows[i].aggregateId == e.aggregateId && rows[i].version == e.version) {
      EventsOfMembers(rows, e.aggregateId, rows[i]);
    }
    forall other ensures EventsOf(rows + [e], e.aggregateId) == log + [e]
                 ensures other != e.aggregateId ==> EventsOf(rows + [e], other) == EventsOf(rows, other) {
      AppendBatch(rows, [e], e.aggregateId, other);
    }
  }

  /** One save of a single pending event by a writer whose expected version matches the store. */
  lemma SaveOne(s: State, w: nat, expected: Option<int>, e: Event)
    requires w in s.writers && s.writers[w].phase.Holding? && s.writers[w].agg.pending == [e]
    requires Legal(e.aggregateId, EventsOf(s.rows, e.aggregateId)) && s.writers[w].agg.id == e.aggregateId
    requires e.version == |EventsOf(s.rows, e.aggregateId)| + 1 && NewId(s.rows, e.eventId)
    requires ExpectedVersion(s.writers[w].agg, expected) == |EventsOf(s.rows, e.aggregateId)|
    ensures var s' := Do(Do(s, Check(w, expected)), Insert(w));
            && s'.rows == s.rows + [e]
            && EventsOf(s'.rows, e.aggregateId) == EventsOf(s.rows, e.aggregateId) + [e]
            && s'.writers == s.writers[w := s.writers[w].(stored := 1)]
  {
    hide Legal, EventsOf, CurrentVersion, BatchFits;
    LegalCurrentVersion(s.rows, e.aggregateId);
    OneEventFits(s.rows, e);
  }

  // ---------- a caller's own expected version ----------

  /** Every live task has such a command: this title is four characters long, two of them spaces. */
  lemma ShrinkingCommandExists(t: Task)
    requires !t.isDeleted
    ensures var c := Update("t", Some(" ab "), None, None, None, None, "ana");
            Decide(t, c).Emit? && ShrinksTitle(t, c)
  {
    assert " ab "[1..] == "ab " && "ab "[..2] == "ab";
    assert StripLeft(" ab ") == StripLeft("ab ") == "ab ";
    assert StripRight("ab ") == StripRight("ab") == "ab";
    assert !IsSpace(" ab "[1]) && IsSpace(" ab "[0]);
    assert Strip(t.title) != " ab ";
  }

  lemma UnreplayableTail(id: string, log: seq<Event>, e: Event)
    requires Legal(id, log) && e.version == |log| + 1 && Replay(log + [e]).None?
    ensures !Legal(id, log + [e])
    ensures FromEvents(SortByVersion(After(log + [e], 0))).None?
  {
    hide Apply, Legal;
    if Legal(id, log + [e]) {
      LegalVersions(id, log + [e]);
    }
    LegalVersions(id, log);
    AfterInLegal(id, log, 0);
    assert (log + [e])[..|log + [e]| - 1] == log && log[0..] == log;
    assert After(log + [e], 0) == log + [e];
    SortOfAscending(log + [e]);
  }

  /**
   A title update that raises while being applied leaves its event pending. A
   save with the default version is refused; a save that passes the stored
   version itself puts the event into the log, which is then no legal history,
   and the task can no longer be rebuilt.
   */
  lemma FailedEventCanBeStored(s: State, w: nat, log: seq<Event>, c: Command, eventId: string)
    requires Inv(s) && UpToDate(s, w, log) && NewId(s.rows, eventId)
    requires Decide(s.writers[w].agg.task, c).Emit? && ShrinksTitle(s.writers[w].agg.task, c)
    ensures var id := s.writers[w].agg.id;
            var failed := Do(s, Run(w, c, eventId));
            var s' := Do(Do(failed, Check(w, Some(|log|))), Insert(w));
            && Do(failed, Check(w, None)) == failed
            && !Legal(id, EventsOf(s'.rows, id))
            && FromEvents(GetEvents(s'.rows, id, 0)).None?
  {
    hide Legal, EventsOf, Inv, Apply, Decide, ShrinksTitle, Replay, FromEvents, SortByVersion, Do;
    var wr := s.writers[w];
    var e := Event(eventId, wr.agg.id, |log| + 1, Decide(wr.agg.task, c).payload);
    UpToDateWriter(s, w, log);
    FailedEventIsSaved(s, w, log, c, e);
    ReplayExtend(log, e);
    UnreplayableTail(wr.agg.id, log, e);
  }

  /** The failed event is refused with the default version, and a row with the caller's own. */
  lemma FailedEventIsSaved(s: State, w: nat, log: seq<Event>, c: Command, e: Event)
    requires Inv(s) && UpToDate(s, w, log) && NewId(s.rows, e.eventId)
    requires Decide(s.writers[w].agg.task, c) == Emit(e.payload) && ShrinksTitle(s.writers[w].agg.task, c)
    requires e.aggregateId == s.writers[w].agg.id && e.version == |log| + 1
    ensures var failed := Do(s, Run(w, c, e.eventId));
            var s' := Do(Do(failed, Check(w, Some(|log|))), Insert(w));
            && Do(failed, Check(w, None)) == failed
            && s'.rows == s.rows + [e] && EventsOf(s'.rows, e.aggregateId) == log + [e]
    ensures Replay(log).Some? && Apply(Replay(log).value, e.payload).None?
  {
    hide Legal, EventsOf, CurrentVersion, BatchFits, Inv, Apply, Decide, ShrinksTitle, Replay;
    UpToDateWriter(s, w, log);
    var wr := s.writers[w];
    DecidedEventApplies(wr.agg.task, c);
    var failed := Do(s, Run(w, c, e.eventId));
    assert [] + [e] == [e];
    assert failed.writers[w].agg == wr.agg.(pending := [e]);
    SaveOne(failed, w, Some(|log|), e);
  }

  /**
   For every up-to-date writer and every event it decides: a save at the stored
   version keeps the log legal exactly when the command does not shrink the
   title.
   */
  lemma SavedLegallyIff(s: State, w: nat, log: seq<Event>, c: Command, eventId: string)
    requires Inv(s) && UpToDate(s, w, log) && NewId(s.rows, eventId)
    requires Decide(s.writers[w].agg.task, c).Emit?
    ensures var id := s.writers[w].agg.id;
            var s' := Do(Do(Do(s, Run(w, c, eventId)), Check(w, Some(|log|))), Insert(w));
            && |EventsOf(s'.rows, id)| == |log| + 1 && log <= EventsOf(s'.rows, id)
            && (Legal(id, EventsOf(s'.rows, id)) <==> !ShrinksTitle(s.writers[w].agg.task, c))
  {
    hide Legal, EventsOf, CurrentVersion, BatchFits, Inv, Apply, Decide, ShrinksTitle;
    UpToDateWriter(s, w, log);
    var wr := s.writers[w];
    DecidedEventApplies(wr.agg.task, c);
    var e := Event(eventId, wr.agg.id, |log| + 1, Decide(wr.agg.task, c).payload);
    assert [] + [e] == [e];
    var raised := Do(s, Run(w, c, eventId));
    assert raised.writers[w].agg.pending == [e] && raised.rows == s.rows;
    SaveOne(raised, w, Some(|log|), e);
    assert IsDecision(wr.agg.task, e.payload);
    assert (log + [e])[..|log + [e]| - 1] == log;
    LegalAppend(wr.agg.id, log, e);
  }

  // ---------- shared ownership ----------

  /** A command, saved with the default expected version. */
  function RunSaved(s: State, w: nat, c: Command, eventId: string): State {
    Do(Do(Do(s, Run(w, c, eventId)), Check(w, None)), Insert(w))
  }

  /** The steps after which `w` saves an event decided on a state that was never stored. */
  function SharedRun(s: State, w: nat, v: nat, first: string, second: string, priority: TaskPriority, ids: seq<string>): State
    requires |ids| == 3
  {
    var raised := Do(s, Run(w, Assign("t", first, "ana"), ids[0]));
    var cleared := Do(raised, Mark(w));
    RunSaved(RunSaved(cleared, v, ChangePriority(priority, "bob"), ids[1]), w, Assign("t", second, "ana"), ids[2])
  }

  /**
   Two up-to-date objects of one live task, in any status: if
   `mark_events_committed` clears an assignment of the first that was never
   stored, and the second then stores a change of priority in its place, the
   next save of the first passes every check, and the log holds an event decided
   on a state it never went through.
   */
  lemma ClearedEventBreaksLog(s: State, w: nat, v: nat, log: seq<Event>,
                              first: string, second: string, priority: TaskPriority, ids: seq<string>)
    requires Inv(s) && w != v && UpToDate(s, w, log) && UpToDate(s, v, log)
    requires s.writers[w].agg.id == s.writers[v].agg.id && !s.writers[w].agg.task.isDeleted
    requires first != "" && second != "" && first != second
    requires s.writers[w].agg.task.assigneeId != Some(first) && s.writers[w].agg.task.priority != priority
    requires |ids| == 3 && ids[1] != ids[2] && NewId(s.rows, ids[1]) && NewId(s.rows, ids[2])
    ensures var id := s.writers[w].agg.id;
            var log' := EventsOf(SharedRun(s, w, v, first, second, priority, ids).rows, id);
            |log'| == |log| + 2 && log <= log' && !Legal(id, log')
  {
    hide Legal, EventsOf, Inv, Replay, RunSaved, CurrentVersion, BatchFits;
    var id, task := s.writers[w].agg.id, s.writers[w].agg.task;
    UpToDateWriter(s, w, log);
    UpToDateWriter(s, v, log);
    var cleared := Do(Do(s, Run(w, Assign("t", first, "ana"), ids[0])), Mark(w));
    var reassigned := task.(assigneeId := Some(first), assigneeChanges := task.assigneeChanges + 1);
    assert cleared.writers[w].agg == Agg(id, reassigned, |log| + 1, []);
    var other := RunSaved(cleared, v, ChangePriority(priority, "bob"), ids[1]);
    var e2 := Event(ids[1], id, |log| + 1, TaskPriorityChanged(task.priority.Text(), priority.Text(), "bob"));
    RunAndSave(cleared, v, ChangePriority(priority, "bob"), ids[1]);
    assert other.rows == s.rows + [e2];
    HistoryGrows(id, log, task, ChangePriority(priority, "bob"), e2);
    RunAndSave(other, w, Assign("t", second, "ana"), ids[2]);
    var e3 := Event(ids[2], id, |log| + 2, TaskAssigned(Some(first), second, "ana"));
    WrongAssignee(id, log + [e2], e3);
  }

  /** A writer with nothing unsaved, at the stored version, runs a command and saves: one new row, and no other writer changes. */
  lemma RunAndSave(s: State, w: nat, c: Command, eventId: string)
    requires w in s.writers && s.writers[w].phase.Holding? && s.writers[w].poisonAt.None?
    requires var a := s.writers[w].agg;
      && a.pending == [] && Legal(a.id, EventsOf(s.rows, a.id)) && a.version == |EventsOf(s.rows, a.id)|
      && Decide(a.task, c).Emit? && Apply(a.task, Decide(a.task, c).payload).Some?
    requires NewId(s.rows, eventId)
    ensures var wr, s' := s.writers[w], RunSaved(s, w, c, eventId);
            var e := Event(eventId, wr.agg.id, wr.agg.version + 1, Decide(wr.agg.task, c).payload);
            && s'.rows == s.rows + [e] && EventsOf(s'.rows, wr.agg.id) == EventsOf(s.rows, wr.agg.id) + [e]
            && s'.writers == s.writers[w :=
                 wr.(agg := Agg(wr.agg.id, Apply(wr.agg.task, e.payload).value, wr.agg.version + 1, [e]),
                     applied := wr.applied + [e], stored := 1)]
  {
    hide Legal, EventsOf, CurrentVersion, BatchFits, Decide, Apply;
    var a := s.writers[w].agg;
    var e := Event(eventId, a.id, a.version + 1, Decide(a.task, c).payload);
    assert [] + [e] == [e];
    SaveOne(Do(s, Run(w, c, eventId)), w, None, e);
  }

  lemma WrongAssignee(id: string, log: seq<Event>, e: Event)
    requires log != [] && Replay(log).Some? && e.payload.TaskAssigned?
    requires e.payload.previousAssigneeId != Replay(log).value.assigneeId
    ensures !Legal(id, log + [e])
  {
    hide Replay;
    LegalAppend(id, log, e);
  }

  // ---------- the rules can be kept ----------

  /** The steps by which one writer creates and stores a task and another one loads it. */
  function CreatedAndLoaded(s: State, w: nat, v: nat, c: CreateCommand, id: string, eventId: string): State {
    var made := Do(s, NewTask(w, c, id, eventId));
    var saved := Do(Do(made, Check(w, None)), Insert(w));
    Do(Do(saved, Mark(w)), Load(v, id))
  }

  /**
   From any state of the protocol, every valid creation under a new id can be
   stored: it takes one row, and afterwards its writer and any other one that
   loads it hold the same up-to-date task, the one the command describes.
   */
  lemma TaskCanBeStored(s: State, w: nat, v: nat, c: CreateCommand, id: string, eventId: string)
    requires Inv(s) && w !in s.writers && v !in s.writers && w != v
    requires EventsOf(s.rows, id) == [] && NewId(s.rows, eventId) && CommandEffects.CanCreate(c)
    ensures var s' := CreatedAndLoaded(s, w, v, c, id, eventId);
            var e := Event(eventId, id, 1, CreatedPayload(c));
      && s'.rows == s.rows + [e] && EventsOf(s'.rows, id) == [e]
      && UpToDate(s', w, [e]) && UpToDate(s', v, [e])
      && s'.writers[w].agg == s'.writers[v].agg && s'.writers[w].agg.id == id
      && CommandEffects.CreatedAs(c, s'.writers[w].agg.task) && s'.writers[w].agg.version == 1
  {
    hide Legal, EventsOf, CurrentVersion, BatchFits, Inv, Replay, TaskModel.Create, FromEvents, GetEvents, Apply,
      CommandEffects.CanCreate;
    CommandEffects.CreateDoes(c, id, eventId);
    CreatedIsLegal(c, id, eventId);
    CreatedEventIs(c, id, eventId);
    var e := Event(eventId, id, 1, CreatedPayload(c));
    var a := TaskModel.Create(c, id, eventId).value;
    var made := Do(s, NewTask(w, c, id, eventId));
    assert Legal(id, EventsOf(s.rows, id)) by {
      NothingIsLegal(id, EventsOf(s.rows, id));
    }
    SaveOne(made, w, None, e);
    assert [] + [e] == [e];
    var saved := Do(Do(made, Check(w, None)), Insert(w));
    var marked := Do(saved, Mark(w));
    assert marked.rows == saved.rows && EventsOf(saved.rows, id) == [e];
    RebuildFromStore(marked.rows, id);
    assert marked.writers[w].agg == Agg(id, a.task, 1, []);
  }

  lemma NothingIsLegal(id: string, log: seq<Event>)
    requires log == []
    ensures Legal(id, log)
  {
  }

  lemma CreatedEventIs(c: CreateCommand, id: string, eventId: string)
    requires TaskModel.Create(c, id, eventId).Some?
    ensures TaskModel.Create(c, id, eventId).value.pending == [Event(eventId, id, 1, CreatedPayload(c))]
  {
    hide Apply;
  }
}
