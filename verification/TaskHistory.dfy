/**
 Legal histories: the logs one task can have, and what holds over the whole of
 such a log.
 */
module TaskHistory {
  import opened Wrappers
  import opened ValueObjects
  import opened TaskEvents
  import opened TaskModel
  import opened EventOrder

  ghost predicate IsCreation(p: Payload) {
    exists c: CreateCommand :: ValidCreate(c) && p == CreatedPayload(c)
  }

  ghost predicate IsDecision(t: Task, p: Payload) {
    exists c: Command :: Decide(t, c) == Emit(p)
  }

  /** The next event of a log: the creation, or a decision against the replay of exactly the events before it. */
  ghost predicate LegalNext(id: string, before: seq<Event>, e: Event) {
    && e.aggregateId == id
    && e.version == |before| + 1
    && (if before == [] then IsCreation(e.payload)
        else Replay(before).Some? && IsDecision(Replay(before).value, e.payload))
    && Replay(before + [e]).Some?
  }

  ghost predicate Legal(id: string, log: seq<Event>) {
    log == [] || (Legal(id, log[..|log| - 1]) && LegalNext(id, log[..|log| - 1], log[|log| - 1]))
  }

  lemma LegalAppend(id: string, log: seq<Event>, e: Event)
    ensures Legal(id, log + [e]) <==> Legal(id, log) && LegalNext(id, log, e)
  {
    assert (log + [e])[..|log + [e]| - 1] == log;
  }

  lemma {:induction false} LegalPrefix(id: string, log: seq<Event>, n: nat)
    requires n <= |log| && Legal(id, log)
    ensures Legal(id, log[..n])
  {
    if n == |log| {
      assert log[..n] == log;
    } else {
      LegalPrefix(id, log[..|log| - 1], n);
      assert log[..|log| - 1][..n] == log[..n];
    }
  }

  /** Position by position: creation first, versions 1..n, every later event decided on the state just before it. */
  lemma LegalAt(id: string, log: seq<Event>, i: nat)
    requires i < |log| && Legal(id, log)
    ensures LegalNext(id, log[..i], log[i])
    ensures log[i].version == i + 1 && log[i].aggregateId == id
    ensures Replay(log[..i + 1]).Some?
  {
    LegalPrefix(id, log, i + 1);
    assert log[..i + 1][..i] == log[..i];
    assert log[..i] + [log[i]] == log[..i + 1];
  }

  lemma LegalVersions(id: string, log: seq<Event>)
    requires Legal(id, log)
    ensures forall i :: 0 <= i < |log| ==> log[i].version == i + 1 && log[i].aggregateId == id
    ensures Replay(log).Some?
  {
    forall i | 0 <= i < |log| ensures log[i].version == i + 1 && log[i].aggregateId == id {
      LegalAt(id, log, i);
    }
    if log != [] {
      LegalAt(id, log, |log| - 1);
      assert log[..|log|] == log;
    }
  }

  /** A log starts with its creation and has nothing after a deletion. */
  lemma CreationFirstDeletionLast(id: string, log: seq<Event>, i: nat)
    requires i < |log| && Legal(id, log)
    ensures log[i].payload.TaskCreated? <==> i == 0
    ensures log[i].payload.TaskDeleted? ==> i == |log| - 1
  {
    hide Legal, IsDecision, Apply;
    LegalAt(id, log, i);
    if i > 0 {
      DecisionFits(Replay(log[..i]).value, log[i].payload);
    }
    if i + 1 < |log| && log[i].payload.TaskDeleted? {
      LegalAt(id, log, i + 1);
      DecisionFits(Replay(log[..i + 1]).value, log[i + 1].payload);
      assert log[..i + 1][..i] == log[..i];
      DeletionDeletes(Replay(log[..i]).value, log[i].payload);
    }
  }

  lemma DecisionFits(t: Task, p: Payload)
    requires IsDecision(t, p)
    ensures !t.isDeleted && !p.TaskCreated?
  {
    hide FieldChangesFor, ValidUpdate;
  }

  lemma DeletionDeletes(t: Task, p: Payload)
    requires p.TaskDeleted?
    ensures Apply(t, p) == Some(t.(isDeleted := true))
  {
  }

  /** A newly created aggregate holds a one-event legal history of itself. */
  lemma CreatedIsLegal(c: CreateCommand, id: string, eventId: string)
    requires Create(c, id, eventId).Some?
    ensures var a := Create(c, id, eventId).value;
            && a.id == id && a.version == 1 && |a.pending| == 1
            && a.pending[0].version == 1 && a.pending[0].aggregateId == id
            && Legal(id, a.pending) && Replay(a.pending) == Some(a.task)
  {
    hide Apply;
    var e := Event(eventId, id, 1, CreatedPayload(c));
    assert [] + [e] == [e];
    assert [e][..0] == [];
    assert Create(c, id, eventId).value.pending == [e];
    assert IsCreation(e.payload);
    LegalAppend(id, [], e);
    assert Replay([e]) == Apply(BLANK, e.payload);
    assert Legal(id, [] + [e]);
    assert Create(c, id, eventId).value.pending == [] + [e];
  }

  /** Rebuilding from a legal log gives its replay, at the version of its last event. */
  lemma RebuildLegal(id: string, log: seq<Event>)
    requires Legal(id, log) && log != []
    ensures FromEvents(log) == Some(Agg(id, Replay(log).value, |log|, []))
  {
    LegalVersions(id, log);
    SortOfAscending(log);
  }

  // ---------- the log can be undone ----------

  /** What a reader sees of a task: the fields that events record old values for, in their recorded form. */
  datatype View = View(title: string, description: string, status: string, priority: string,
                       labels: seq<string>, assigneeId: Option<string>)

  function Observe(t: Task): View {
    View(Strip(t.title), t.description, t.status.Text(), t.priority.Text(), LowerAll(t.labels), t.assigneeId)
  }

  /** Putting back the old values recorded in an event. */
  function Undo(v: View, p: Payload): View {
    match p
    case TaskUpdated(c, _) =>
      v.(title := if c.title.Some? then c.title.value.before else v.title,
         description := if c.description.Some? then c.description.value.before else v.description,
         status := if c.status.Some? then c.status.value.before else v.status,
         priority := if c.priority.Some? then c.priority.value.before else v.priority,
         labels := if c.labels.Some? then c.labels.value.before else v.labels)
    case TaskAssigned(previous, _, _) => v.(assigneeId := previous)
    case TaskStatusChanged(previous, _, _, _) => v.(status := previous)
    case TaskPriorityChanged(previous, _, _) => v.(priority := previous)
    case _ => v
  }

  /** Putting in the new values recorded in an event. */
  function Redo(v: View, p: Payload): View {
    match p
    case TaskUpdated(c, _) =>
      v.(title := if c.title.Some? then c.title.value.after else v.title,
         description := if c.description.Some? then c.description.value.after else v.description,
         status := if c.status.Some? then c.status.value.after else v.status,
         priority := if c.priority.Some? then c.priority.value.after else v.priority,
         labels := if c.labels.Some? then c.labels.value.after else v.labels)
    case TaskAssigned(_, next, _) => v.(assigneeId := Some(next))
    case TaskStatusChanged(_, next, _, _) => v.(status := next)
    case TaskPriorityChanged(_, next, _) => v.(priority := next)
    case _ => v
  }

  function UndoAll(v: View, es: seq<Event>): View
    decreases |es|
  {
    if es == [] then v else UndoAll(Undo(v, es[|es| - 1].payload), es[..|es| - 1])
  }

  /** What one decided and applied event does to the fields that are followed below. */
  ghost predicate StepFacts(t: Task, p: Payload, t': Task) {
    && Undo(Observe(t'), p) == Observe(t)
    && Redo(Observe(t), p) == Observe(t')
    && (t'.status == t.status || t.status.CanTransitionTo(t'.status))
    && t'.priorityChanges == t.priorityChanges + (if t'.priority != t.priority then 1 else 0)
    && t'.assigneeChanges == t.assigneeChanges + (if t'.assigneeId != t.assigneeId then 1 else 0)
  }

  /**
   The change entries describe `t`: old values as observed, new values in
   recorded form and different where the code checks.
   */
  ghost predicate Faithful(t: Task, c: FieldChanges) {
    && (c.title.Some? ==> c.title.value.before == Strip(t.title) && Strip(c.title.value.after) == c.title.value.after)
    && (c.description.Some? ==> c.description.value.before == t.description)
    && (c.status.Some? ==>
          && c.status.value.before == t.status.Text()
          && exists next: TaskStatus :: t.status.CanTransitionTo(next) && c.status.value.after == next.Text())
    && (c.priority.Some? ==>
          && c.priority.value.before == t.priority.Text()
          && exists next: TaskPriority :: next != t.priority && c.priority.value.after == next.Text())
    && (c.labels.Some? ==>
          && c.labels.value.before == LowerAll(t.labels)
          && LowerAll(c.labels.value.after) == c.labels.value.after)
  }

  lemma UpdatesAreFaithful(t: Task, cmd: Command)
    requires cmd.Update? && FieldChangesFor(t, cmd).Some?
    ensures Faithful(t, FieldChangesFor(t, cmd).value)
  {
    hide ParseStatus, ParsePriority, ValidTitle, ValidLabels, Strip, LowerAll;
    var c := FieldChangesFor(t, cmd).value;
    if c.title.Some? {
      StripTwice(cmd.title.value);
    }
    if c.labels.Some? {
      LowerKeepsLabels(cmd.labels.value);
    }
  }

  lemma FaithfulFacts(t: Task, c: FieldChanges, updatedBy: string)
    requires Faithful(t, c) && ApplyChanges(t, c).Some?
    ensures StepFacts(t, TaskUpdated(c, updatedBy), ApplyChanges(t, c).value)
  {
    var t' := ApplyChanges(t, c).value;
    if c.status.Some? {
      var next: TaskStatus :| t.status.CanTransitionTo(next) && c.status.value.after == next.Text();
      assert t'.status == next;
    }
    if c.priority.Some? {
      var next: TaskPriority :| next != t.priority && c.priority.value.after == next.Text();
      assert t'.priority == next;
    }
  }

  lemma EmittedUpdate(t: Task, c: Command)
    requires c.Update? && Decide(t, c).Emit?
    ensures FieldChangesFor(t, c).Some?
    ensures Decide(t, c) == Emit(TaskUpdated(FieldChangesFor(t, c).value, c.updatedBy))
  {
    hide FieldChangesFor, ValidUpdate;
  }

  lemma OtherFacts(t: Task, c: Command)
    requires !c.Update? && Decide(t, c).Emit? && Apply(t, Decide(t, c).payload).Some?
    ensures StepFacts(t, Decide(t, c).payload, Apply(t, Decide(t, c).payload).value)
  {
    hide Strip, LowerAll, FieldChangesFor, ValidUpdate, ApplyChanges, ParseStatus, ParsePriority;
    match c
    case Assign(_, _, _) =>
    case ChangeStatus(_, _, _) =>
    case ChangePriority(_, _) =>
    case Delete(_, _, _) =>
  }

  /**
   A decided event records the observable state on both sides of it, moves the
   status legally and counts its change.
   */
  lemma DecisionFacts(t: Task, p: Payload)
    requires IsDecision(t, p) && Apply(t, p).Some?
    ensures StepFacts(t, p, Apply(t, p).value)
  {
    hide Decide, StepFacts, FieldChangesFor, ApplyChanges;
    var c: Command :| Decide(t, c) == Emit(p);
    if c.Update? {
      EmittedUpdate(t, c);
      UpdatesAreFaithful(t, c);
      FaithfulFacts(t, p.changes, p.updatedBy);
    } else {
      OtherFacts(t, c);
    }
  }

  /** The task after the first `i` events. */
  ghost function At(id: string, log: seq<Event>, i: nat): Task
    requires Legal(id, log) && 1 <= i <= |log|
  {
    LegalAt(id, log, i - 1);
    Replay(log[..i]).value
  }

  lemma StepAt(id: string, log: seq<Event>, i: nat)
    requires Legal(id, log) && 1 <= i < |log|
    ensures StepFacts(At(id, log, i), log[i].payload, At(id, log, i + 1))
  {
    hide IsDecision, StepFacts, Apply;
    LegalAt(id, log, i);
    assert log[..i + 1][..i] == log[..i];
    DecisionFacts(At(id, log, i), log[i].payload);
  }

  /** Undoing a legal log backwards from its final state recovers what was observable at creation. */
  lemma {:induction false} UndoRecoversCreation(id: string, log: seq<Event>)
    requires Legal(id, log) && log != []
    ensures Replay(log).Some? && Replay(log[..1]).Some?
    ensures UndoAll(Observe(Replay(log).value), log[1..]) == Observe(Replay(log[..1]).value)
  {
    hide Legal, Replay, Observe, Undo, Redo;
    var n := |log|;
    LegalVersions(id, log);
    LegalAt(id, log, 0);
    if n == 1 {
      assert log[..1] == log;
    } else {
      LegalPrefix(id, log, n - 1);
      LegalVersions(id, log[..n - 1]);
      StepAt(id, log, n - 1);
      assert log[..n] == log;
      UndoRecoversCreation(id, log[..n - 1]);
      assert log[..n - 1][..1] == log[..1];
      assert log[..n - 1][1..] == log[1..][..|log[1..]| - 1];
    }
  }

  // ---------- the life cycle ----------

  lemma StatusMoves(id: string, log: seq<Event>, i: nat)
    requires Legal(id, log) && 1 <= i < |log|
    ensures var t, t' := At(id, log, i), At(id, log, i + 1);
            t'.status == t.status || t.status.CanTransitionTo(t'.status)
  {
    hide Legal, At, Undo, Redo, Observe;
    StepAt(id, log, i);
  }

  lemma CountersMove(id: string, log: seq<Event>, i: nat)
    requires Legal(id, log) && 1 <= i < |log|
    ensures var t, t' := At(id, log, i), At(id, log, i + 1);
      && t'.priorityChanges == t.priorityChanges + (if t'.priority != t.priority then 1 else 0)
      && t'.assigneeChanges == t.assigneeChanges + (if t'.assigneeId != t.assigneeId then 1 else 0)
  {
    hide Legal, At, Undo, Redo, Observe;
    StepAt(id, log, i);
  }

  lemma AfterCreation(id: string, log: seq<Event>)
    requires Legal(id, log) && log != []
    ensures At(id, log, 1).status == Backlog
    ensures At(id, log, 1).priorityChanges == 0 && At(id, log, 1).assigneeChanges == 0
  {
    LegalAt(id, log, 0);
    assert log[..1][..0] == [] && log[..1][0] == log[0];
  }

  /** A task in work or in review came through TODO and then IN_PROGRESS, with no DONE since. */
  lemma {:induction false} WorkEpisode(id: string, log: seq<Event>, i: nat) returns (j: nat, k: nat)
    requires Legal(id, log) && 1 <= i <= |log|
    requires At(id, log, i).status == InProgress || At(id, log, i).status == InReview
    ensures 1 <= j < k <= i
    ensures At(id, log, j).status == Todo && At(id, log, k).status == InProgress
    ensures forall m :: j <= m <= i ==> At(id, log, m).status != Done
  {
    hide Legal, LegalNext, At;
    AfterCreation(id, log);
    StatusMoves(id, log, i - 1);
    if At(id, log, i - 1).status == Todo {
      j, k := i - 1, i;
    } else {
      j, k := WorkEpisode(id, log, i - 1);
    }
  }

  /**
   Every entry to DONE, by update or by `change_status`, is preceded since
   creation or the last DONE by TODO and then IN_PROGRESS.
   */
  lemma DoneIsEarned(id: string, log: seq<Event>, n: nat) returns (j: nat, k: nat)
    requires Legal(id, log) && 1 < n <= |log|
    requires At(id, log, n).status == Done && At(id, log, n - 1).status != Done
    ensures 1 <= j < k < n
    ensures At(id, log, j).status == Todo && At(id, log, k).status == InProgress
    ensures forall m :: j <= m < n ==> At(id, log, m).status != Done
  {
    hide Legal, LegalNext, At;
    StatusMoves(id, log, n - 1);
    j, k := WorkEpisode(id, log, n - 1);
  }

  // ---------- the change counters ----------

  /** How many of the steps after creation changed the priority, and how many changed the assignee. */
  ghost function Changes(id: string, log: seq<Event>, n: nat): (nat, nat)
    requires Legal(id, log) && 1 <= n <= |log|
  {
    if n == 1 then (0, 0) else
    var (p, a) := Changes(id, log, n - 1);
    (p + (if At(id, log, n).priority != At(id, log, n - 1).priority then 1 else 0),
     a + (if At(id, log, n).assigneeId != At(id, log, n - 1).assigneeId then 1 else 0))
  }

  /** The metadata counters count exactly those changes. */
  lemma {:induction false} CountersCountChanges(id: string, log: seq<Event>, n: nat)
    requires Legal(id, log) && 1 <= n <= |log|
    ensures (At(id, log, n).priorityChanges, At(id, log, n).assigneeChanges) == Changes(id, log, n)
  {
    hide Legal, LegalNext, At;
    if n == 1 {
      AfterCreation(id, log);
    } else {
      CountersCountChanges(id, log, n - 1);
      CountersMove(id, log, n - 1);
    }
  }
}
