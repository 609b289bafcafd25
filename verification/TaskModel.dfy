/**
 The task aggregate as a pure decide/apply/replay specification. The class in
 TaskAggregate.dfy is proved against these functions.
 */
module TaskModel {
  import opened Wrappers
  import opened ValueObjects
  import opened TaskEvents

  datatype Task = Task(
    title: string,
    description: string,
    priority: TaskPriority,
    status: TaskStatus,
    assigneeId: Option<string>,
    createdBy: Option<string>,
    labels: seq<string>,
    dueDate: Option<DateTime>,
    priorityChanges: nat,
    assigneeChanges: nat,
    isDeleted: bool)

  /** A freshly constructed aggregate before any event. */
  const BLANK := Task("Untitled", "", Medium, Backlog, None, None, [], None, 0, 0, false)

  // ---------- applying events ----------

  /** `apply_event`; `None` when a value object in the handler raises. */
  function Apply(t: Task, p: Payload): Option<Task> {
    match p
    case TaskCreated(title, description, priority, assigneeId, createdBy, labels, dueDate) =>
      if ValidTitle(title) && ValidDescription(description) && ParsePriority(priority).Some? && ValidLabels(labels) then
        Some(t.(title := title,
                description := description,
                priority := ParsePriority(priority).value,
                status := Backlog,
                assigneeId := if assigneeId == Some("") then None else assigneeId,
                createdBy := Some(createdBy),
                labels := labels,
                dueDate := if dueDate.Some? then Some(dueDate.value.(zoned := true)) else None,
                isDeleted := false))
      else None
    case TaskUpdated(changes, _) =>
      ApplyChanges(t, changes)
    case TaskAssigned(_, newAssigneeId, _) =>
      Some(t.(assigneeId := Some(newAssigneeId), assigneeChanges := t.assigneeChanges + 1))
    case TaskStatusChanged(_, newStatus, _, _) =>
      if ParseStatus(newStatus).Some? then Some(t.(status := ParseStatus(newStatus).value)) else None
    case TaskPriorityChanged(_, newPriority, _) =>
      if ParsePriority(newPriority).Some? then
        Some(t.(priority := ParsePriority(newPriority).value, priorityChanges := t.priorityChanges + 1))
      else None
    case TaskDeleted(_, _) =>
      Some(t.(isDeleted := true))
  }

  function ApplyChanges(t: Task, c: FieldChanges): Option<Task> {
    if (c.title.Some? && !ValidTitle(c.title.value.after))
       || (c.description.Some? && !ValidDescription(c.description.value.after))
       || (c.status.Some? && ParseStatus(c.status.value.after).None?)
       || (c.priority.Some? && ParsePriority(c.priority.value.after).None?)
       || (c.labels.Some? && !ValidLabels(c.labels.value.after))
    then None
    else
      Some(t.(title := if c.title.Some? then c.title.value.after else t.title,
              description := if c.description.Some? then c.description.value.after else t.description,
              status := if c.status.Some? then ParseStatus(c.status.value.after).value else t.status,
              priority := if c.priority.Some? then ParsePriority(c.priority.value.after).value else t.priority,
              priorityChanges := if c.priority.Some? then t.priorityChanges + 1 else t.priorityChanges,
              labels := if c.labels.Some? then c.labels.value.after else t.labels))
  }

  /** The state after a sequence of events, starting from a fresh aggregate; `None` if one of them cannot be applied. */
  function Replay(es: seq<Event>): Option<Task> {
    if es == [] then Some(BLANK)
    else
      var before :- Replay(es[..|es| - 1]);
      Apply(before, es[|es| - 1].payload)
  }

  /** Folding a prefix and then, from where it ended, the rest. */
  function ReplayFrom(t: Task, es: seq<Event>): Option<Task> {
    if es == [] then Some(t)
    else
      var before :- ReplayFrom(t, es[..|es| - 1]);
      Apply(before, es[|es| - 1].payload)
  }

  lemma {:induction false} ReplaySplit(a: seq<Event>, b: seq<Event>)
    requires Replay(a).Some?
    ensures Replay(a + b) == ReplayFrom(Replay(a).value, b)
  {
    if b == [] {
      assert a + b == a;
    } else {
      ReplaySplit(a, b[..|b| - 1]);
      assert (a + b)[..|a + b| - 1] == a + b[..|b| - 1];
    }
  }

  lemma ReplayExtend(before: seq<Event>, e: Event)
    requires Replay(before).Some?
    ensures Replay(before + [e]) == Apply(Replay(before).value, e.payload)
  {
    hide Apply;
    assert (before + [e])[..|before + [e]| - 1] == before;
  }

  lemma {:induction false} ReplayPrefix(es: seq<Event>, n: nat)
    requires n <= |es| && Replay(es).Some?
    ensures Replay(es[..n]).Some?
  {
    if n == |es| {
      assert es[..n] == es;
    } else {
      ReplayPrefix(es[..|es| - 1], n);
      assert es[..|es| - 1][..n] == es[..n];
    }
  }

  // ---------- deciding commands ----------

  datatype CreateCommand = CreateCommand(title: string, description: string, priority: string,
                                         assigneeId: Option<string>, createdBy: string,
                                         labels: seq<string>, dueDate: Option<DateTime>)

  datatype Command =
    | Update(updateTaskId: string, title: Option<string>, description: Option<string>, status: Option<string>,
             priority: Option<string>, labels: Option<seq<string>>, updatedBy: string)
    | Assign(assignTaskId: string, newAssigneeId: string, assignedBy: string)
    | ChangeStatus(newStatus: TaskStatus, statusChangedBy: string, statusReason: Option<string>)
    | ChangePriority(newPriority: TaskPriority, priorityChangedBy: string)
    | Delete(deleteTaskId: string, deletedBy: string, deleteReason: Option<string>)

  /** What a command leads to: an exception, nothing, or an event to raise. */
  datatype Decision = Reject | NoChange | Emit(payload: Payload)

  predicate ValidCreate(c: CreateCommand) {
    && 3 <= |c.title| <= 200
    && |c.description| <= 5000
    && c.createdBy != ""
    && ParsePriority(c.priority).Some?
    && (c.dueDate.Some? ==> c.dueDate.value.zoned)
  }

  function CreatedPayload(c: CreateCommand): Payload {
    TaskCreated(c.title, c.description, c.priority, c.assigneeId, c.createdBy, c.labels, c.dueDate)
  }

  // Each field of an update: `None` when it raises, `Some(None)` when it is left alone.

  function TitleChange(t: Task, title: Option<string>): Option<Option<Change<string>>> {
    if title.None? || title.value == Strip(t.title) then Some(None)
    else if ValidTitle(title.value) then Some(Some(Change(Strip(t.title), Strip(title.value))))
    else None
  }

  function DescriptionChange(t: Task, d: Option<string>): Option<Option<Change<string>>> {
    if d.None? || d.value == t.description then Some(None)
    else if ValidDescription(d.value) then Some(Some(Change(t.description, d.value)))
    else None
  }

  function StatusChange(t: Task, s: Option<string>): (r: Option<Option<Change<string>>>)
    ensures r.Some? && r.value.Some? ==>
      && r.value.value.before == t.status.Text()
      && exists next: TaskStatus :: t.status.CanTransitionTo(next) && r.value.value.after == next.Text()
  {
    if s.None? then Some(None) else
    var next :- ParseStatus(s.value);
    if next == t.status then Some(None)
    else if t.status.CanTransitionTo(next) then Some(Some(Change(t.status.Text(), next.Text())))
    else None
  }

  function PriorityChange(t: Task, p: Option<string>): (r: Option<Option<Change<string>>>)
    ensures r.Some? && r.value.Some? ==>
      && r.value.value.before == t.priority.Text()
      && exists next: TaskPriority :: next != t.priority && r.value.value.after == next.Text()
  {
    if p.None? then Some(None) else
    var next :- ParsePriority(p.value);
    if next == t.priority then Some(None)
    else Some(Some(Change(t.priority.Text(), next.Text())))
  }

  function LabelsChange(t: Task, ls: Option<seq<string>>): Option<Option<Change<seq<string>>>> {
    if ls.None? then Some(None)
    else if ValidLabels(ls.value) then Some(Some(Change(LowerAll(t.labels), LowerAll(ls.value))))
    else None
  }

  function FieldChangesFor(t: Task, c: Command): Option<FieldChanges>
    requires c.Update?
  {
    var title :- TitleChange(t, c.title);
    var description :- DescriptionChange(t, c.description);
    var status :- StatusChange(t, c.status);
    var priority :- PriorityChange(t, c.priority);
    var labels :- LabelsChange(t, c.labels);
    Some(FieldChanges(title, description, status, priority, labels))
  }

  predicate ValidUpdate(c: Command)
    requires c.Update?
  {
    && c.updateTaskId != "" && c.updatedBy != ""
    && (c.title.Some? ==> 3 <= |c.title.value| <= 200)
    && (c.description.Some? ==> |c.description.value| <= 5000)
    && (c.status.Some? && c.status.value != "" ==> ParseStatus(c.status.value).Some?)
    && (c.priority.Some? && c.priority.value != "" ==> ParsePriority(c.priority.value).Some?)
  }

  function Decide(t: Task, c: Command): Decision {
    match c
    case Update(_, _, _, _, _, _, updatedBy) =>
      if !ValidUpdate(c) || t.isDeleted then Reject else
      (match FieldChangesFor(t, c)
       case None => Reject
       case Some(changes) => if changes == NO_CHANGES then NoChange else Emit(TaskUpdated(changes, updatedBy)))
    case Assign(taskId, newAssigneeId, assignedBy) =>
      if taskId == "" || newAssigneeId == "" || assignedBy == "" || t.isDeleted then Reject
      else if t.assigneeId == Some(newAssigneeId) then NoChange
      else Emit(TaskAssigned(t.assigneeId, newAssigneeId, assignedBy))
    case ChangeStatus(newStatus, changedBy, reason) =>
      if t.isDeleted || !t.status.CanTransitionTo(newStatus) then Reject
      else if newStatus == t.status then NoChange
      else Emit(TaskStatusChanged(t.status.Text(), newStatus.Text(), changedBy, reason))
    case ChangePriority(newPriority, changedBy) =>
      if t.isDeleted then Reject
      else if newPriority == t.priority then NoChange
      else Emit(TaskPriorityChanged(t.priority.Text(), newPriority.Text(), changedBy))
    case Delete(taskId, deletedBy, reason) =>
      if taskId == "" || deletedBy == "" || t.isDeleted then Reject
      else Emit(TaskDeleted(deletedBy, reason))
  }

  /** An update whose new title passes the rule as given but keeps fewer than three characters once stripped. */
  predicate ShrinksTitle(t: Task, c: Command) {
    c.Update? && c.title.Some? && c.title.value != Strip(t.title) && |Strip(c.title.value)| < 3
  }

  /** A decided event can be applied, except exactly when the command shrinks the title below the rule. */
  lemma DecidedEventApplies(t: Task, c: Command)
    requires Decide(t, c).Emit?
    ensures Apply(t, Decide(t, c).payload).None? <==> ShrinksTitle(t, c)
  {
    if c.Update? {
      DecidedUpdateApplies(t, c);
    }
  }

  lemma DecidedUpdateApplies(t: Task, c: Command)
    requires c.Update? && FieldChangesFor(t, c).Some?
    ensures ApplyChanges(t, FieldChangesFor(t, c).value).None? <==> ShrinksTitle(t, c)
  {
    hide Strip, LowerAll, ValidTitle, ValidLabels, ParseStatus, ParsePriority;
    var changes := FieldChangesFor(t, c).value;
    if changes.title.Some? {
      StrippedTitleRule(c.title.value);
    }
    if changes.labels.Some? {
      LowerKeepsLabels(c.labels.value);
    }
  }

  /**
   Asking for the status the task already has is refused by `change_status`: its
   "no change" branch is never reached.
   */
  lemma SameStatusIsRefused(t: Task, changedBy: string, reason: Option<string>)
    ensures Decide(t, ChangeStatus(t.status, changedBy, reason)) == Reject
    ensures forall s :: Decide(t, ChangeStatus(s, changedBy, reason)) != NoChange
  {
  }

  // ---------- the aggregate ----------

  /** An aggregate root: identity, state, version and the events not yet marked as committed. */
  datatype Agg = Agg(id: string, task: Task, version: int, pending: seq<Event>)

  datatype Outcome = Refused | Unchanged | Recorded | ApplyRaised

  /** `raise_event`: the event is appended first, then applied, and only then does the version move. */
  function RaiseEvent(a: Agg, eventId: string, p: Payload): (Agg, Outcome) {
    var a' := a.(pending := a.pending + [Event(eventId, a.id, a.version + 1, p)]);
    match Apply(a.task, p)
    case None => (a', ApplyRaised)
    case Some(t) => (a'.(task := t, version := a.version + 1), Recorded)
  }

  function Handle(a: Agg, c: Command, eventId: string): (Agg, Outcome) {
    match Decide(a.task, c)
    case Reject => (a, Refused)
    case NoChange => (a, Unchanged)
    case Emit(p) => RaiseEvent(a, eventId, p)
  }

  /** `TaskAggregate.create`: `None` when it raises, and then no aggregate is returned. */
  function Create(c: CreateCommand, id: string, eventId: string): Option<Agg> {
    if !ValidCreate(c) then None else
    var (a, outcome) := RaiseEvent(Agg(id, BLANK, 0, []), eventId, CreatedPayload(c));
    if outcome == Recorded then Some(a) else None
  }

  // ---------- rebuilding from events ----------

  /** Stable insertion of `e` in front of the first event whose version is not smaller. */
  function InsertByVersion(e: Event, es: seq<Event>): seq<Event> {
    if es == [] || e.version <= es[0].version then [e] + es
    else [es[0]] + InsertByVersion(e, es[1..])
  }

  /** Python's `sorted(events, key=version)`. */
  function SortByVersion(es: seq<Event>): seq<Event> {
    if es == [] then [] else InsertByVersion(es[0], SortByVersion(es[1..]))
  }

  /** `from_events`: `None` when it raises, on an empty list or an event that cannot be applied. */
  function FromEvents(es: seq<Event>): Option<Agg> {
    if es == [] then None else
    var sorted := SortByVersion(es);
    var t :- Replay(sorted);
    Some(Agg(es[0].aggregateId, t, if sorted == [] then 0 else sorted[|sorted| - 1].version, []))
  }
}
