/** The task aggregate root as an object whose fields commands and events update in place. */
module TaskAggregates {
  import opened Wrappers
  import opened ValueObjects
  import opened TaskEvents
  import opened TaskModel
  import opened CommandEffects
  import EventOrder

  class TaskAggregate {
    const aggregateId: string
    var title: string
    var description: string
    var priority: TaskPriority
    var status: TaskStatus
    var assigneeId: Option<string>
    var createdBy: Option<string>
    var labels: seq<string>
    var dueDate: Option<DateTime>
    var priorityChangedCount: nat
    var assigneeChangedCount: nat
    var isDeleted: bool
    var version: int
    var uncommitted: seq<Event>

    function Fields(): Task
      reads this
    {
      Task(title, description, priority, status, assigneeId, createdBy, labels, dueDate,
           priorityChangedCount, assigneeChangedCount, isDeleted)
    }

    function Value(): Agg
      reads this
    {
      Agg(aggregateId, Fields(), version, uncommitted)
    }

    constructor (id: string)
      ensures Value() == Agg(id, BLANK, 0, [])
    {
      aggregateId := id;
      title, description, priority, status := "Untitled", "", Medium, Backlog;
      assigneeId, createdBy, labels, dueDate := None, None, [], None;
      priorityChangedCount, assigneeChangedCount, isDeleted := 0, 0, false;
      version, uncommitted := 0, [];
    }

    // ---------- applying events ----------

    /**
     Runs the handler of an event; `ok` is false when a value object raised, and a
     title is the first to be checked.
     */
    method ApplyEvent(p: Payload) returns (ok: bool)
      modifies this
      ensures version == old(version) && uncommitted == old(uncommitted)
      ensures ok <==> Apply(old(Fields()), p).Some?
      ensures ok ==> Fields() == Apply(old(Fields()), p).value
      ensures p.TaskUpdated? && p.changes.title.Some? && !ValidTitle(p.changes.title.value.after) ==> Fields() == old(Fields())
    {
      match p
      case TaskCreated(_, _, _, _, _, _, _) =>
        ok := ApplyCreated(p);
      case TaskUpdated(changes, _) =>
        ok := ApplyUpdated(changes);
      case TaskAssigned(_, newAssigneeId, _) =>
        assigneeId := Some(newAssigneeId);
        assigneeChangedCount := assigneeChangedCount + 1;
        ok := true;
      case TaskStatusChanged(_, newStatus, _, _) =>
        var parsed := ParseStatus(newStatus);
        if parsed.None? {
          return false;
        }
        status := parsed.value;
        ok := true;
      case TaskPriorityChanged(_, newPriority, _) =>
        var parsed := ParsePriority(newPriority);
        if parsed.None? {
          return false;
        }
        priority := parsed.value;
        priorityChangedCount := priorityChangedCount + 1;
        ok := true;
      case TaskDeleted(_, _) =>
        isDeleted := true;
        ok := true;
    }

    method ApplyCreated(p: Payload) returns (ok: bool)
      requires p.TaskCreated?
      modifies this
      ensures version == old(version) && uncommitted == old(uncommitted)
      ensures ok <==> Apply(old(Fields()), p).Some?
      ensures ok ==> Fields() == Apply(old(Fields()), p).value
    {
      hide ValidTitle, ValidLabels, ParsePriority, ApplyChanges;
      if !ValidTitle(p.title) {
        return false;
      }
      title := p.title;
      if !ValidDescription(p.description) {
        return false;
      }
      description := p.description;
      var parsed := ParsePriority(p.priority);
      if parsed.None? {
        return false;
      }
      priority := parsed.value;
      status := Backlog;
      assigneeId := if p.assigneeId == Some("") then None else p.assigneeId;
      createdBy := Some(p.createdBy);
      if !ValidLabels(p.labels) {
        return false;
      }
      labels := p.labels;
      dueDate := if p.dueDate.Some? then Some(p.dueDate.value.(zoned := true)) else None;
      isDeleted := false;
      ok := true;
    }

    method ApplyUpdated(c: FieldChanges) returns (ok: bool)
      modifies this
      ensures version == old(version) && uncommitted == old(uncommitted)
      ensures ok <==> ApplyChanges(old(Fields()), c).Some?
      ensures ok ==> Fields() == ApplyChanges(old(Fields()), c).value
      ensures c.title.Some? && !ValidTitle(c.title.value.after) ==> Fields() == old(Fields())
    {
      hide ValidTitle, ValidLabels, ParseStatus, ParsePriority;
      if c.title.Some? {
        if !ValidTitle(c.title.value.after) {
          return false;
        }
        title := c.title.value.after;
      }
      if c.description.Some? {
        if !ValidDescription(c.description.value.after) {
          return false;
        }
        description := c.description.value.after;
      }
      if c.status.Some? {
        var parsed := ParseStatus(c.status.value.after);
        if parsed.None? {
          return false;
        }
        status := parsed.value;
      }
      if c.priority.Some? {
        var parsed := ParsePriority(c.priority.value.after);
        if parsed.None? {
          return false;
        }
        priority := parsed.value;
        priorityChangedCount := priorityChangedCount + 1;
      }
      if c.labels.Some? {
        if !ValidLabels(c.labels.value.after) {
          return false;
        }
        labels := c.labels.value.after;
      }
      ok := true;
    }

    /** Appends the event, applies it, and moves the version unless applying raised. */
    method Raise(eventId: string, p: Payload) returns (r: Outcome)
      modifies this
      ensures r == RaiseEvent(old(Value()), eventId, p).1
      ensures r == Recorded ==> Value() == RaiseEvent(old(Value()), eventId, p).0
      ensures p.TaskUpdated? && p.changes.title.Some? && !ValidTitle(p.changes.title.value.after)
        ==> Value() == RaiseEvent(old(Value()), eventId, p).0
    {
      uncommitted := uncommitted + [Event(eventId, aggregateId, version + 1, p)];
      var ok := ApplyEvent(p);
      if !ok {
        return ApplyRaised;
      }
      version := version + 1;
      r := Recorded;
    }

    method MarkEventsCommitted()
      modifies this
      ensures Value() == old(Value()).(pending := [])
    {
      uncommitted := [];
    }

    // ---------- commands ----------

    static method Create(c: CreateCommand, id: string, eventId: string) returns (a: TaskAggregate?)
      ensures a == null <==> TaskModel.Create(c, id, eventId).None?
      ensures a != null ==> fresh(a) && a.Value() == TaskModel.Create(c, id, eventId).value
      ensures a != null <==> CanCreate(c)
      ensures a != null ==> CreatedAs(c, a.Fields()) && a.aggregateId == id && a.version == 1
    {
      hide CanCreate, CreatedAs, Apply;
      CreateDoes(c, id, eventId);
      if !ValidCreate(c) {
        return null;
      }
      a := new TaskAggregate(id);
      var r := a.Raise(eventId, CreatedPayload(c));
      if r != Recorded {
        a := null;
      }
    }

    method Update(c: Command, eventId: string) returns (r: Outcome)
      requires c.Update?
      modifies this
      ensures (Value(), r) == Handle(old(Value()), c, eventId)
      ensures r == Refused <==> !CanUpdate(old(Fields()), c)
      ensures r == Unchanged <==> CanUpdate(old(Fields()), c) && !Moves(old(Fields()), c)
      ensures r == Refused || r == Unchanged ==> Value() == old(Value())
      ensures r == Recorded ==> UpdatedAs(old(Fields()), c, Fields())
    {
      hide ValidUpdate, FieldChangesFor, ApplyChanges, CanUpdate, Moves, UpdatedAs;
      UpdateOutcome(Value(), c, eventId);
      if !ValidUpdate(c) || isDeleted {
        return Refused;
      }
      var changes := CollectChanges(c);
      if changes.None? {
        return Refused;
      }
      r := RaiseUpdate(c, changes.value, eventId);
    }

    /** The part of `update` that validates the new values and collects what changes; nothing when a value is refused. */
    method CollectChanges(c: Command) returns (r: Option<FieldChanges>)
      requires c.Update?
      ensures r == FieldChangesFor(Fields(), c)
    {
      hide ValidTitle, ValidLabels, ValidDescription, Strip, LowerAll, ParseStatus, ParsePriority;
      var changes := NO_CHANGES;
      if c.title.Some? && c.title.value != Strip(title) {
        if !ValidTitle(c.title.value) {
          return None;
        }
        changes := changes.(title := Some(Change(Strip(title), Strip(c.title.value))));
      }
      if c.description.Some? && c.description.value != description {
        if !ValidDescription(c.description.value) {
          return None;
        }
        changes := changes.(description := Some(Change(description, c.description.value)));
      }
      if c.status.Some? {
        var next := ParseStatus(c.status.value);
        if next.None? {
          return None;
        }
        if next.value != status {
          if !status.CanTransitionTo(next.value) {
            return None;
          }
          changes := changes.(status := Some(Change(status.Text(), next.value.Text())));
        }
      }
      if c.priority.Some? {
        var next := ParsePriority(c.priority.value);
        if next.None? {
          return None;
        }
        if next.value != priority {
          changes := changes.(priority := Some(Change(priority.Text(), next.value.Text())));
        }
      }
      if c.labels.Some? {
        if !ValidLabels(c.labels.value) {
          return None;
        }
        changes := changes.(labels := Some(Change(LowerAll(labels), LowerAll(c.labels.value))));
      }
      r := Some(changes);
    }

    method RaiseUpdate(c: Command, changes: FieldChanges, eventId: string) returns (r: Outcome)
      requires c.Update? && ValidUpdate(c) && !isDeleted && FieldChangesFor(Fields(), c) == Some(changes)
      modifies this
      ensures (Value(), r) == Handle(old(Value()), c, eventId)
    {
      hide FieldChangesFor, ValidUpdate;
      ghost var before := Fields();
      if changes == NO_CHANGES {
        return Unchanged;
      }
      FailureIsTheTitle(before, c);
      r := Raise(eventId, TaskUpdated(changes, c.updatedBy));
    }

    method AssignTo(c: Command, eventId: string) returns (r: Outcome)
      requires c.Assign?
      modifies this
      ensures (Value(), r) == Handle(old(Value()), c, eventId)
      ensures r == Refused <==> c.assignTaskId == "" || c.newAssigneeId == "" || c.assignedBy == "" || old(isDeleted)
      ensures r == Unchanged <==> r != Refused && old(assigneeId) == Some(c.newAssigneeId)
      ensures r == Refused || r == Unchanged ==> Value() == old(Value())
      ensures r == Recorded ==>
        Fields() == old(Fields()).(assigneeId := Some(c.newAssigneeId), assigneeChanges := old(assigneeChangedCount) + 1)
    {
      if c.assignTaskId == "" || c.newAssigneeId == "" || c.assignedBy == "" || isDeleted {
        return Refused;
      }
      var previous := assigneeId;
      if previous.Some? && previous.value == c.newAssigneeId {
        return Unchanged;
      }
      r := Raise(eventId, TaskAssigned(previous, c.newAssigneeId, c.assignedBy));
    }

    method MoveTo(c: Command, eventId: string) returns (r: Outcome)
      requires c.ChangeStatus?
      modifies this
      ensures (Value(), r) == Handle(old(Value()), c, eventId)
      ensures r == Recorded <==> !old(isDeleted) && old(status).CanTransitionTo(c.newStatus)
      ensures r != Recorded ==> r == Refused && Value() == old(Value())
      ensures r == Recorded ==> Fields() == old(Fields()).(status := c.newStatus)
    {
      ChangeStatusDoes(Fields(), c.newStatus, c.statusChangedBy, c.statusReason);
      if isDeleted || !status.CanTransitionTo(c.newStatus) {
        return Refused;
      }
      // No check for an unchanged status is left to make: the table has no transition from a status to itself.
      r := Raise(eventId, TaskStatusChanged(status.Text(), c.newStatus.Text(), c.statusChangedBy, c.statusReason));
    }

    method Prioritize(c: Command, eventId: string) returns (r: Outcome)
      requires c.ChangePriority?
      modifies this
      ensures (Value(), r) == Handle(old(Value()), c, eventId)
      ensures r == Refused <==> old(isDeleted)
      ensures r == Unchanged <==> !old(isDeleted) && c.newPriority == old(priority)
      ensures r == Refused || r == Unchanged ==> Value() == old(Value())
      ensures r == Recorded ==>
        Fields() == old(Fields()).(priority := c.newPriority, priorityChanges := old(priorityChangedCount) + 1)
    {
      ChangePriorityDoes(Fields(), c.newPriority, c.priorityChangedBy);
      if isDeleted {
        return Refused;
      }
      if c.newPriority == priority {
        return Unchanged;
      }
      r := Raise(eventId, TaskPriorityChanged(priority.Text(), c.newPriority.Text(), c.priorityChangedBy));
    }

    method Remove(c: Command, eventId: string) returns (r: Outcome)
      requires c.Delete?
      modifies this
      ensures (Value(), r) == Handle(old(Value()), c, eventId)
      ensures r == Recorded <==> c.deleteTaskId != "" && c.deletedBy != "" && !old(isDeleted)
      ensures r != Recorded ==> r == Refused && Value() == old(Value())
      ensures r == Recorded ==> Fields() == old(Fields()).(isDeleted := true)
    {
      if c.deleteTaskId == "" || c.deletedBy == "" || isDeleted {
        return Refused;
      }
      r := Raise(eventId, TaskDeleted(c.deletedBy, c.deleteReason));
    }

    // ---------- rebuilding ----------

    /** `from_events`: sorts by version, applies one event after the other and takes over each version. */
    static method FromEvents(es: seq<Event>) returns (a: TaskAggregate?)
      ensures a == null <==> TaskModel.FromEvents(es).None?
      ensures a != null ==> fresh(a) && a.Value() == TaskModel.FromEvents(es).value
    {
      hide Apply, SortByVersion;
      if es == [] {
        return null;
      }
      var sorted := SortByVersion(es);
      EventOrder.SortSorts(es);
      a := new TaskAggregate(es[0].aggregateId);
      for i := 0 to |sorted|
        invariant fresh(a)
        invariant Replay(sorted[..i]) == Some(a.Fields())
        invariant a.aggregateId == es[0].aggregateId && a.uncommitted == []
        invariant a.version == if i == 0 then 0 else sorted[i - 1].version
      {
        ReplayOneMore(sorted, i);
        var ok := a.ApplyEvent(sorted[i].payload);
        if !ok {
          return null;
        }
        a.version := sorted[i].version;
      }
      assert sorted[..|sorted|] == sorted;
    }
  }

  lemma ReplayOneMore(es: seq<Event>, i: nat)
    requires i < |es| && Replay(es[..i]).Some?
    ensures Replay(es[..i + 1]) == Apply(Replay(es[..i]).value, es[i].payload)
    ensures Replay(es[..i + 1]).None? ==> Replay(es).None?
  {
    hide Apply, Replay;
    assert es[..i + 1] == es[..i] + [es[i]];
    ReplayExtend(es[..i], es[i]);
    if Replay(es).Some? {
      ReplayPrefix(es, i + 1);
    }
  }

  /** An update whose event cannot be applied fails at its title, before any field is assigned. */
  lemma FailureIsTheTitle(t: Task, c: Command)
    requires c.Update? && Decide(t, c).Emit?
    ensures var p := Decide(t, c).payload;
            && p.TaskUpdated?
            && (Apply(t, p).None? ==> p.changes.title.Some? && !ValidTitle(p.changes.title.value.after))
  {
    DecidedEventApplies(t, c);
  }
}
