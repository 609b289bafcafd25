/**
 What each command does to a task, in terms of the command and the task alone:
 when it is refused, when it changes nothing, and otherwise the event it records
 and the state it leads to.
 */
module CommandEffects {
  import opened Wrappers
  import opened ValueObjects
  import opened TaskEvents
  import opened TaskModel

  // ---------- creation ----------

  predicate CanCreate(c: CreateCommand) {
    && 3 <= |c.title| <= 200 && !AllSpace(c.title)
    && |c.description| <= 5000
    && c.createdBy != ""
    && c.priority in {"low", "medium", "high", "critical"}
    && (forall i :: 0 <= i < |c.labels| ==> ValidLabel(c.labels[i]))
    && (c.dueDate.Some? ==> c.dueDate.value.zoned)
  }

  /** The task is the one its command describes. */
  predicate CreatedAs(c: CreateCommand, t: Task) {
    && t.title == c.title && t.description == c.description
    && t.priority.Text() == c.priority && t.status == Backlog
    && t.assigneeId == (if c.assigneeId == Some("") then None else c.assigneeId)
    && t.createdBy == Some(c.createdBy)
    && t.labels == c.labels && t.dueDate == c.dueDate
    && t.priorityChanges == 0 && t.assigneeChanges == 0 && !t.isDeleted
  }

  /** A creation succeeds exactly for a valid command, and then gives the task described, at version 1, with one unsaved event. */
  lemma CreateDoes(c: CreateCommand, id: string, eventId: string)
    ensures Create(c, id, eventId).Some? <==> CanCreate(c)
    ensures Create(c, id, eventId).Some? ==>
      var a := Create(c, id, eventId).value;
      && CreatedAs(c, a.task) && a.id == id && a.version == 1
      && |a.pending| == 1 && a.pending[0].eventId == eventId && a.pending[0].aggregateId == id && a.pending[0].version == 1
  {
    PriorityNames();
    if Create(c, id, eventId).Some? {
      TextOfPriority(c.priority);
    }
  }

  lemma TextOfPriority(s: string)
    requires ParsePriority(s).Some?
    ensures ParsePriority(s).value.Text() == s
  {
  }

  lemma TextOfStatus(s: string)
    requires ParseStatus(s).Some?
    ensures ParseStatus(s).value.Text() == s
  {
  }

  // ---------- the small commands ----------

  /** A status change is accepted exactly along the table, and leads to the status asked for; it never counts as "no change". */
  lemma ChangeStatusDoes(t: Task, next: TaskStatus, author: string, reason: Option<string>)
    ensures var d := Decide(t, ChangeStatus(next, author, reason));
      && (d.Emit? <==> !t.isDeleted && t.status.CanTransitionTo(next))
      && (!d.Emit? ==> d == Reject)
      && (d.Emit? ==>
            && Apply(t, d.payload) == Some(t.(status := next))
            && d.payload == TaskStatusChanged(t.status.Text(), next.Text(), author, reason))
  {
    hide ParseStatus;
  }

  /** A priority change is refused on a deleted task only; a new priority is taken over and counted. */
  lemma ChangePriorityDoes(t: Task, next: TaskPriority, author: string)
    ensures var d := Decide(t, ChangePriority(next, author));
      && (d == Reject <==> t.isDeleted)
      && (d == NoChange <==> !t.isDeleted && next == t.priority)
      && (d.Emit? ==>
            && Apply(t, d.payload) == Some(t.(priority := next, priorityChanges := t.priorityChanges + 1))
            && d.payload == TaskPriorityChanged(t.priority.Text(), next.Text(), author))
  {
    hide ParsePriority;
  }

  /** An assignment needs its three texts and a live task; a new assignee is taken over and counted. */
  lemma AssignDoes(t: Task, taskId: string, assignee: string, author: string)
    ensures var d := Decide(t, Assign(taskId, assignee, author));
      && (d == Reject <==> taskId == "" || assignee == "" || author == "" || t.isDeleted)
      && (d == NoChange <==> d != Reject && t.assigneeId == Some(assignee))
      && (d.Emit? ==>
            && Apply(t, d.payload) == Some(t.(assigneeId := Some(assignee), assigneeChanges := t.assigneeChanges + 1))
            && d.payload == TaskAssigned(t.assigneeId, assignee, author))
  {
  }

  /** A deletion needs its two texts and a live task, and only marks it as deleted. */
  lemma DeleteDoes(t: Task, taskId: string, author: string, reason: Option<string>)
    ensures var d := Decide(t, Delete(taskId, author, reason));
      && (d.Emit? <==> taskId != "" && author != "" && !t.isDeleted)
      && (!d.Emit? ==> d == Reject)
      && (d.Emit? ==> Apply(t, d.payload) == Some(t.(isDeleted := true)) && d.payload == TaskDeleted(author, reason))
  {
  }

  // ---------- updates ----------

  predicate TitleMoves(t: Task, c: Command)
    requires c.Update?
  {
    c.title.Some? && c.title.value != Strip(t.title)
  }

  ghost predicate CanUpdate(t: Task, c: Command)
    requires c.Update?
  {
    && c.updateTaskId != "" && c.updatedBy != "" && !t.isDeleted
    && (c.title.Some? ==> 3 <= |c.title.value| <= 200)
    && (TitleMoves(t, c) ==> !AllSpace(c.title.value))
    && (c.description.Some? ==> |c.description.value| <= 5000)
    && (c.status.Some? ==>
          exists s: TaskStatus :: s.Text() == c.status.value && (s == t.status || t.status.CanTransitionTo(s)))
    && (c.priority.Some? ==> exists p: TaskPriority :: p.Text() == c.priority.value)
    && (c.labels.Some? ==> forall i :: 0 <= i < |c.labels.value| ==> ValidLabel(c.labels.value[i]))
  }

  /** A given field that differs, or given labels. */
  predicate Moves(t: Task, c: Command)
    requires c.Update?
  {
    || TitleMoves(t, c)
    || (c.description.Some? && c.description.value != t.description)
    || (c.status.Some? && c.status.value != t.status.Text())
    || (c.priority.Some? && c.priority.value != t.priority.Text())
    || c.labels.Some?
  }

  /** After an update each given field holds the given value, stripped or lower-cased, and everything else is as it was. */
  predicate UpdatedAs(t: Task, c: Command, t': Task)
    requires c.Update?
  {
    && t'.title == (if TitleMoves(t, c) then Strip(c.title.value) else t.title)
    && t'.description == (if c.description.Some? then c.description.value else t.description)
    && t'.status.Text() == (if c.status.Some? then c.status.value else t.status.Text())
    && t'.priority.Text() == (if c.priority.Some? then c.priority.value else t.priority.Text())
    && t'.priorityChanges == t.priorityChanges + (if t'.priority != t.priority then 1 else 0)
    && t'.labels == (if c.labels.Some? then LowerAll(c.labels.value) else t.labels)
    && t'.assigneeId == t.assigneeId && t'.assigneeChanges == t.assigneeChanges
    && t'.createdBy == t.createdBy && t'.dueDate == t.dueDate && t'.isDeleted == t.isDeleted
  }

  /** The status part: accepted exactly for the present status or an allowed one. */
  lemma StatusPart(t: Task, s: Option<string>)
    ensures StatusChange(t, s).Some? <==>
      s.Some? ==> exists next: TaskStatus :: next.Text() == s.value && (next == t.status || t.status.CanTransitionTo(next))
    ensures StatusChange(t, s).Some? ==>
      && (StatusChange(t, s).value.Some? <==> s.Some? && s.value != t.status.Text())
      && (StatusChange(t, s).value.Some? ==> StatusChange(t, s).value.value.after == s.value)
  {
    if s.Some? && ParseStatus(s.value).Some? {
      TextOfStatus(s.value);
    }
  }

  lemma PriorityPart(t: Task, p: Option<string>)
    ensures PriorityChange(t, p).Some? <==> p.Some? ==> exists next: TaskPriority :: next.Text() == p.value
    ensures PriorityChange(t, p).Some? ==>
      && (PriorityChange(t, p).value.Some? <==> p.Some? && p.value != t.priority.Text())
      && (PriorityChange(t, p).value.Some? ==> PriorityChange(t, p).value.value.after == p.value)
  {
    if p.Some? && ParsePriority(p.value).Some? {
      TextOfPriority(p.value);
    }
  }

  /** An update is refused exactly when a check fails, and records an event exactly when something moves. */
  lemma UpdateDecides(t: Task, c: Command)
    requires c.Update?
    ensures var d := Decide(t, c);
      && (d == Reject <==> !CanUpdate(t, c))
      && (d.Emit? <==> CanUpdate(t, c) && Moves(t, c))
      && (d.Emit? ==> d.payload.TaskUpdated? && d.payload.updatedBy == c.updatedBy)
  {
    hide StatusChange, PriorityChange, Strip, LowerAll, ValidLabel, ParseStatus, ParsePriority;
    StatusPart(t, c.status);
    PriorityPart(t, c.priority);
    NamesParse(c);
  }

  lemma NamesParse(c: Command)
    requires c.Update?
    ensures c.status.Some? && ParseStatus(c.status.value).None? ==> forall s: TaskStatus :: s.Text() != c.status.value
    ensures c.priority.Some? && ParsePriority(c.priority.value).None? ==> forall p: TaskPriority :: p.Text() != c.priority.value
  {
  }

  /** A recorded update does what the command says. */
  lemma UpdateDoes(t: Task, c: Command)
    requires c.Update? && Decide(t, c).Emit? && Apply(t, Decide(t, c).payload).Some?
    ensures UpdatedAs(t, c, Apply(t, Decide(t, c).payload).value)
  {
    hide StatusChange, PriorityChange, Strip, LowerAll, ValidLabels, ValidTitle, ValidUpdate;
    StatusPart(t, c.status);
    PriorityPart(t, c.priority);
    var d := Decide(t, c).payload.changes;
    if d.status.Some? {
      TextOfStatus(d.status.value.after);
    }
    if d.priority.Some? {
      TextOfPriority(d.priority.value.after);
    }
  }

  /** The same, of the aggregate: what an update returns, and the state it leaves. */
  lemma UpdateOutcome(a: Agg, c: Command, eventId: string)
    requires c.Update?
    ensures var (a', r) := Handle(a, c, eventId);
      && (r == Refused <==> !CanUpdate(a.task, c))
      && (r == Unchanged <==> CanUpdate(a.task, c) && !Moves(a.task, c))
      && (r == Refused || r == Unchanged ==> a' == a)
      && (r == Recorded ==> UpdatedAs(a.task, c, a'.task))
  {
    hide Decide, Apply, CanUpdate, Moves, UpdatedAs;
    UpdateDecides(a.task, c);
    if Handle(a, c, eventId).1 == Recorded {
      UpdateDoes(a.task, c);
    }
  }

  /** A recorded command appends one event with the aggregate's id and next version, and moves the version to it. */
  lemma RecordedEvent(a: Agg, c: Command, eventId: string)
    ensures var (a', r) := Handle(a, c, eventId);
      && a'.id == a.id
      && (r == Recorded || r == ApplyRaised <==> Decide(a.task, c).Emit?)
      && (r == Recorded || r == ApplyRaised ==>
            a'.pending == a.pending + [Event(eventId, a.id, a.version + 1, Decide(a.task, c).payload)])
      && (r == Recorded ==> a'.version == a.version + 1)
      && (r == ApplyRaised ==> a'.version == a.version && a'.task == a.task)
  {
    hide Decide, Apply;
  }

  // ---------- the names ----------

  /** The texts of the enumeration members, as stored in events and used in requests. */
  lemma PriorityNames()
    ensures Low.Text() == "low" && Medium.Text() == "medium" && High.Text() == "high" && Critical.Text() == "critical"
    ensures forall s :: ParsePriority(s).Some? <==> s in {"low", "medium", "high", "critical"}
  {
  }

  lemma StatusNames()
    ensures Backlog.Text() == "backlog" && Todo.Text() == "todo" && InProgress.Text() == "in_progress"
    ensures InReview.Text() == "in_review" && Done.Text() == "done" && Archived.Text() == "archived"
    ensures forall s :: ParseStatus(s).Some? <==> s in {"backlog", "todo", "in_progress", "in_review", "done", "archived"}
  {
  }
}
