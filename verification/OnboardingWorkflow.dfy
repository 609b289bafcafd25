/**
 The task onboarding saga: which context keys its handlers read and write, for
 any behaviour of the services behind them. The publishing step is modelled as
 intended, with the event factory awaited and a publisher in place.
 */
module OnboardingWorkflow {
  import opened Wrappers
  import opened TaskEvents
  import opened SagaSteps
  import opened SagaInstances
  import opened SagaRestoration

  /** How one call to a service ends. */
  datatype Served<+W> = Ok(world: W, took: real) | Error(world: W, took: real) | NoAnswer(world: W)

  /** The services behind the handlers; what they do may depend on the time of the call. */
  datatype Services<!W> = Services(
    createTask: (Json, W, nat) -> Served<W>,
    deleteTask: (Json, W, nat) -> Effect<W>,
    notify: (Json, Json, W, nat) -> Served<W>,
    cancelNotification: (Json, W, nat) -> Effect<W>,
    audit: (Json, W, nat) -> Served<W>,
    publish: (Json, W, nat) -> Served<W>)

  function Answer<W>(s: Served<W>, result: Context): Attempt<W> {
    match s
    case Ok(w, took) => Returned(result, w, took)
    case Error(w, took) => Raised(w, took)
    case NoAnswer(w) => TimedOut(w)
  }

  /** Python's truth value of a JSON value. */
  predicate Truthy(j: Json) {
    match j
    case JNull => false
    case JBool(b) => b
    case JInt(i) => i != 0
    case JString(s) => s != ""
    case JDate(_) => true
    case JList(items) => items != []
    case JObject(fields) => fields != map[]
  }

  function FieldsOf(j: Json): Context {
    if j.JObject? then j.fields else map[]
  }

  function NewTask(ctx: Context): Json {
    JObject(map["id" := Get(ctx, "task_id", JString("")), "title" := Get(ctx, "title", JString("")),
                "description" := Get(ctx, "description", JString("")), "priority" := Get(ctx, "priority", JString("medium")),
                "status" := JString("backlog"), "assignee_id" := Get(ctx, "assignee_id", JNull),
                "created_by" := Get(ctx, "created_by", JString("system")), "version" := JInt(1)])
  }

  function CreateTask<W>(s: Services<W>): (Context, W, nat) -> Attempt<W> {
    (ctx: Context, w: W, t: nat) => Answer(s.createTask(NewTask(ctx), w, t), map["task" := NewTask(ctx)])
  }

  function DeleteTask<W>(s: Services<W>): (Context, W, nat) -> Effect<W> {
    (ctx: Context, w: W, t: nat) => s.deleteTask(Get(ctx, "task", JObject(map[])), w, t)
  }

  function TitleText(task: Context): string {
    var title := Get(task, "title", JString("Untitled"));
    if title.JString? then title.s else ""
  }

  function Notification(ctx: Context): Json {
    var task := FieldsOf(Get(ctx, "task", JObject(map[])));
    JObject(map["recipient_id" := Get(ctx, "assignee_id", JNull), "type" := JString("task_assigned"),
                "title" := JString("New task assigned: " + TitleText(task)),
                "body" := Get(task, "description", JString("")), "priority" := Get(task, "priority", JString("medium"))])
  }

  function NotifyAssignee<W>(s: Services<W>): (Context, W, nat) -> Attempt<W> {
    (ctx: Context, w: W, t: nat) =>
      var assignee := Get(ctx, "assignee_id", JNull);
      if !Truthy(assignee) then Returned(map["notification_sent" := JBool(false)], w, 0.0)
      else Answer(s.notify(assignee, Notification(ctx), w, t),
                  map["notification_sent" := JBool(true), "notification" := Notification(ctx)])
  }

  function SendCancellation<W>(s: Services<W>): (Context, W, nat) -> Effect<W> {
    (ctx: Context, w: W, t: nat) =>
      var assignee := Get(ctx, "assignee_id", JNull);
      if Truthy(assignee) then s.cancelNotification(assignee, w, t) else Finished(w)
  }

  function AuditEntry(ctx: Context): Json {
    var task := FieldsOf(Get(ctx, "task", JObject(map[])));
    JObject(map["action" := JString("task_created"), "entity_type" := JString("task"),
                "entity_id" := Get(task, "id", JString("")), "user_id" := Get(ctx, "created_by", JString("system")),
                "details" := JObject(map["title" := Get(task, "title", JNull), "priority" := Get(task, "priority", JNull)])])
  }

  function CreateAuditLog<W>(s: Services<W>): (Context, W, nat) -> Attempt<W> {
    (ctx: Context, w: W, t: nat) => Answer(s.audit(AuditEntry(ctx), w, t), map["audit_entry" := AuditEntry(ctx)])
  }

  function CreatedEvent(ctx: Context): Json {
    var task := FieldsOf(Get(ctx, "task", JObject(map[])));
    JObject(map["event_id" := Get(ctx, "saga_instance_id", JString("")), "event_type" := JString("task.created"),
                "aggregate_id" := Get(task, "id", JString("")), "version" := JInt(1),
                "data" := JObject(map["title" := Get(task, "title", JString("")),
                                      "description" := Get(task, "description", JString("")),
                                      "priority" := Get(task, "priority", JString("medium")),
                                      "assignee_id" := Get(task, "assignee_id", JNull),
                                      "created_by" := Get(task, "created_by", JString("system"))])])
  }

  function PublishCreated<W>(s: Services<W>): (Context, W, nat) -> Attempt<W> {
    (ctx: Context, w: W, t: nat) =>
      Answer(s.publish(CreatedEvent(ctx), w, t), map["published_event" := Get(ctx, "saga_instance_id", JString(""))])
  }

  function CreateTaskStep<W>(s: Services<W>): Step<W> {
    Step("create_task", 3, 2.0, 30.0, true, CreateTask(s), Some(DeleteTask(s)))
  }

  function NotifyStep<W>(s: Services<W>): Step<W> {
    Step("notify_assignee", 2, 1.0, 15.0, true, NotifyAssignee(s), Some(SendCancellation(s)))
  }

  function AuditStep<W>(s: Services<W>): Step<W> {
    Step("create_audit_log", 1, 1.0, 10.0, false, CreateAuditLog(s), None)
  }

  function PublishStep<W>(s: Services<W>): Step<W> {
    Step("publish_task_created_event", 3, 1.0, 30.0, false, PublishCreated(s), None)
  }

  /** `TaskOnboardingWorkflow.create`. */
  function Onboarding<W>(s: Services<W>): Saga<W> {
    Saga("task_onboarding", [CreateTaskStep(s), NotifyStep(s), AuditStep(s), PublishStep(s)], None, None)
  }

  const ONBOARDING_KEYS := [
    Keys({"task"}, {"task"}),
    Keys({"notification_sent", "notification"}, {"assignee_id"}),
    Keys({"audit_entry"}, {}),
    Keys({"published_event"}, {})]

  // ---------- what is asked of the services ----------

  /**
   Calls that fail, and the append-only services, are invisible; deletion inverts
   creation and cancellation inverts notification.
   */
  ghost predicate GoodServices<W(!new), V>(s: Services<W>, view: W -> V) {
    && (forall j, w, t :: !s.createTask(j, w, t).Ok? ==> view(s.createTask(j, w, t).world) == view(w))
    && (forall a, n, w, t :: !s.notify(a, n, w, t).Ok? ==> view(s.notify(a, n, w, t).world) == view(w))
    && (forall j, w, t :: view(s.audit(j, w, t).world) == view(w))
    && (forall j, w, t :: view(s.publish(j, w, t).world) == view(w))
    && (forall j, w, t, w2, t2 ::
          s.createTask(j, w, t).Ok? && view(w2) == view(s.createTask(j, w, t).world) && s.deleteTask(j, w2, t2).Finished? ==>
            view(s.deleteTask(j, w2, t2).world) == view(w))
    && (forall a, n, w, t, w2, t2 ::
          s.notify(a, n, w, t).Ok? && view(w2) == view(s.notify(a, n, w, t).world) && s.cancelNotification(a, w2, t2).Finished? ==>
            view(s.cancelNotification(a, w2, t2).world) == view(w))
  }

  // ---------- the key discipline ----------

  lemma CreateIsRestorable<W(!new), V>(s: Services<W>, view: W -> V)
    requires GoodServices(s, view)
    ensures WritesOnly(CreateTaskStep(s), {"task"}) && ReadsOnly(CreateTaskStep(s), {"task"})
    ensures Reversible(CreateTaskStep(s), view)
  {
    hide NewTask;
    var step := CreateTaskStep(s);
    forall a: Context, b: Context, w: W, t: nat | AgreeOn(a, b, {"task"})
      ensures CompensateStep(step, a, w, t) == CompensateStep(step, b, w, t)
    {
      assert "task" in {"task"};
      assert Get(a, "task", JObject(map[])) == Get(b, "task", JObject(map[]));
    }
    forall ctx: Context, w: W, t: nat
      ensures step.action(ctx, w, t) == Answer(s.createTask(NewTask(ctx), w, t), map["task" := NewTask(ctx)])
    {
    }
    forall ctx: Context, w: W, t: nat | step.action(ctx, w, t).Returned?
      ensures Inverts(step, view, ctx, w, t) && step.action(ctx, w, t).result.Keys <= {"task"}
    {
      var a := step.action(ctx, w, t);
      assert a.result == map["task" := NewTask(ctx)] && a.result.Keys == {"task"};
      assert Get(ctx + a.result, "task", JObject(map[])) == NewTask(ctx);
      forall w2: W, t2: nat | view(w2) == view(a.world) && CompensateStep(step, ctx + a.result, w2, t2).Finished?
        ensures view(CompensateStep(step, ctx + a.result, w2, t2).world) == view(w)
      {
        assert CompensateStep(step, ctx + a.result, w2, t2) == s.deleteTask(NewTask(ctx), w2, t2);
      }
    }
  }

  lemma NotifyIsRestorable<W(!new), V>(s: Services<W>, view: W -> V)
    requires GoodServices(s, view)
    ensures WritesOnly(NotifyStep(s), {"notification_sent", "notification"}) && ReadsOnly(NotifyStep(s), {"assignee_id"})
    ensures Reversible(NotifyStep(s), view)
  {
    hide Notification, Truthy;
    var step := NotifyStep(s);
    forall a: Context, b: Context, w: W, t: nat | AgreeOn(a, b, {"assignee_id"})
      ensures CompensateStep(step, a, w, t) == CompensateStep(step, b, w, t)
    {
      assert "assignee_id" in {"assignee_id"};
      assert Get(a, "assignee_id", JNull) == Get(b, "assignee_id", JNull);
    }
    forall ctx: Context, w: W, t: nat ensures NotifyActs(s, ctx, w, t) {
    }
    forall ctx: Context, w: W, t: nat | step.action(ctx, w, t).Returned?
      ensures Inverts(step, view, ctx, w, t) && step.action(ctx, w, t).result.Keys <= {"notification_sent", "notification"}
    {
      var a := step.action(ctx, w, t);
      var assignee := Get(ctx, "assignee_id", JNull);
      assert NotifyActs(s, ctx, w, t);
      assert a.result.Keys <= {"notification_sent", "notification"} && "assignee_id" !in a.result;
      assert Get(ctx + a.result, "assignee_id", JNull) == assignee;
      forall w2: W, t2: nat | view(w2) == view(a.world) && CompensateStep(step, ctx + a.result, w2, t2).Finished?
        ensures view(CompensateStep(step, ctx + a.result, w2, t2).world) == view(w)
      {
        if Truthy(assignee) {
          assert CompensateStep(step, ctx + a.result, w2, t2) == s.cancelNotification(assignee, w2, t2);
        } else {
          assert CompensateStep(step, ctx + a.result, w2, t2) == Finished(w2);
        }
      }
    }
    forall ctx: Context, w: W, t: nat | !step.action(ctx, w, t).Returned?
      ensures view(step.action(ctx, w, t).world) == view(w)
    {
      assert NotifyActs(s, ctx, w, t);
    }
  }

  ghost predicate NotifyActs<W>(s: Services<W>, ctx: Context, w: W, t: nat) {
    var assignee := Get(ctx, "assignee_id", JNull);
    NotifyStep(s).action(ctx, w, t) ==
      if Truthy(assignee) then
        Answer(s.notify(assignee, Notification(ctx), w, t),
               map["notification_sent" := JBool(true), "notification" := Notification(ctx)])
      else
        Returned(map["notification_sent" := JBool(false)], w, 0.0)
  }

  lemma AuditIsRestorable<W(!new), V>(s: Services<W>, view: W -> V)
    requires GoodServices(s, view)
    ensures WritesOnly(AuditStep(s), {"audit_entry"}) && ReadsOnly(AuditStep(s), {}) && Reversible(AuditStep(s), view)
  {
    hide AuditEntry;
    var step := AuditStep(s);
    forall ctx: Context, w: W, t: nat
      ensures view(step.action(ctx, w, t).world) == view(w)
      ensures step.action(ctx, w, t).Returned? ==> step.action(ctx, w, t).result.Keys <= {"audit_entry"}
    {
      assert step.action(ctx, w, t) == Answer(s.audit(AuditEntry(ctx), w, t), map["audit_entry" := AuditEntry(ctx)]);
      assert map["audit_entry" := AuditEntry(ctx)].Keys == {"audit_entry"};
    }
  }

  lemma PublishIsRestorable<W(!new), V>(s: Services<W>, view: W -> V)
    requires GoodServices(s, view)
    ensures WritesOnly(PublishStep(s), {"published_event"}) && ReadsOnly(PublishStep(s), {}) && Reversible(PublishStep(s), view)
  {
    hide CreatedEvent;
    var step := PublishStep(s);
    forall ctx: Context, w: W, t: nat
      ensures view(step.action(ctx, w, t).world) == view(w)
      ensures step.action(ctx, w, t).Returned? ==> step.action(ctx, w, t).result.Keys <= {"published_event"}
    {
      var result: Context := map["published_event" := Get(ctx, "saga_instance_id", JString(""))];
      assert step.action(ctx, w, t) == Answer(s.publish(CreatedEvent(ctx), w, t), result);
      assert result.Keys == {"published_event"};
    }
  }

  // ---------- what the services are told ----------

  /** An assignee is notified, as the recipient, and it is that assignee whose notification a compensation cancels. */
  lemma AssigneeIsNotified<W>(s: Services<W>, ctx: Context, w: W, t: nat, assignee: string)
    requires assignee != "" && "assignee_id" in ctx && ctx["assignee_id"] == JString(assignee)
    ensures var n := Notification(ctx);
      && Field(n, "recipient_id") == JString(assignee)
      && var answer := s.notify(JString(assignee), n, w, t);
         && NotifyStep(s).action(ctx, w, t) ==
              Answer(answer, map["notification_sent" := JBool(true), "notification" := n])
         && (answer.Ok? <==> NotifyStep(s).action(ctx, w, t).Returned?)
         && CompensateStep(NotifyStep(s), ctx, w, t) == s.cancelNotification(JString(assignee), w, t)
  {
    assert "recipient_id"[0] != "type"[0] && "recipient_id"[0] != "title"[0] && "recipient_id"[0] != "body"[0]
        && "recipient_id"[0] != "priority"[0];
  }

  /** Without an assignee nobody is notified, nothing is cancelled, and both go well. */
  lemma NobodyIsNotified<W>(s: Services<W>, ctx: Context, w: W, t: nat)
    requires "assignee_id" !in ctx || ctx["assignee_id"] == JNull || ctx["assignee_id"] == JString("")
    ensures NotifyStep(s).action(ctx, w, t) == Returned(map["notification_sent" := JBool(false)], w, 0.0)
    ensures CompensateStep(NotifyStep(s), ctx, w, t) == Finished(w)
  {
    assert !Truthy(Get(ctx, "assignee_id", JNull)) by {
      hide NotifyStep;
      if "assignee_id" in ctx && ctx["assignee_id"] == JString("") {
        assert !Truthy(JString(""));
      }
    }
    hide Truthy, Notification;
    assert NotifyActs(s, ctx, w, t);
  }

  /** The task in the result of a successful creation. */
  function CreatedTask<W>(a: Attempt<W>): Option<Json> {
    if a.Returned? && "task" in a.result then Some(a.result["task"]) else None
  }

  function Field(j: Json, key: string): Json {
    Get(FieldsOf(j), key, JNull)
  }

  lemma NewTaskReads(ctx: Context, id: string, title: string)
    requires "task_id" in ctx && ctx["task_id"] == JString(id) && "title" in ctx && ctx["title"] == JString(title)
    ensures var o := FieldsOf(NewTask(ctx));
      && "id" in o && o["id"] == JString(id) && "title" in o && o["title"] == JString(title)
      && "status" in o && o["status"] == JString("backlog")
  {
    assert "status"[0] != "title"[0] && "status"[0] != "version"[0] && "title"[0] != "id"[0] && "status"[0] != "id"[0];
    assert "id"[0] != "description"[0] && "id"[0] != "priority"[0] && "id"[0] != "assignee_id"[0]
        && "id"[0] != "created_by"[0] && "id"[0] != "version"[0];
  }

  /** The steps after the creation, in whatever context they run, speak of the task that was created, and so does its deletion. */
  lemma OneTaskThroughout<W>(s: Services<W>, ctx: Context, later: Context, w: W, t: nat, id: string, title: string)
    requires "task_id" in ctx && ctx["task_id"] == JString(id) && "title" in ctx && ctx["title"] == JString(title)
    requires s.createTask(NewTask(ctx), w, t).Ok?
    requires "task" in later && Some(later["task"]) == CreatedTask(CreateTaskStep(s).action(ctx, w, t))
    ensures Field(later["task"], "id") == JString(id) && Field(later["task"], "title") == JString(title)
    ensures Field(later["task"], "status") == JString("backlog")
    ensures Field(AuditEntry(later), "entity_id") == JString(id)
    ensures Field(CreatedEvent(later), "aggregate_id") == JString(id)
    ensures Field(Field(CreatedEvent(later), "data"), "title") == JString(title)
    ensures Field(Notification(later), "title") == JString("New task assigned: " + title)
    ensures CompensateStep(CreateTaskStep(s), later, w, t) == s.deleteTask(NewTask(ctx), w, t)
  {
    assert later["task"] == NewTask(ctx);
    NewTaskReads(ctx, id, title);
    assert "entity_id"[1] != "action"[1] && "entity_id"[0] != "user_id"[0] && "entity_id"[0] != "details"[0];
    assert "entity_id"[7] != "entity_type"[7];
    assert "aggregate_id"[0] != "event_id"[0] && "aggregate_id"[0] != "version"[0] && "aggregate_id"[0] != "data"[0];
    assert "title"[0] != "body"[0] && "title"[0] != "priority"[0] && "title"[1] != "type"[1];
    assert "data"[0] != "version"[0] && "data"[0] != "event_id"[0];
    assert "title"[0] != "description"[0] && "title"[0] != "assignee_id"[0] && "title"[0] != "created_by"[0];
  }

  /**
   No later step, nor the engine, overwrites the `task` that `_delete_task` reads
   or the assignee that the cancellation reads.
   */
  lemma OnboardingKeysKept<W>(s: Services<W>)
    ensures KeysKept(Onboarding(s).steps, ONBOARDING_KEYS)
  {
    assert "task" != "notification_sent" && "task" != "notification" && "task" != "audit_entry" && "task" != "published_event";
    assert "assignee_id"[1] != "audit_entry"[1];
    assert "assignee_id" != "audit_entry" && "assignee_id" != "published_event";
    assert "current_step" != "task" && "current_step" != "assignee_id";
  }

  /**
   Onboarding restores: whatever fails and however often, a run that ends
   COMPENSATED leaves tasks and notifications as they were.
   */
  lemma OnboardingRestores<W(!new), V>(s: Services<W>, view: W -> V, ctx: Context, world: W, clock: nat)
    requires GoodServices(s, view)
    ensures var r := RunSaga(Onboarding(s), ctx, world, clock);
            r.status == Compensated ==> view(r.world) == view(world)
  {
    hide GoodServices, WritesOnly, ReadsOnly, Reversible, RunSaga, KeysKept;
    CreateIsRestorable(s, view);
    NotifyIsRestorable(s, view);
    AuditIsRestorable(s, view);
    PublishIsRestorable(s, view);
    OnboardingKeysKept(s);
    CompensatedRunRestores(Onboarding(s), ONBOARDING_KEYS, view, ctx, world, clock);
  }
}
