/**
 The six domain events of a task and their JSON form: what `to_dict` writes
 and what the registered classes' `from_dict` read back.
 */
module TaskEvents {
  import opened Wrappers
  import opened ValueObjects

  /** One entry of an update event's `field_changes`. */
  datatype Change<T> = Change(before: T, after: T)

  datatype FieldChanges = FieldChanges(
    title: Option<Change<string>>,
    description: Option<Change<string>>,
    status: Option<Change<string>>,
    priority: Option<Change<string>>,
    labels: Option<Change<seq<string>>>)

  const NO_CHANGES := FieldChanges(None, None, None, None, None)

  datatype Payload =
    | TaskCreated(title: string, description: string, priority: string, assigneeId: Option<string>,
                  createdBy: string, labels: seq<string>, dueDate: Option<DateTime>)
    | TaskUpdated(changes: FieldChanges, updatedBy: string)
    | TaskAssigned(previousAssigneeId: Option<string>, newAssigneeId: string, assignedBy: string)
    | TaskStatusChanged(previousStatus: string, newStatus: string, statusChangedBy: string, statusReason: Option<string>)
    | TaskPriorityChanged(previousPriority: string, newPriority: string, priorityChangedBy: string)
    | TaskDeleted(deletedBy: string, deleteReason: Option<string>)

  datatype Event = Event(eventId: string, aggregateId: string, version: int, payload: Payload)

  // ---------- JSON ----------

  /** JSON values; a date stands for its ISO text. */
  datatype Json =
    | JNull
    | JBool(b: bool)
    | JInt(i: int)
    | JString(s: string)
    | JDate(d: DateTime)
    | JList(items: seq<Json>)
    | JObject(fields: map<string, Json>)

  /** Python's `dict.get(key, default)`. */
  function Get(o: map<string, Json>, key: string, default: Json): Json {
    if key in o then o[key] else default
  }

  function TextOf(j: Json): Option<string> {
    if j.JString? then Some(j.s) else None
  }

  function IntOf(j: Json): Option<int> {
    if j.JInt? then Some(j.i) else None
  }

  function ObjectOf(j: Json): Option<map<string, Json>> {
    if j.JObject? then Some(j.fields) else None
  }

  function OptText(o: Option<string>): Json {
    if o.Some? then JString(o.value) else JNull
  }

  function OptTextOf(j: Json): Option<Option<string>> {
    if j.JNull? then Some(None) else if j.JString? then Some(Some(j.s)) else None
  }

  function OptDate(o: Option<DateTime>): Json {
    if o.Some? then JDate(o.value) else JNull
  }

  function OptDateOf(j: Json): Option<Option<DateTime>> {
    if j.JNull? then Some(None) else if j.JDate? then Some(Some(j.d)) else None
  }

  function Texts(ss: seq<string>): Json {
    JList(seq(|ss|, i requires 0 <= i < |ss| => JString(ss[i])))
  }

  function TextsOf(j: Json): (r: Option<seq<string>>)
    ensures forall ss :: j == Texts(ss) ==> r == Some(ss)
  {
    if j.JList? && forall i :: 0 <= i < |j.items| ==> j.items[i].JString? then
      var r := seq(|j.items|, i requires 0 <= i < |j.items| => j.items[i].s);
      assert forall ss :: j == Texts(ss) ==> ss == r by {
        forall ss | j == Texts(ss) ensures ss == r {
          assert |ss| == |j.items|;
          assert forall i :: 0 <= i < |ss| ==> j.items[i] == JString(ss[i]);
        }
      }
      Some(r)
    else
      None
  }

  // ---------- field changes ----------

  function ChangeJson(before: Json, after: Json): Json {
    JObject(map["old" := before, "new" := after])
  }

  function TextEntry(c: Option<Change<string>>): Option<Json> {
    if c.Some? then Some(ChangeJson(JString(c.value.before), JString(c.value.after))) else None
  }

  function TextsEntry(c: Option<Change<seq<string>>>): Option<Json> {
    if c.Some? then Some(ChangeJson(Texts(c.value.before), Texts(c.value.after))) else None
  }

  function Put(o: map<string, Json>, key: string, v: Option<Json>): map<string, Json> {
    if v.Some? then o[key := v.value] else o
  }

  function Lookup(o: map<string, Json>, key: string): Option<Json> {
    if key in o then Some(o[key]) else None
  }

  function Record(keys: seq<string>, vs: seq<Option<Json>>): (o: map<string, Json>)
    requires |keys| == |vs|
    requires forall i, j :: 0 <= i < j < |keys| ==> keys[i] != keys[j]
    ensures forall i :: 0 <= i < |keys| ==> Lookup(o, keys[i]) == vs[i]
    ensures forall k :: k in o ==> k in keys
  {
    if keys == [] then map[]
    else Put(Record(keys[1..], vs[1..]), keys[0], vs[0])
  }

  const CHANGE_KEYS := ["title", "description", "status", "priority", "labels"]

  lemma ChangeKeysDistinct()
    ensures forall i, j :: 0 <= i < j < |CHANGE_KEYS| ==> CHANGE_KEYS[i] != CHANGE_KEYS[j]
  {
    assert "status"[0] != "labels"[0];
  }

  function ChangesJson(c: FieldChanges): Json {
    ChangeKeysDistinct();
    JObject(Record(CHANGE_KEYS, [TextEntry(c.title), TextEntry(c.description), TextEntry(c.status),
                                 TextEntry(c.priority), TextsEntry(c.labels)]))
  }

  function TextChangeOf(o: map<string, Json>, key: string): Option<Option<Change<string>>> {
    if key !in o then Some(None) else
    var c :- ObjectOf(o[key]);
    var before :- TextOf(Get(c, "old", JNull));
    var after :- TextOf(Get(c, "new", JNull));
    Some(Some(Change(before, after)))
  }

  function TextsChangeOf(o: map<string, Json>, key: string): Option<Option<Change<seq<string>>>> {
    if key !in o then Some(None) else
    var c :- ObjectOf(o[key]);
    var before :- TextsOf(Get(c, "old", JNull));
    var after :- TextsOf(Get(c, "new", JNull));
    Some(Some(Change(before, after)))
  }

  function ChangesOf(j: Json): Option<FieldChanges> {
    var o :- ObjectOf(j);
    var title :- TextChangeOf(o, "title");
    var description :- TextChangeOf(o, "description");
    var status :- TextChangeOf(o, "status");
    var priority :- TextChangeOf(o, "priority");
    var labels :- TextsChangeOf(o, "labels");
    Some(FieldChanges(title, description, status, priority, labels))
  }

  lemma TextChangeRead(o: map<string, Json>, key: string, c: Option<Change<string>>)
    requires Lookup(o, key) == TextEntry(c)
    ensures TextChangeOf(o, key) == Some(c)
  {
    assert "old"[0] != "new"[0];
  }

  lemma TextsChangeRead(o: map<string, Json>, key: string, c: Option<Change<seq<string>>>)
    requires Lookup(o, key) == TextsEntry(c)
    ensures TextsChangeOf(o, key) == Some(c)
  {
    assert "old"[0] != "new"[0];
    if c.Some? {
      var f := o[key].fields;
      assert f["old"] == Texts(c.value.before) && f["new"] == Texts(c.value.after);
    }
  }

  lemma ChangesRoundTrip(c: FieldChanges)
    ensures ChangesOf(ChangesJson(c)) == Some(c)
  {
    hide TextEntry, TextsEntry;
    var o := ChangesJson(c).fields;
    var vs := [TextEntry(c.title), TextEntry(c.description), TextEntry(c.status),
               TextEntry(c.priority), TextsEntry(c.labels)];
    ChangeKeysDistinct();
    assert o == Record(CHANGE_KEYS, vs);
    assert forall i :: 0 <= i < 5 ==> Lookup(o, CHANGE_KEYS[i]) == vs[i];
    TextChangeRead(o, CHANGE_KEYS[0], c.title);
    TextChangeRead(o, CHANGE_KEYS[1], c.description);
    TextChangeRead(o, CHANGE_KEYS[2], c.status);
    TextChangeRead(o, CHANGE_KEYS[3], c.priority);
    TextsChangeRead(o, CHANGE_KEYS[4], c.labels);
  }

  // ---------- events ----------

  function EventType(p: Payload): string {
    match p
    case TaskCreated(_, _, _, _, _, _, _) => "task.created"
    case TaskUpdated(_, _) => "task.updated"
    case TaskAssigned(_, _, _) => "task.assigned"
    case TaskStatusChanged(_, _, _, _) => "task.status_changed"
    case TaskPriorityChanged(_, _, _) => "task.priority_changed"
    case TaskDeleted(_, _) => "task.deleted"
  }

  function SerializeData(p: Payload): map<string, Json> {
    match p
    case TaskCreated(title, description, priority, assigneeId, createdBy, labels, dueDate) =>
      map["title" := JString(title), "description" := JString(description), "priority" := JString(priority),
          "assignee_id" := OptText(assigneeId), "created_by" := JString(createdBy),
          "labels" := Texts(labels), "due_date" := OptDate(dueDate)]
    case TaskUpdated(changes, updatedBy) =>
      map["field_changes" := ChangesJson(changes), "updated_by" := JString(updatedBy)]
    case TaskAssigned(previous, next, assignedBy) =>
      map["previous_assignee_id" := OptText(previous), "new_assignee_id" := JString(next),
          "assigned_by" := JString(assignedBy)]
    case TaskStatusChanged(previous, next, changedBy, reason) =>
      map["previous_status" := JString(previous), "new_status" := JString(next),
          "changed_by" := JString(changedBy), "reason" := OptText(reason)]
    case TaskPriorityChanged(previous, next, changedBy) =>
      map["previous_priority" := JString(previous), "new_priority" := JString(next),
          "changed_by" := JString(changedBy)]
    case TaskDeleted(deletedBy, reason) =>
      map["deleted_by" := JString(deletedBy), "reason" := OptText(reason)]
  }

  function ToDict(e: Event): map<string, Json> {
    map["event_id" := JString(e.eventId), "aggregate_id" := JString(e.aggregateId),
        "event_type" := JString(EventType(e.payload)), "version" := JInt(e.version),
        "data" := JObject(SerializeData(e.payload))]
  }

  /** The `data` part read by the class registered for `eventType`; `None` for an unregistered type or unusable data. */
  function PayloadOf(eventType: string, d: map<string, Json>): Option<Payload> {
    if eventType == "task.created" then
      var title :- TextOf(Get(d, "title", JString("")));
      var description :- TextOf(Get(d, "description", JString("")));
      var priority :- TextOf(Get(d, "priority", JString("medium")));
      var assigneeId :- OptTextOf(Get(d, "assignee_id", JNull));
      var createdBy :- TextOf(Get(d, "created_by", JString("")));
      var labels :- TextsOf(Get(d, "labels", JList([])));
      var dueDate :- OptDateOf(Get(d, "due_date", JNull));
      Some(TaskCreated(title, description, priority, assigneeId, createdBy, labels, dueDate))
    else if eventType == "task.updated" then
      var changes :- ChangesOf(Get(d, "field_changes", JObject(map[])));
      var updatedBy :- TextOf(Get(d, "updated_by", JString("")));
      Some(TaskUpdated(changes, updatedBy))
    else if eventType == "task.assigned" then
      var previous :- OptTextOf(Get(d, "previous_assignee_id", JNull));
      var next :- TextOf(Get(d, "new_assignee_id", JString("")));
      var assignedBy :- TextOf(Get(d, "assigned_by", JString("")));
      Some(TaskAssigned(previous, next, assignedBy))
    else if eventType == "task.status_changed" then
      var previous :- TextOf(Get(d, "previous_status", JString("")));
      var next :- TextOf(Get(d, "new_status", JString("")));
      var changedBy :- TextOf(Get(d, "changed_by", JString("")));
      var reason :- OptTextOf(Get(d, "reason", JNull));
      Some(TaskStatusChanged(previous, next, changedBy, reason))
    else if eventType == "task.priority_changed" then
      var previous :- TextOf(Get(d, "previous_priority", JString("")));
      var next :- TextOf(Get(d, "new_priority", JString("")));
      var changedBy :- TextOf(Get(d, "changed_by", JString("")));
      Some(TaskPriorityChanged(previous, next, changedBy))
    else if eventType == "task.deleted" then
      var deletedBy :- TextOf(Get(d, "deleted_by", JString("")));
      var reason :- OptTextOf(Get(d, "reason", JNull));
      Some(TaskDeleted(deletedBy, reason))
    else
      None
  }

  function FromDict(eventType: string, d: map<string, Json>): Option<Event> {
    var data :- ObjectOf(Get(d, "data", JObject(map[])));
    var eventId :- TextOf(Get(d, "event_id", JString("")));
    var aggregateId :- TextOf(Get(d, "aggregate_id", JString("")));
    var version :- IntOf(Get(d, "version", JInt(0)));
    var payload :- PayloadOf(eventType, data);
    Some(Event(eventId, aggregateId, version, payload))
  }

  lemma EventTypesDistinct()
    ensures "task.created" != "task.updated" && "task.created" != "task.deleted" && "task.updated" != "task.deleted"
  {
    assert "task.created"[5] != "task.updated"[5];
    assert "task.created"[5] != "task.deleted"[5];
    assert "task.updated"[5] != "task.deleted"[5];
  }

  lemma CreatedRoundTrip(p: Payload)
    requires p.TaskCreated?
    ensures PayloadOf("task.created", SerializeData(p)) == Some(p)
  {
    var d := SerializeData(p);
    assert "description"[0] != "assignee_id"[0];
    assert "priority"[0] != "due_date"[0];
    assert d["labels"] == Texts(p.labels);
    assert TextsOf(d["labels"]) == Some(p.labels);
  }

  lemma PayloadRoundTrip(p: Payload)
    ensures PayloadOf(EventType(p), SerializeData(p)) == Some(p)
  {
    hide ChangesJson, ChangesOf;
    EventTypesDistinct();
    match p
    case TaskCreated(_, _, _, _, _, _, _) =>
      CreatedRoundTrip(p);
    case TaskUpdated(changes, _) =>
      ChangesRoundTrip(changes);
    case TaskAssigned(_, _, _) =>
    case TaskStatusChanged(_, _, _, _) =>
      assert "new_status"[0] != "changed_by"[0];
    case TaskPriorityChanged(_, _, _) =>
    case TaskDeleted(_, _) =>
  }

  /** Writing an event and reading it back through the registry loses nothing. */
  lemma EventRoundTrip(e: Event)
    ensures FromDict(EventType(e.payload), ToDict(e)) == Some(e)
  {
    PayloadRoundTrip(e.payload);
  }

  /** The stored dictionary names the event and its place in its log. */
  lemma DictSays(e: Event)
    ensures var d := ToDict(e);
      && d.Keys == {"event_id", "aggregate_id", "event_type", "version", "data"}
      && d["event_id"] == JString(e.eventId) && d["aggregate_id"] == JString(e.aggregateId)
      && d["event_type"] == JString(EventType(e.payload)) && d["version"] == JInt(e.version)
      && d["data"] == JObject(SerializeData(e.payload))
  {
    assert "event_id"[6] != "event_type"[6] && "version"[0] != "data"[0];
    assert "aggregate_id"[0] != "event_id"[0];
  }

  /** What each class reads from data without any of its keys; a type that is not registered reads nothing. */
  lemma MissingKeys(eventType: string)
    ensures PayloadOf("task.created", map[]) == Some(TaskCreated("", "", "medium", None, "", [], None))
    ensures PayloadOf("task.updated", map[]) == Some(TaskUpdated(NO_CHANGES, ""))
    ensures PayloadOf("task.assigned", map[]) == Some(TaskAssigned(None, "", ""))
    ensures PayloadOf("task.status_changed", map[]) == Some(TaskStatusChanged("", "", "", None))
    ensures PayloadOf("task.priority_changed", map[]) == Some(TaskPriorityChanged("", "", ""))
    ensures PayloadOf("task.deleted", map[]) == Some(TaskDeleted("", None))
    ensures eventType !in {"task.created", "task.updated", "task.assigned",
                           "task.status_changed", "task.priority_changed", "task.deleted"} ==>
      forall d :: PayloadOf(eventType, d) == None
  {
    EventTypesDistinct();
  }
}
