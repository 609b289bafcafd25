/** What `list_tasks` computes: the scanned events grouped by aggregate, each group folded, filtered and cut off. */
module TaskListing {
  import opened Wrappers
  import opened TaskEvents
  import opened TaskModel
  import opened EventOrder
  import opened EventLog

  /** The aggregates in the order of their first events. */
  function FirstSeen(es: seq<Event>): seq<string> {
    if es == [] then []
    else
      var ids := FirstSeen(es[..|es| - 1]);
      var id := es[|es| - 1].aggregateId;
      if id in ids then ids else ids + [id]
  }

  /** An absent or empty filter matches everything. */
  predicate Matches(a: Agg, status: Option<string>, assignee: Option<string>) {
    && !a.task.isDeleted
    && (status.None? || status.value == "" || a.task.status.Text() == status.value)
    && (assignee.None? || assignee.value == "" || a.task.assigneeId == assignee)
  }

  /** The matching tasks among `ids`; a group that cannot be rebuilt is skipped. */
  function Listed(es: seq<Event>, ids: seq<string>, status: Option<string>, assignee: Option<string>): seq<Agg> {
    if ids == [] then []
    else
      var before := Listed(es, ids[..|ids| - 1], status, assignee);
      match FromEvents(EventsOf(es, ids[|ids| - 1]))
      case None => before
      case Some(a) => if Matches(a, status, assignee) then before + [a] else before
  }

  function Take<T>(s: seq<T>, n: nat): (r: seq<T>)
    ensures r <= s && |r| == (if n <= |s| then n else |s|)
  {
    if n <= |s| then s[..n] else s
  }

  /** The same list, each task rebuilt by its own `get_events` instead of from the scan. */
  function ListedFromStore(rows: seq<Event>, ids: seq<string>, status: Option<string>, assignee: Option<string>): seq<Agg> {
    if ids == [] then []
    else
      var before := ListedFromStore(rows, ids[..|ids| - 1], status, assignee);
      match FromEvents(GetEvents(rows, ids[|ids| - 1], 0))
      case None => before
      case Some(a) => if Matches(a, status, assignee) then before + [a] else before
  }

  lemma {:induction false} FirstSeenMembers(es: seq<Event>, id: string)
    ensures id in FirstSeen(es) <==> EventsOf(es, id) != []
  {
    if es != [] {
      FirstSeenMembers(es[..|es| - 1], id);
    }
  }

  /** Every aggregate with events is listed once. */
  lemma {:induction false} FirstSeenDistinct(es: seq<Event>)
    ensures forall i, j :: 0 <= i < j < |FirstSeen(es)| ==> FirstSeen(es)[i] != FirstSeen(es)[j]
  {
    if es != [] {
      FirstSeenDistinct(es[..|es| - 1]);
    }
  }

  lemma {:induction false} AllAfter(es: seq<Event>, version: int)
    requires forall i :: 0 <= i < |es| ==> es[i].version > version
    ensures After(es, version) == es
  {
    if es != [] {
      AllAfter(es[..|es| - 1], version);
    }
  }

  /** One group of a full scan rebuilds to the same aggregate as the task's own sorted query. */
  lemma GroupIsOwnReplay(rows: seq<Event>, id: string)
    requires UniqueRows(rows) && forall i :: 0 <= i < |rows| ==> rows[i].version > 0
    ensures FromEvents(EventsOf(rows, id)) == FromEvents(GetEvents(rows, id, 0))
  {
    hide Replay;
    var es := EventsOf(rows, id);
    forall i | 0 <= i < |es| ensures es[i].version > 0 && es[i].aggregateId == id {
      EventsOfMembers(rows, id, es[i]);
    }
    AllAfter(es, 0);
    EventsOfUnique(rows, id);
    SortSorts(es);
    FromEventsIgnoresOrder(es, SortByVersion(es), id);
  }

  /**
   A scan of the whole table lists exactly what rebuilding every task by its own
   query lists, in first-event order.
   */
  lemma {:induction false} FullScanIsPerTaskReplay(rows: seq<Event>, ids: seq<string>,
                                                   status: Option<string>, assignee: Option<string>)
    requires UniqueRows(rows) && forall i :: 0 <= i < |rows| ==> rows[i].version > 0
    ensures Listed(rows, ids, status, assignee) == ListedFromStore(rows, ids, status, assignee)
  {
    hide UniqueRows, FromEvents, Matches;
    if ids != [] {
      FullScanIsPerTaskReplay(rows, ids[..|ids| - 1], status, assignee);
      GroupIsOwnReplay(rows, ids[|ids| - 1]);
    }
  }

  /**
   What is in the list: the tasks rebuilt from one of the groups that are not
   deleted, have the status asked for, if one is, and the assignee asked for, if
   one is; and every such task.
   */
  lemma {:induction false} ListedExactly(es: seq<Event>, ids: seq<string>, status: Option<string>, assignee: Option<string>, a: Agg)
    ensures a in Listed(es, ids, status, assignee) <==>
      && !a.task.isDeleted
      && (status.Some? && status.value != "" ==> a.task.status.Text() == status.value)
      && (assignee.Some? && assignee.value != "" ==> a.task.assigneeId == Some(assignee.value))
      && exists id :: id in ids && FromEvents(EventsOf(es, id)) == Some(a)
  {
    hide FromEvents, EventsOf;
    if ids != [] {
      ListedExactly(es, ids[..|ids| - 1], status, assignee, a);
      var before, last := ids[..|ids| - 1], ids[|ids| - 1];
      assert ids == before + [last];
      assert forall id :: id in ids <==> id in before || id == last;
      var listed := Listed(es, before, status, assignee);
      assert forall b :: a in listed + [b] <==> a in listed || a == b;
      if FromEvents(EventsOf(es, last)) == Some(a) {
        assert last in ids;
      }
    }
  }

  // ---------- the order of the list ----------

  /** The first event of task `id` is number `p`. */
  predicate FirstAt(es: seq<Event>, id: string, p: nat) {
    p < |es| && es[p].aggregateId == id && forall q :: 0 <= q < p ==> es[q].aggregateId != id
  }

  /** The groups come in the order of their first events. */
  lemma {:induction false} FirstSeenInOrder(es: seq<Event>, i: nat, j: nat, p: nat, q: nat)
    requires i < j < |FirstSeen(es)|
    requires FirstAt(es, FirstSeen(es)[i], p) && FirstAt(es, FirstSeen(es)[j], q)
    ensures p < q
  {
    hide EventsOf;
    var before, n := es[..|es| - 1], |es| - 1;
    var ids := FirstSeen(before);
    FirstSeenIsThere(before, i);
    assert p < n && FirstAt(before, ids[i], p);
    if j < |ids| {
      FirstSeenIsThere(before, j);
      assert q < n && FirstAt(before, ids[j], q);
      FirstSeenInOrder(before, i, j, p, q);
    } else {
      assert es[n].aggregateId !in ids;
      if q < n {
        FirstSeenHasAll(before, q);
        assert false;
      }
    }
  }

  /** Each listed group has an event. */
  lemma {:induction false} FirstSeenIsThere(es: seq<Event>, i: nat)
    requires i < |FirstSeen(es)|
    ensures exists p: nat :: p < |es| && es[p].aggregateId == FirstSeen(es)[i]
  {
    var before := es[..|es| - 1];
    if i < |FirstSeen(before)| {
      FirstSeenIsThere(before, i);
      var p: nat :| p < |before| && before[p].aggregateId == FirstSeen(before)[i];
      assert es[p] == before[p];
    } else {
      assert es[|es| - 1].aggregateId == FirstSeen(es)[i];
    }
  }

  lemma {:induction false} FirstSeenHasAll(es: seq<Event>, p: nat)
    requires p < |es|
    ensures es[p].aggregateId in FirstSeen(es)
  {
    var before := es[..|es| - 1];
    if p < |before| {
      FirstSeenHasAll(before, p);
      assert es[p] == before[p];
    }
  }

  lemma GroupHasId(es: seq<Event>, id: string)
    requires FromEvents(EventsOf(es, id)).Some?
    ensures FromEvents(EventsOf(es, id)).value.id == id
  {
    hide Replay, SortByVersion, EventsOf;
    EventsOfMembers(es, id, EventsOf(es, id)[0]);
  }

  lemma {:induction false} ListedFrom(es: seq<Event>, ids: seq<string>, status: Option<string>, assignee: Option<string>, i: nat)
    returns (x: nat)
    requires i < |Listed(es, ids, status, assignee)|
    ensures x < |ids| && Listed(es, ids, status, assignee)[i].id == ids[x]
  {
    hide FromEvents, EventsOf, Matches;
    var before := ids[..|ids| - 1];
    if i < |Listed(es, before, status, assignee)| {
      x := ListedFrom(es, before, status, assignee, i);
    } else {
      x := |ids| - 1;
      GroupHasId(es, ids[x]);
    }
  }

  lemma {:induction false} ListedInOrder(es: seq<Event>, ids: seq<string>, status: Option<string>, assignee: Option<string>,
                                         i: nat, j: nat) returns (x: nat, y: nat)
    requires i < j < |Listed(es, ids, status, assignee)|
    ensures x < y < |ids|
    ensures Listed(es, ids, status, assignee)[i].id == ids[x] && Listed(es, ids, status, assignee)[j].id == ids[y]
  {
    hide FromEvents, EventsOf, Matches;
    var before := ids[..|ids| - 1];
    if j < |Listed(es, before, status, assignee)| {
      x, y := ListedInOrder(es, before, status, assignee, i, j);
    } else {
      x := ListedFrom(es, before, status, assignee, i);
      y := |ids| - 1;
      GroupHasId(es, ids[y]);
    }
  }

  /** Of two listed tasks, the one listed first has the earlier first event. */
  lemma ListFollowsFirstEvents(es: seq<Event>, status: Option<string>, assignee: Option<string>, i: nat, j: nat, p: nat, q: nat)
    requires var tasks := Listed(es, FirstSeen(es), status, assignee);
      i < j < |tasks| && FirstAt(es, tasks[i].id, p) && FirstAt(es, tasks[j].id, q)
    ensures p < q
  {
    hide Listed, FirstSeen;
    var x, y := ListedInOrder(es, FirstSeen(es), status, assignee, i, j);
    FirstSeenInOrder(es, x, y, p, q);
  }

  /** Every task of the log that is not deleted and has the status and the assignee asked for is among `tasks`. */
  ghost predicate ListsAll(es: seq<Event>, status: Option<string>, assignee: Option<string>, tasks: seq<Agg>) {
    forall id, a ::
      && FromEvents(EventsOf(es, id)) == Some(a)
      && !a.task.isDeleted
      && (status.Some? && status.value != "" ==> a.task.status.Text() == status.value)
      && (assignee.Some? && assignee.value != "" ==> a.task.assigneeId == Some(assignee.value))
      ==> a in tasks
  }

  lemma AllAreListed(es: seq<Event>, status: Option<string>, assignee: Option<string>)
    ensures ListsAll(es, status, assignee, Listed(es, FirstSeen(es), status, assignee))
  {
    hide EventsOf, Listed, FirstSeen;
    forall id, a |
      && FromEvents(EventsOf(es, id)) == Some(a)
      && !a.task.isDeleted
      && (status.Some? && status.value != "" ==> a.task.status.Text() == status.value)
      && (assignee.Some? && assignee.value != "" ==> a.task.assigneeId == Some(assignee.value))
      ensures a in Listed(es, FirstSeen(es), status, assignee)
    {
      FirstSeenMembers(es, id);
      ListedExactly(es, FirstSeen(es), status, assignee, a);
    }
  }

  /** Of two tasks, the one that comes first has the earlier first event. */
  ghost predicate InFirstEventOrder(es: seq<Event>, tasks: seq<Agg>) {
    forall i: nat, j: nat, p: nat, q: nat ::
      i < j < |tasks| && FirstAt(es, tasks[i].id, p) && FirstAt(es, tasks[j].id, q) ==> p < q
  }

  /** What a listing cut off at `limit` holds. */
  lemma ListedIsAsked(es: seq<Event>, status: Option<string>, assignee: Option<string>, limit: nat, tasks: seq<Agg>)
    requires tasks == Take(Listed(es, FirstSeen(es), status, assignee), limit)
    ensures |tasks| <= limit
    ensures forall i :: 0 <= i < |tasks| ==>
      && !tasks[i].task.isDeleted
      && (status.Some? && status.value != "" ==> tasks[i].task.status.Text() == status.value)
      && (assignee.Some? && assignee.value != "" ==> tasks[i].task.assigneeId == Some(assignee.value))
    ensures InFirstEventOrder(es, tasks)
    ensures |tasks| < limit ==> ListsAll(es, status, assignee, tasks)
  {
    hide Listed, FirstSeen, FirstAt, ListsAll;
    var listed := Listed(es, FirstSeen(es), status, assignee);
    forall i | 0 <= i < |tasks|
      ensures !tasks[i].task.isDeleted
      ensures status.Some? && status.value != "" ==> tasks[i].task.status.Text() == status.value
      ensures assignee.Some? && assignee.value != "" ==> tasks[i].task.assigneeId == Some(assignee.value)
    {
      assert tasks[i] == listed[i];
      ListedExactly(es, FirstSeen(es), status, assignee, tasks[i]);
    }
    forall i: nat, j: nat, p: nat, q: nat | i < j < |tasks| && FirstAt(es, tasks[i].id, p) && FirstAt(es, tasks[j].id, q)
      ensures p < q
    {
      assert tasks[i] == listed[i] && tasks[j] == listed[j];
      ListFollowsFirstEvents(es, status, assignee, i, j, p, q);
    }
    if |tasks| < limit {
      AllAreListed(es, status, assignee);
    }
  }
}
