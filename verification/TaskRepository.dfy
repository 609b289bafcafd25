/** The repository object: a dictionary of live aggregates in front of the event store. */
module TaskRepositories {
  import opened Wrappers
  import opened TaskEvents
  import opened TaskModel
  import opened EventLog
  import opened TaskAggregates
  import opened EventStores
  import opened TaskListing

  datatype Lookup = Found | NotFound | Raised

  class TaskRepository {
    const store: EventStore
    var cache: map<string, TaskAggregate>

    constructor (store: EventStore)
      ensures this.store == store && cache == map[]
    {
      this.store := store;
      cache := map[];
    }

    /**
     `get_by_id`: a cached object is returned as it is, whatever the store
     holds; otherwise the task is rebuilt, and cached unless it is deleted.
     */
    method GetById(id: string) returns (r: Lookup, task: TaskAggregate?)
      requires store.Valid()
      modifies this
      ensures r == Found <==> task != null
      ensures id in old(cache) ==> r == Found && task == old(cache)[id] && cache == old(cache)
      ensures id !in old(cache) ==>
        var es := EventLog.GetEvents(store.log, id, 0);
        var rebuilt := TaskModel.FromEvents(es);
        && (r == Raised <==> es != [] && rebuilt.None?)
        && (r == Found <==> rebuilt.Some? && !rebuilt.value.task.isDeleted)
        && (r == Found ==> fresh(task) && task.Value() == rebuilt.value && cache == old(cache)[id := task])
        && (r != Found ==> cache == old(cache))
    {
      if id in cache {
        return Found, cache[id];
      }
      var es := store.GetEvents(id, 0);
      if es == [] {
        return NotFound, null;
      }
      task := TaskAggregate.FromEvents(es);
      if task == null {
        return Raised, null;
      }
      if task.isDeleted {
        return NotFound, null;
      }
      cache := cache[id := task];
      r := Found;
    }

    /**
     `save`: stores the unsaved events under the given expected version, or
     the aggregate's own; only a successful save with events touches the cache,
     and the events stay unsaved in the object either way.
     */
    method Save(aggregate: TaskAggregate, expected: Option<int>) returns (r: SaveResult)
      requires store.Valid()
      requires forall i :: 0 <= i < |aggregate.uncommitted| ==> aggregate.uncommitted[i].aggregateId == aggregate.aggregateId
      modifies this, store
      ensures store.Valid()
      ensures var a := aggregate.Value();
              r == SaveOutcome(old(store.log), a.id, a.pending,
                               if expected.Some? then expected.value else a.version - |a.pending|)
      ensures r == Saved ==> store.log == old(store.log) + aggregate.uncommitted
      ensures r != Saved ==> store.log == old(store.log)
      ensures cache == if r == Saved && aggregate.uncommitted != []
                       then old(cache)[aggregate.aggregateId := aggregate] else old(cache)
    {
      var events := aggregate.uncommitted;
      if events == [] {
        return Saved;
      }
      var expectedVersion := if expected.Some? then expected.value else aggregate.version - |events|;
      r := store.SaveEvents(aggregate.aggregateId, events, expectedVersion);
      if r == Saved {
        cache := cache[aggregate.aggregateId := aggregate];
      }
    }

    /** Forgets one entry, or all of them when no id (or an empty one) is given. */
    method InvalidateCache(id: Option<string>)
      modifies this
      ensures cache == if id.None? || id.value == "" then map[] else old(cache) - {id.value}
    {
      if id.Some? && id.value != "" {
        cache := cache - {id.value};
      } else {
        cache := map[];
      }
    }

    /** `list_tasks`: the first `limit` matching tasks among the aggregates met in the scan. */
    method ListTasks(status: Option<string>, assignee: Option<string>, limit: nat, offset: nat) returns (tasks: seq<Agg>)
      requires store.Valid()
      ensures var scan := store.Scan(offset, limit * 10);
              tasks == Take(Listed(scan, FirstSeen(scan), status, assignee), limit)
      ensures offset == 0 && limit * 10 >= |store.log| ==>
        tasks == Take(Listed(store.log, FirstSeen(store.log), status, assignee), limit)
      ensures |tasks| <= limit
      ensures forall i :: 0 <= i < |tasks| ==>
        && !tasks[i].task.isDeleted
        && (status.Some? && status.value != "" ==> tasks[i].task.status.Text() == status.value)
        && (assignee.Some? && assignee.value != "" ==> tasks[i].task.assigneeId == Some(assignee.value))
      ensures InFirstEventOrder(store.Scan(offset, limit * 10), tasks)
      ensures offset == 0 && limit * 10 >= |store.log| && |tasks| < limit ==> ListsAll(store.log, status, assignee, tasks)
    {
      hide Listed, FirstSeen, Matches, FirstAt, InFirstEventOrder, ListsAll, Take, EventStore.Valid, EventStore.Scan;
      var all := store.GetAllEvents(offset, limit * 10);
      var order, groups := GroupByAggregate(all);
      tasks := ListGroups(all, order, groups, status, assignee, limit);
      ListedIsAsked(all, status, assignee, limit, tasks);
    }

    /** Folds and filters one group after the other, stopping at `limit` tasks. */
    method ListGroups(ghost all: seq<Event>, order: seq<string>, groups: map<string, seq<Event>>,
                      status: Option<string>, assignee: Option<string>, limit: nat) returns (tasks: seq<Agg>)
      requires forall i :: 0 <= i < |order| ==> order[i] in groups && groups[order[i]] == EventsOf(all, order[i])
      ensures tasks == Take(Listed(all, order, status, assignee), limit)
    {
      hide Matches, TaskModel.FromEvents, EventsOf;
      tasks := [];
      var i := 0;
      while i < |order| && |tasks| < limit
        invariant 0 <= i <= |order|
        invariant tasks == Listed(all, order[..i], status, assignee)
        invariant |tasks| <= limit
      {
        assert order[..i + 1][..i] == order[..i] && order[..i + 1][i] == order[i];
        var task := TaskModel.FromEvents(groups[order[i]]);
        if task.Some? && Matches(task.value, status, assignee) {
          tasks := tasks + [task.value];
        }
        i := i + 1;
      }
      assert order[..|order|] == order;
      ListedGrows(all, order, i, status, assignee);
    }

    method GroupByAggregate(all: seq<Event>) returns (order: seq<string>, groups: map<string, seq<Event>>)
      ensures order == FirstSeen(all)
      ensures forall i :: 0 <= i < |order| ==> order[i] in groups && groups[order[i]] == EventsOf(all, order[i])
    {
      order, groups := [], map[];
      for i := 0 to |all|
        invariant order == FirstSeen(all[..i])
        invariant forall id :: id in groups <==> id in order
        invariant forall id :: id in groups ==> groups[id] == EventsOf(all[..i], id)
      {
        var e := all[i];
        assert all[..i + 1] == all[..i] + [e];
        assert all[..i + 1][..i] == all[..i] && all[..i + 1][i] == e;
        FirstSeenMembers(all[..i], e.aggregateId);
        forall id ensures EventsOf(all[..i + 1], id) == EventsOf(all[..i], id) + (if e.aggregateId == id then [e] else []) {
          EventsOfSnoc(all[..i], e, id);
        }
        if e.aggregateId !in groups {
          order := order + [e.aggregateId];
          groups := groups[e.aggregateId := []];
        }
        groups := groups[e.aggregateId := groups[e.aggregateId] + [e]];
      }
      assert all[..|all|] == all;
    }
  }

  lemma {:induction false} ListedGrows(es: seq<Event>, ids: seq<string>, i: nat, status: Option<string>, assignee: Option<string>)
    requires i <= |ids|
    ensures Listed(es, ids[..i], status, assignee) <= Listed(es, ids, status, assignee)
  {
    hide Matches, TaskModel.FromEvents, EventsOf;
    if i == |ids| {
      assert ids[..i] == ids;
    } else {
      ListedGrows(es, ids[..|ids| - 1], i, status, assignee);
      assert ids[..|ids| - 1][..i] == ids[..i];
    }
  }
}
