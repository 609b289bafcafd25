/**
 The event store as an object: a growing table of serialized rows under two
 unique indexes. `log` is what the rows mean, event by event.
 */
module EventStores {
  import opened Wrappers
  import opened TaskEvents
  import opened TaskModel
  import opened EventLog

  datatype Row = Row(id: nat, eventId: string, aggregateId: string, eventType: string, version: int,
                     data: map<string, Json>)

  function RowOf(id: nat, e: Event): Row {
    Row(id, e.eventId, e.aggregateId, EventType(e.payload), e.version, ToDict(e))
  }

  datatype SaveResult = Saved | VersionConflict | UniqueViolation

  /** The result of `save_events` on a table holding `log`. */
  function SaveOutcome(log: seq<Event>, aggregateId: string, events: seq<Event>, expected: int): SaveResult {
    if events == [] then Saved
    else if CurrentVersion(log, aggregateId) != expected then VersionConflict
    else if BatchFits(log, events) then Saved
    else UniqueViolation
  }

  lemma FitsExtends(log: seq<Event>, events: seq<Event>, i: nat)
    requires i < |events|
    ensures BatchFits(log, events[..i + 1]) <==> BatchFits(log, events[..i]) && Fits(log + events[..i], events[i])
  {
    hide Fits;
    var a, b := events[..i], events[..i + 1];
    assert forall j :: 0 <= j < i ==> b[..j] == a[..j];
    assert b[..i] == a && b[i] == events[i];
    if BatchFits(log, b) {
      forall j | 0 <= j < i ensures Fits(log + a[..j], a[j]) {
        assert Fits(log + b[..j], b[j]);
      }
    }
  }

  lemma NotFitting(log: seq<Event>, events: seq<Event>, i: nat)
    requires i < |events| && !Fits(log + events[..i], events[i])
    ensures !BatchFits(log, events)
  {
  }

  /** A row reads back as the event it was written from. */
  lemma RowReads(r: Row, e: Event)
    requires r == RowOf(r.id, e)
    ensures FromDict(r.eventType, r.data) == Some(e) && r.version == e.version && r.aggregateId == e.aggregateId
  {
    hide FromDict, ToDict, EventType;
    EventRoundTrip(e);
  }

  class EventStore {
    var rows: seq<Row>
    var nextId: nat
    ghost var log: seq<Event>

    ghost predicate Valid()
      reads this
    {
      && |rows| == |log|
      && (forall i :: 0 <= i < |rows| ==> rows[i] == RowOf(rows[i].id, log[i]))
      && (forall i :: 0 <= i < |rows| ==> 1 <= rows[i].id < nextId)
      && (forall i, j :: 0 <= i < j < |rows| ==> rows[i].id < rows[j].id)
      && nextId >= 1
      && UniqueRows(log)
    }

    constructor ()
      ensures Valid() && log == []
    {
      rows, nextId, log := [], 1, [];
    }

    /** `COALESCE(MAX(version), 0)` over the aggregate's rows. */
    method ReadCurrentVersion(aggregateId: string) returns (v: int)
      requires Valid()
      ensures v == CurrentVersion(log, aggregateId)
    {
      var found := false;
      v := 0;
      for i := 0 to |rows|
        invariant found <==> EventsOf(log[..i], aggregateId) != []
        invariant v == CurrentVersion(log[..i], aggregateId)
      {
        assert log[..i + 1] == log[..i] + [log[i]];
        CurrentVersionSnoc(log[..i], log[i], aggregateId);
        EventsOfSnoc(log[..i], log[i], aggregateId);
        if rows[i].aggregateId == aggregateId {
          if !found || rows[i].version > v {
            v := rows[i].version;
          }
          found := true;
        }
      }
      assert log[..|log|] == log;
    }

    /** One INSERT: refused by an index, or a new last row. The sequence behind `id` moves either way. */
    method InsertEvent(e: Event) returns (ok: bool)
      requires Valid()
      modifies this
      ensures Valid()
      ensures ok <==> Fits(old(log), e)
      ensures log == if ok then old(log) + [e] else old(log)
      ensures ok ==> rows == old(rows) + [RowOf(old(nextId), e)]
      ensures !ok ==> rows == old(rows)
      ensures nextId > old(nextId)
    {
      ok := true;
      for i := 0 to |rows|
        invariant ok <==> Fits(log[..i], e)
        invariant rows == old(rows) && log == old(log) && nextId == old(nextId)
      {
        var r := rows[i];
        assert log[..i + 1] == log[..i] + [log[i]];
        if (r.aggregateId == e.aggregateId && r.version == e.version) || r.eventId == e.eventId {
          ok := false;
        }
      }
      assert log[..|log|] == log;
      if ok {
        rows := rows + [RowOf(nextId, e)];
        log := log + [e];
      }
      nextId := nextId + 1;
    }

    /**
     `save_events`: reads the version, then inserts the batch in one
     transaction. Either every event is stored, in order, or the table is as it
     was.
     */
    method SaveEvents(aggregateId: string, events: seq<Event>, expectedVersion: int) returns (r: SaveResult)
      requires Valid()
      requires forall i :: 0 <= i < |events| ==> events[i].aggregateId == aggregateId
      modifies this
      ensures Valid()
      ensures r == SaveOutcome(old(log), aggregateId, events, expectedVersion)
      ensures log == if r == Saved then old(log) + events else old(log)
      ensures r != Saved ==> rows == old(rows)
    {
      if events == [] {
        return Saved;
      }
      var current := ReadCurrentVersion(aggregateId);
      if current != expectedVersion {
        return VersionConflict;
      }
      hide CurrentVersion, BatchFits, EventsOf;
      ghost var logBefore := log;
      var before := rows;
      var ok := InsertAll(events);
      if ok {
        r := Saved;
      } else {
        rows, log := before, logBefore;
        r := UniqueViolation;
      }
    }

    /**
     The insert loop of one transaction; on a refusal the rows inserted so far are
     left for the caller to take back.
     */
    method InsertAll(events: seq<Event>) returns (ok: bool)
      requires Valid()
      modifies this
      ensures Valid() && nextId >= old(nextId)
      ensures ok <==> BatchFits(old(log), events)
      ensures ok ==> log == old(log) + events
    {
      hide Fits;
      for i := 0 to |events|
        invariant Valid() && log == old(log) + events[..i] && nextId >= old(nextId)
        invariant BatchFits(old(log), events[..i])
      {
        FitsExtends(old(log), events, i);
        var inserted := InsertEvent(events[i]);
        if !inserted {
          NotFitting(old(log), events, i);
          return false;
        }
        assert old(log) + events[..i] + [events[i]] == old(log) + events[..i + 1];
      }
      assert events[..|events|] == events;
      ok := true;
    }

    /** `get_events`: the aggregate's events above a version, read back from their rows in version order. */
    method GetEvents(aggregateId: string, fromVersion: int) returns (es: seq<Event>)
      requires Valid()
      ensures es == EventLog.GetEvents(log, aggregateId, fromVersion)
    {
      hide FromDict, RowOf, UniqueRows;
      var found: seq<Event> := [];
      for i := 0 to |rows|
        invariant found == After(EventsOf(log[..i], aggregateId), fromVersion)
      {
        assert log[..i + 1] == log[..i] + [log[i]];
        EventsOfSnoc(log[..i], log[i], aggregateId);
        AfterSnoc(EventsOf(log[..i], aggregateId), log[i], fromVersion);
        assert EventsOf(log[..i], aggregateId) + [] == EventsOf(log[..i], aggregateId);
        assert found + [] == found;
        RowReads(rows[i], log[i]);
        if rows[i].aggregateId == aggregateId {
          if rows[i].version > fromVersion {
            var e := FromDict(rows[i].eventType, rows[i].data);
            if e.Some? {
              found := found + [e.value];
            }
          }
        }
      }
      assert log[..|log|] == log;
      es := SortByVersion(found);
    }

    /** How many rows have an id of at most `eventId`. */
    ghost function Skipped(eventId: nat): (k: nat)
      reads this
      requires Valid()
      ensures k <= |rows|
      ensures forall i :: 0 <= i < k ==> rows[i].id <= eventId
      ensures k < |rows| ==> rows[k].id > eventId
    {
      SkippedIn(rows, eventId)
    }

    /** The events that a scan after row id `fromEventId` covers. */
    ghost function Scan(fromEventId: nat, limit: nat): (es: seq<Event>)
      reads this
      requires Valid()
      ensures |es| <= limit
      ensures fromEventId == 0 && |log| <= limit ==> es == log
    {
      var k := Skipped(fromEventId);
      log[k..if k + limit <= |log| then k + limit else |log|]
    }

    /**
     A scan is the stretch of the log that starts at the first row id after
     `fromEventId` and ends with the limit or the log; from the start it is the
     first `limit` events.
     */
    lemma ScanIs(fromEventId: nat, limit: nat)
      requires Valid()
      ensures var es, k := Scan(fromEventId, limit), Skipped(fromEventId);
        && k + |es| <= |log| && es == log[k..k + |es|]
        && |es| == (if k + limit <= |log| then limit else |log| - k)
        && (forall i :: 0 <= i < k ==> rows[i].id <= fromEventId)
        && (forall i :: k <= i < |log| ==> rows[i].id > fromEventId)
      ensures fromEventId == 0 && limit < |log| ==> Scan(fromEventId, limit) == log[..limit]
    {
    }

    /** `get_all_events`: at most `limit` events in id order, starting after the row id `fromEventId`. */
    method GetAllEvents(fromEventId: nat, limit: nat) returns (es: seq<Event>)
      requires Valid()
      ensures es == Scan(fromEventId, limit)
    {
      hide FromDict, RowOf, UniqueRows;
      es := [];
      ghost var k := Skipped(fromEventId);
      var i := 0;
      while i < |rows| && |es| < limit
        invariant 0 <= i <= |rows|
        invariant i <= k ==> es == []
        invariant i > k ==> es == log[k..i] && i - k <= limit
      {
        RowReads(rows[i], log[i]);
        if rows[i].id > fromEventId {
          var e := FromDict(rows[i].eventType, rows[i].data);
          if e.Some? {
            es := es + [e.value];
          }
        }
        i := i + 1;
      }
    }
  }

  ghost function SkippedIn(rows: seq<Row>, eventId: nat): (k: nat)
    ensures k <= |rows|
    ensures forall i :: 0 <= i < k ==> rows[i].id <= eventId
    ensures k < |rows| ==> rows[k].id > eventId
  {
    if rows == [] || rows[0].id > eventId then 0 else 1 + SkippedIn(rows[1..], eventId)
  }
}
