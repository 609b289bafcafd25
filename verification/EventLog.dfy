/**
 The `event_store` table as a sequence of events in insertion order: queries,
 the unique indexes, and legal logs in it.
 */
module EventLog {
  import opened Wrappers
  import opened TaskEvents
  import opened TaskModel
  import opened EventOrder
  import opened TaskHistory

  /** The rows of one aggregate, in insertion order. */
  function EventsOf(rows: seq<Event>, id: string): seq<Event> {
    if rows == [] then []
    else
      var e := rows[|rows| - 1];
      EventsOf(rows[..|rows| - 1], id) + (if e.aggregateId == id then [e] else [])
  }

  function MaxVersion(es: seq<Event>): (m: int)
    requires es != []
    ensures forall i :: 0 <= i < |es| ==> es[i].version <= m
    ensures exists i :: 0 <= i < |es| && es[i].version == m
  {
    var e := es[|es| - 1];
    if |es| == 1 then e.version else
    var m := MaxVersion(es[..|es| - 1]);
    if e.version > m then e.version else m
  }

  /** `COALESCE(MAX(version), 0)` over the aggregate's rows. */
  function CurrentVersion(rows: seq<Event>, id: string): int {
    if EventsOf(rows, id) == [] then 0 else MaxVersion(EventsOf(rows, id))
  }

  function After(es: seq<Event>, version: int): seq<Event> {
    if es == [] then []
    else
      var e := es[|es| - 1];
      After(es[..|es| - 1], version) + (if e.version > version then [e] else [])
  }

  /** `get_events`: the aggregate's rows above a version, in version order. */
  function GetEvents(rows: seq<Event>, id: string, fromVersion: int): seq<Event> {
    SortByVersion(After(EventsOf(rows, id), fromVersion))
  }

  /** Neither unique index refuses `e`. */
  predicate Fits(rows: seq<Event>, e: Event) {
    forall i :: 0 <= i < |rows| ==>
      !(rows[i].aggregateId == e.aggregateId && rows[i].version == e.version) && rows[i].eventId != e.eventId
  }

  /** The rows of a batch can be inserted one after the other. */
  predicate BatchFits(rows: seq<Event>, batch: seq<Event>) {
    forall i :: 0 <= i < |batch| ==> Fits(rows + batch[..i], batch[i])
  }

  /** No two rows violate a unique index. */
  predicate UniqueRows(rows: seq<Event>) {
    forall i, j :: 0 <= i < j < |rows| ==>
      !(rows[i].aggregateId == rows[j].aggregateId && rows[i].version == rows[j].version)
      && rows[i].eventId != rows[j].eventId
  }

  lemma FittingBatchKeepsUnique(rows: seq<Event>, batch: seq<Event>)
    requires UniqueRows(rows) && BatchFits(rows, batch)
    ensures UniqueRows(rows + batch)
  {
    var all := rows + batch;
    forall i, j | 0 <= i < j < |all|
      ensures !(all[i].aggregateId == all[j].aggregateId && all[i].version == all[j].version)
      ensures all[i].eventId != all[j].eventId
    {
      if j >= |rows| {
        var k := j - |rows|;
        assert Fits(rows + batch[..k], batch[k]);
        assert (rows + batch[..k])[i] == all[i];
      }
    }
  }

  lemma EventsOfSnoc(rows: seq<Event>, e: Event, id: string)
    ensures EventsOf(rows + [e], id) == EventsOf(rows, id) + (if e.aggregateId == id then [e] else [])
  {
    assert (rows + [e])[..|rows + [e]| - 1] == rows;
  }

  lemma AfterSnoc(es: seq<Event>, e: Event, version: int)
    ensures After(es + [e], version) == After(es, version) + (if e.version > version then [e] else [])
  {
    assert (es + [e])[..|es + [e]| - 1] == es;
  }

  lemma CurrentVersionSnoc(rows: seq<Event>, e: Event, id: string)
    ensures CurrentVersion(rows + [e], id) ==
            if e.aggregateId == id && (EventsOf(rows, id) == [] || e.version > CurrentVersion(rows, id)) then e.version
            else CurrentVersion(rows, id)
  {
    EventsOfSnoc(rows, e, id);
    var es := EventsOf(rows, id);
    assert es + [] == es;
    assert (es + [e])[..|es + [e]| - 1] == es && (es + [e])[|es|] == e;
  }

  lemma {:induction false} EventsOfAppend(rows: seq<Event>, batch: seq<Event>, id: string)
    ensures EventsOf(rows + batch, id) == EventsOf(rows, id) + EventsOf(batch, id)
  {
    if batch == [] {
      assert rows + batch == rows;
    } else {
      EventsOfAppend(rows, batch[..|batch| - 1], id);
      assert (rows + batch)[..|rows + batch| - 1] == rows + batch[..|batch| - 1];
    }
  }

  lemma {:induction false} EventsOfOwn(batch: seq<Event>, id: string, other: string)
    requires forall i :: 0 <= i < |batch| ==> batch[i].aggregateId == id
    ensures EventsOf(batch, id) == batch
    ensures other != id ==> EventsOf(batch, other) == []
  {
    if batch != [] {
      EventsOfOwn(batch[..|batch| - 1], id, other);
    }
  }

  /** Appending one aggregate's batch extends its log by the batch and leaves every other log alone. */
  lemma AppendBatch(rows: seq<Event>, batch: seq<Event>, id: string, other: string)
    requires forall i :: 0 <= i < |batch| ==> batch[i].aggregateId == id
    ensures EventsOf(rows + batch, id) == EventsOf(rows, id) + batch
    ensures other != id ==> EventsOf(rows + batch, other) == EventsOf(rows, other)
  {
    EventsOfAppend(rows, batch, id);
    EventsOfAppend(rows, batch, other);
    EventsOfOwn(batch, id, other);
  }

  lemma {:induction false} EventsOfMembers(rows: seq<Event>, id: string, e: Event)
    ensures e in EventsOf(rows, id) <==> e in rows && e.aggregateId == id
  {
    if rows != [] {
      EventsOfMembers(rows[..|rows| - 1], id, e);
      assert rows == rows[..|rows| - 1] + [rows[|rows| - 1]];
    }
  }

  lemma {:induction false} EventsOfUnique(rows: seq<Event>, id: string)
    requires UniqueRows(rows)
    ensures VersionsIdentify(EventsOf(rows, id))
  {
    if rows != [] {
      var n := |rows|;
      EventsOfUnique(rows[..n - 1], id);
      var es := EventsOf(rows[..n - 1], id);
      forall i | 0 <= i < |es| && rows[n - 1].aggregateId == id ensures es[i].version != rows[n - 1].version {
        EventsOfMembers(rows[..n - 1], id, es[i]);
        assert es[i] in EventsOf(rows[..n - 1], id);
        var j :| 0 <= j < n - 1 && rows[j] == es[i];
      }
    }
  }

  // ---------- legal logs ----------

  lemma LegalCurrentVersion(rows: seq<Event>, id: string)
    requires Legal(id, EventsOf(rows, id))
    ensures CurrentVersion(rows, id) == |EventsOf(rows, id)|
  {
    var log := EventsOf(rows, id);
    LegalVersions(id, log);
    if log != [] {
      assert log[|log| - 1].version == |log|;
    }
  }

  lemma {:induction false} AfterInLegal(id: string, log: seq<Event>, k: nat)
    requires Legal(id, log) && k <= |log|
    ensures After(log, k) == log[k..]
  {
    hide Legal, LegalNext, Replay;
    if k < |log| {
      var n := |log|;
      LegalAt(id, log, n - 1);
      LegalPrefix(id, log, n - 1);
      AfterInLegal(id, log[..n - 1], k);
      assert log[..n - 1][k..] + [log[n - 1]] == log[k..];
    } else {
      NothingAfter(id, log, k);
    }
  }

  lemma {:induction false} NothingAfter(id: string, log: seq<Event>, k: nat)
    requires Legal(id, log) && |log| <= k
    ensures After(log, k) == []
  {
    if log != [] {
      LegalAt(id, log, |log| - 1);
      LegalPrefix(id, log, |log| - 1);
      NothingAfter(id, log[..|log| - 1], k);
    }
  }

  lemma LegalAscends(id: string, log: seq<Event>, k: nat)
    requires Legal(id, log) && k <= |log|
    ensures Ascending(log[k..])
  {
    LegalVersions(id, log);
  }

  /** Reading a legal log above version `k` gives exactly its events after the `k`-th. */
  lemma GetEventsOfLegal(rows: seq<Event>, id: string, k: nat)
    requires Legal(id, EventsOf(rows, id)) && k <= |EventsOf(rows, id)|
    ensures GetEvents(rows, id, k) == EventsOf(rows, id)[k..]
  {
    AfterInLegal(id, EventsOf(rows, id), k);
    LegalAscends(id, EventsOf(rows, id), k);
    SortOfAscending(EventsOf(rows, id)[k..]);
  }

  /** Folding the first `k` events and then `get_events(from_version=k)` is folding the whole log. */
  lemma SnapshotThenSuffix(rows: seq<Event>, id: string, k: nat)
    requires Legal(id, EventsOf(rows, id)) && k <= |EventsOf(rows, id)|
    ensures Replay(EventsOf(rows, id)[..k]).Some?
    ensures ReplayFrom(Replay(EventsOf(rows, id)[..k]).value, GetEvents(rows, id, k)) == Replay(EventsOf(rows, id))
  {
    hide Apply, Legal, EventsOf, GetEvents;
    var log := EventsOf(rows, id);
    GetEventsOfLegal(rows, id, k);
    LegalPrefix(id, log, k);
    LegalVersions(id, log[..k]);
    ReplaySplit(log[..k], log[k..]);
    assert log[..k] + log[k..] == log;
  }

  /** Rebuilding an aggregate from a legal, non-empty log. */
  lemma RebuildFromStore(rows: seq<Event>, id: string)
    requires Legal(id, EventsOf(rows, id)) && EventsOf(rows, id) != []
    ensures GetEvents(rows, id, 0) == EventsOf(rows, id)
    ensures Replay(EventsOf(rows, id)).Some?
    ensures FromEvents(GetEvents(rows, id, 0))
         == Some(Agg(id, Replay(EventsOf(rows, id)).value, |EventsOf(rows, id)|, []))
  {
    GetEventsOfLegal(rows, id, 0);
    assert EventsOf(rows, id)[0..] == EventsOf(rows, id);
    LegalVersions(id, EventsOf(rows, id));
    RebuildLegal(id, EventsOf(rows, id));
  }
}
