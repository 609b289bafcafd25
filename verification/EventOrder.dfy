/** What sorting by version does to an event list, and why `from_events` does not depend on the order it is given. */
module EventOrder {
  import opened TaskEvents
  import opened TaskModel

  predicate Ascending(es: seq<Event>) {
    forall i, j :: 0 <= i < j < |es| ==> es[i].version <= es[j].version
  }

  /** Events with the same version are the same event. */
  predicate VersionsIdentify(es: seq<Event>) {
    forall i, j :: 0 <= i < |es| && 0 <= j < |es| && es[i].version == es[j].version ==> es[i] == es[j]
  }

  lemma {:induction false} InsertKeeps(e: Event, es: seq<Event>)
    requires Ascending(es)
    ensures Ascending(InsertByVersion(e, es))
    ensures multiset(InsertByVersion(e, es)) == multiset(es) + multiset{e}
  {
    if es == [] || e.version <= es[0].version {
    } else {
      InsertKeeps(e, es[1..]);
      var r := InsertByVersion(e, es[1..]);
      assert es == [es[0]] + es[1..];
      NoneBelow(es[0].version, e, es[1..], r);
      PutFirst(es[0], r);
    }
  }

  lemma NoneBelow(version: int, e: Event, es: seq<Event>, r: seq<Event>)
    requires multiset(r) == multiset(es) + multiset{e}
    requires version <= e.version && forall j :: 0 <= j < |es| ==> version <= es[j].version
    ensures forall j :: 0 <= j < |r| ==> version <= r[j].version
  {
    forall j | 0 <= j < |r| ensures version <= r[j].version {
      assert r[j] in multiset(r);
      assert r[j] == e || r[j] in es;
    }
  }

  lemma PutFirst(e: Event, es: seq<Event>)
    requires Ascending(es) && forall j :: 0 <= j < |es| ==> e.version <= es[j].version
    ensures Ascending([e] + es)
  {
  }

  /** Sorting permutes the list into ascending versions. */
  lemma {:induction false} SortSorts(es: seq<Event>)
    ensures Ascending(SortByVersion(es))
    ensures multiset(SortByVersion(es)) == multiset(es)
    ensures |SortByVersion(es)| == |es|
  {
    if es != [] {
      SortSorts(es[1..]);
      InsertKeeps(es[0], SortByVersion(es[1..]));
      assert es == [es[0]] + es[1..];
    }
    assert |multiset(SortByVersion(es))| == |multiset(es)|;
  }

  /** Sorting is stable: a list already in ascending order is left alone. */
  lemma {:induction false} SortOfAscending(es: seq<Event>)
    requires Ascending(es)
    ensures SortByVersion(es) == es
  {
    if es != [] {
      SortOfAscending(es[1..]);
      assert es == [es[0]] + es[1..];
    }
  }

  lemma SameFirst(a: seq<Event>, b: seq<Event>)
    requires Ascending(a) && Ascending(b)
    requires multiset(a) == multiset(b)
    requires VersionsIdentify(a) && a != []
    ensures b != [] && a[0] == b[0]
    ensures multiset(a[1..]) == multiset(b[1..])
  {
    assert a[0] in multiset(b);
    assert b[0] in multiset(a);
    var i :| 0 <= i < |b| && b[i] == a[0];
    var j :| 0 <= j < |a| && a[j] == b[0];
    assert a[0].version <= a[j].version == b[0].version <= b[i].version;
    DropFirst(a);
    DropFirst(b);
  }

  lemma DropFirst(es: seq<Event>)
    requires es != []
    ensures multiset(es[1..]) == multiset(es) - multiset{es[0]}
  {
    assert es == [es[0]] + es[1..];
  }

  lemma {:induction false} SortedIsUnique(a: seq<Event>, b: seq<Event>)
    requires Ascending(a) && Ascending(b)
    requires multiset(a) == multiset(b)
    requires VersionsIdentify(a)
    ensures a == b
  {
    if a == [] {
      assert |multiset(b)| == 0;
    } else {
      SameFirst(a, b);
      SortedIsUnique(a[1..], b[1..]);
      assert a == [a[0]] + a[1..] && b == [b[0]] + b[1..];
    }
  }

  lemma SameElements(a: seq<Event>, b: seq<Event>)
    requires multiset(a) == multiset(b)
    ensures forall i :: 0 <= i < |a| ==> a[i] in b
    ensures VersionsIdentify(a) ==> VersionsIdentify(b)
  {
    forall i | 0 <= i < |a| ensures a[i] in b {
      assert a[i] in multiset(b);
    }
    if VersionsIdentify(a) {
      forall i, j | 0 <= i < |b| && 0 <= j < |b| && b[i].version == b[j].version ensures b[i] == b[j] {
        assert b[i] in multiset(a) && b[j] in multiset(a);
        var k :| 0 <= k < |a| && a[k] == b[i];
        var l :| 0 <= l < |a| && a[l] == b[j];
      }
    }
  }

  /** Two arrangements of the same events, with one event per version, sort to the same list. */
  lemma SortIgnoresOrder(a: seq<Event>, b: seq<Event>)
    requires multiset(a) == multiset(b) && VersionsIdentify(a)
    ensures SortByVersion(a) == SortByVersion(b)
  {
    SortSorts(a);
    SortSorts(b);
    SameElements(a, SortByVersion(a));
    SortedIsUnique(SortByVersion(a), SortByVersion(b));
  }

  /** `from_events` gives the same aggregate, or raises alike, for every permutation of one aggregate's log. */
  lemma FromEventsIgnoresOrder(a: seq<Event>, b: seq<Event>, id: string)
    requires multiset(a) == multiset(b) && VersionsIdentify(a)
    requires forall i :: 0 <= i < |a| ==> a[i].aggregateId == id
    ensures FromEvents(a) == FromEvents(b)
  {
    SortIgnoresOrder(a, b);
    assert |multiset(a)| == |multiset(b)|;
    if a != [] {
      assert b[0] in multiset(a);
    }
  }
}
