/**
 The subscriber: one partition read from the committed offset on, with
 auto-commit off. Handler failures go to a dead-letter topic and do not stop the
 loop.
 */
module EventSubscribers {

  /**
   What can happen to one message once it is fetched. `Rejected`: decoding or
   handling raised. A commit may raise with or without having taken effect;
   either way the message then goes to the dead-letter topic as well. `dlqOk`
   says whether that send was accepted. `StopSeen`: the subscriber was stopped
   before the message was handled. `Crash`: the process dies after the handler
   ran, before the commit.
   */
  datatype Fate =
    | Handled
    | CommitRaised(applied: bool, dlqOk: bool)
    | Rejected(dlqOk: bool)
    | StopSeen
    | Crash

  /**
   Offsets below `committed` are not delivered again after a restart; `lost` were
   rejected with their dead-letter send failing too.
   */
  datatype Progress = Progress(committed: nat, position: nat, handled: set<nat>, dead: set<nat>, lost: set<nat>)

  const START := Progress(0, 0, {}, {}, {})

  /** The next message of a session. */
  function Deliver(p: Progress, f: Fate): Progress {
    var o := p.position;
    var q := p.(position := o + 1);
    match f
    case Handled => q.(handled := p.handled + {o}, committed := o + 1)
    case CommitRaised(applied, dlqOk) =>
      q.(handled := p.handled + {o}, committed := if applied then o + 1 else p.committed,
         dead := if dlqOk then p.dead + {o} else p.dead)
    case Rejected(dlqOk) =>
      if dlqOk then q.(dead := p.dead + {o}) else q.(lost := p.lost + {o})
    case StopSeen => q
    case Crash => q.(handled := p.handled + {o})
  }

  /** A session ends with the first stop or crash, or when no more messages come. */
  function Session(p: Progress, fates: seq<Fate>): Progress
    decreases |fates|
  {
    if fates == [] then p
    else if fates[0].StopSeen? || fates[0].Crash? then Deliver(p, fates[0])
    else Session(Deliver(p, fates[0]), fates[1..])
  }

  /** Sessions one after the other, each starting again from the committed offset. */
  function Sessions(ss: seq<seq<Fate>>): Progress {
    if ss == [] then START
    else
      var p := Sessions(ss[..|ss| - 1]);
      Session(p.(position := p.committed), ss[|ss| - 1])
  }

  predicate DlqAccepts(fates: seq<Fate>) {
    forall i :: 0 <= i < |fates| ==> fates[i] != Rejected(false)
  }

  /** Everything fetched so far in this session has been handled, dead-lettered or lost. */
  ghost predicate Covered(p: Progress, upto: nat) {
    forall o: nat :: o < upto ==> o in p.handled || o in p.dead || o in p.lost
  }

  ghost predicate ProgressInv(p: Progress) {
    p.committed <= p.position && Covered(p, p.position)
  }

  lemma {:induction false} SessionCovers(p: Progress, fates: seq<Fate>)
    requires ProgressInv(p)
    ensures var q := Session(p, fates);
      && q.committed <= q.position && Covered(q, q.committed)
      && p.committed <= q.committed
      && p.handled <= q.handled && p.dead <= q.dead && p.lost <= q.lost
      && (DlqAccepts(fates) ==> q.lost == p.lost)
    decreases |fates|
  {
    if fates != [] {
      var q := Deliver(p, fates[0]);
      if fates[0].StopSeen? || fates[0].Crash? {
        assert Covered(q, p.position);
      } else {
        assert Covered(q, q.position);
        SessionCovers(q, fates[1..]);
        if DlqAccepts(fates) {
          assert DlqAccepts(fates[1..]);
        }
      }
    }
  }

  /**
   At least once: over any sessions, with any failures, stops and crashes, every
   offset below the committed one has been handled or dead-lettered, unless its
   own dead-letter send failed; and if those sends are accepted there is no
   exception.
   */
  lemma {:induction false} AtLeastOnce(ss: seq<seq<Fate>>)
    ensures var p := Sessions(ss);
      && Covered(p, p.committed)
      && ((forall i :: 0 <= i < |ss| ==> DlqAccepts(ss[i])) ==>
            p.lost == {} && forall o: nat :: o < p.committed ==> o in p.handled || o in p.dead)
  {
    if ss != [] {
      var n := |ss| - 1;
      AtLeastOnce(ss[..n]);
      var p := Sessions(ss[..n]);
      SessionCovers(p.(position := p.committed), ss[n]);
      if forall i :: 0 <= i < |ss| ==> DlqAccepts(ss[i]) {
        assert forall i :: 0 <= i < n ==> DlqAccepts(ss[..n][i]);
      }
    }
  }

  // ---------- exactly which messages are lost ----------

  /** Handled or dead-lettered. */
  predicate Settled(p: Progress, o: nat) {
    o in p.handled || o in p.dead
  }

  /** A session that starts at `start` gets to offset `o`: it is delivered, and no stop or crash comes before it. */
  predicate Reaches(start: nat, fates: seq<Fate>, o: nat) {
    && start <= o < start + |fates|
    && forall j :: 0 <= j < o - start ==> !fates[j].StopSeen? && !fates[j].Crash?
  }

  /** A session that starts at `start` handles `o` or gets it accepted as a dead letter. */
  predicate Settles(start: nat, fates: seq<Fate>, o: nat) {
    Reaches(start, fates, o) && fates[o - start] != Rejected(false) && fates[o - start] != StopSeen
  }

  lemma SettlesLater(start: nat, fates: seq<Fate>, o: nat)
    requires fates != [] && !fates[0].StopSeen? && !fates[0].Crash? && o != start
    ensures Settles(start, fates, o) <==> Settles(start + 1, fates[1..], o)
  {
    if Settles(start + 1, fates[1..], o) {
      forall j | 0 <= j < o - start ensures !fates[j].StopSeen? && !fates[j].Crash? {
        assert j > 0 ==> fates[j] == fates[1..][j - 1];
      }
    }
    if Settles(start, fates, o) {
      assert forall j :: 0 <= j < o - start - 1 ==> fates[1..][j] == fates[j + 1];
    }
  }

  /**
   One session, with any stop or crash, from any progress: an offset is settled
   afterwards if and only if it was before or the session reached it with
   another fate than a stop or a rejection whose dead-letter send failed.
   */
  lemma {:induction false} SessionSettlesIff(p: Progress, fates: seq<Fate>, o: nat)
    ensures Settled(Session(p, fates), o) <==> Settled(p, o) || Settles(p.position, fates, o)
    decreases |fates|
  {
    if fates != [] {
      var q := Deliver(p, fates[0]);
      assert Settled(q, o) <==> Settled(p, o) || (o == p.position && fates[0] != Rejected(false) && fates[0] != StopSeen);
      if fates[0].StopSeen? || fates[0].Crash? {
        assert o > p.position ==> !Reaches(p.position, fates, o);
      } else {
        SessionSettlesIff(q, fates[1..], o);
        if o != p.position {
          SettlesLater(p.position, fates, o);
        }
      }
    }
  }

  /** What a message's own fate makes of it. */
  predicate RunsHandler(f: Fate) {
    f.Handled? || f.CommitRaised? || f.Crash?
  }

  predicate Dies(f: Fate) {
    (f.CommitRaised? || f.Rejected?) && f.dlqOk
  }

  predicate Commits(f: Fate) {
    f.Handled? || (f.CommitRaised? && f.applied)
  }

  lemma ReachesLater(start: nat, fates: seq<Fate>, o: nat)
    requires fates != [] && !fates[0].StopSeen? && !fates[0].Crash? && o != start
    ensures Reaches(start, fates, o) <==> Reaches(start + 1, fates[1..], o)
    ensures Reaches(start, fates, o) ==> fates[o - start] == fates[1..][o - start - 1]
  {
    if Reaches(start + 1, fates[1..], o) {
      forall j | 0 <= j < o - start ensures !fates[j].StopSeen? && !fates[j].Crash? {
        assert j > 0 ==> fates[j] == fates[1..][j - 1];
      }
    }
    if Reaches(start, fates, o) {
      assert forall j :: 0 <= j < o - start - 1 ==> fates[1..][j] == fates[j + 1];
    }
  }

  /**
   One session, offset by offset: exactly the messages it reaches whose handler
   ran are handled, so none that was rejected; and exactly those whose handling
   or commit raised and whose dead-letter send was accepted are dead-lettered.
   */
  lemma {:induction false} SessionHandlesIff(p: Progress, fates: seq<Fate>, o: nat)
    ensures var q := Session(p, fates);
      && (o in q.handled <==> o in p.handled || (Reaches(p.position, fates, o) && RunsHandler(fates[o - p.position])))
      && (o in q.dead <==> o in p.dead || (Reaches(p.position, fates, o) && Dies(fates[o - p.position])))
    decreases |fates|
  {
    if fates != [] {
      var q := Deliver(p, fates[0]);
      if fates[0].StopSeen? || fates[0].Crash? {
        assert o > p.position ==> !Reaches(p.position, fates, o);
      } else {
        SessionHandlesIff(q, fates[1..], o);
        if o != p.position {
          ReachesLater(p.position, fates, o);
        }
      }
    }
  }

  /** Offset `o` is the last one this session commits. */
  ghost predicate CommitsLast(start: nat, fates: seq<Fate>, o: nat) {
    && Reaches(start, fates, o) && Commits(fates[o - start])
    && forall later: nat :: later > o && Reaches(start, fates, later) ==> !Commits(fates[later - start])
  }

  /** Only successful commits move the committed offset: it ends just past the last one, and a rejection never moves it. */
  lemma {:induction false} CommittedIs(p: Progress, fates: seq<Fate>)
    ensures var q := Session(p, fates);
      || (q.committed == p.committed && forall o: nat :: Reaches(p.position, fates, o) ==> !Commits(fates[o - p.position]))
      || exists o: nat :: CommitsLast(p.position, fates, o) && q.committed == o + 1
    decreases |fates|
  {
    if fates != [] {
      var q := Deliver(p, fates[0]);
      if fates[0].StopSeen? || fates[0].Crash? {
        assert forall o: nat :: Reaches(p.position, fates, o) ==> o == p.position;
      } else {
        CommittedIs(q, fates[1..]);
        forall o: nat | o != p.position
          ensures Reaches(p.position, fates, o) <==> Reaches(q.position, fates[1..], o)
          ensures Reaches(p.position, fates, o) ==> fates[o - p.position] == fates[1..][o - q.position]
        {
          ReachesLater(p.position, fates, o);
        }
        if o: nat :| CommitsLast(q.position, fates[1..], o) && Session(p, fates).committed == o + 1 {
          assert CommitsLast(p.position, fates, o);
        } else if Commits(fates[0]) {
          assert CommitsLast(p.position, fates, p.position);
        }
      }
    }
  }

  /** Where session number `k` starts. */
  function StartOf(ss: seq<seq<Fate>>, k: nat): nat
    requires k <= |ss|
  {
    Sessions(ss[..k]).committed
  }

  ghost predicate SettledBySome(ss: seq<seq<Fate>>, o: nat) {
    exists k :: 0 <= k < |ss| && Settles(StartOf(ss, k), ss[k], o)
  }

  lemma SettledBySomeSnoc(before: seq<seq<Fate>>, last: seq<Fate>, o: nat)
    ensures SettledBySome(before + [last], o) <==> SettledBySome(before, o) || Settles(Sessions(before).committed, last, o)
  {
    hide Settles, Sessions;
    var ss, n := before + [last], |before|;
    assert ss[..n] == before && StartOf(ss, n) == Sessions(before).committed;
    forall k | 0 <= k < n ensures StartOf(ss, k) == StartOf(before, k) && ss[k] == before[k] {
      assert ss[..k] == before[..k];
    }
    if Settles(Sessions(before).committed, last, o) {
      assert Settles(StartOf(ss, n), ss[n], o);
    }
    if SettledBySome(before, o) {
      var k :| 0 <= k < n && Settles(StartOf(before, k), before[k], o);
      assert Settles(StartOf(ss, k), ss[k], o);
    }
  }

  /** Over any sessions: an offset is settled if and only if some session settled it. */
  lemma {:induction false} SettledIff(ss: seq<seq<Fate>>, o: nat)
    ensures Settled(Sessions(ss), o) <==> SettledBySome(ss, o)
  {
    hide Session, Settles;
    if ss != [] {
      var before, last := ss[..|ss| - 1], ss[|ss| - 1];
      var p := Sessions(before);
      SettledIff(before, o);
      SettledBySomeSnoc(before, last, o);
      assert before + [last] == ss;
      SessionSettlesIff(p.(position := p.committed), last, o);
    }
  }

  /** Some session reached `o` with a rejection whose dead-letter send failed. */
  ghost predicate DroppedBySome(ss: seq<seq<Fate>>, o: nat) {
    exists k :: 0 <= k < |ss| && Drops(StartOf(ss, k), ss[k], o)
  }

  predicate Drops(start: nat, fates: seq<Fate>, o: nat) {
    Reaches(start, fates, o) && fates[o - start] == Rejected(false)
  }

  lemma {:induction false} SessionDrops(p: Progress, fates: seq<Fate>, o: nat)
    requires o in Session(p, fates).lost && o !in p.lost
    ensures Drops(p.position, fates, o)
    decreases |fates|
  {
    if !fates[0].StopSeen? && !fates[0].Crash? {
      var q := Deliver(p, fates[0]);
      if o in q.lost {
        assert o == p.position;
      } else {
        SessionDrops(q, fates[1..], o);
        assert forall j :: 1 <= j < |fates| ==> fates[j] == fates[1..][j - 1];
      }
    }
  }

  lemma {:induction false} LostWasDropped(ss: seq<seq<Fate>>, o: nat)
    requires o in Sessions(ss).lost
    ensures DroppedBySome(ss, o)
  {
    hide Session, Drops;
    var before, last := ss[..|ss| - 1], ss[|ss| - 1];
    var n := |before|;
    var p := Sessions(before);
    if o in p.lost {
      LostWasDropped(before, o);
      var k :| 0 <= k < n && Drops(StartOf(before, k), before[k], o);
      assert ss[..k] == before[..k] && ss[k] == before[k];
      assert Drops(StartOf(ss, k), ss[k], o);
    } else {
      SessionDrops(p.(position := p.committed), last, o);
      assert Drops(StartOf(ss, n), ss[n], o);
    }
  }

  /**
   At least once, exactly: over any sessions, with any stops and crashes, an
   offset below the committed one is missing from both handler and dead letters
   if and only if it was dropped, by a rejection whose dead-letter send failed,
   and no session settled it.
   */
  lemma LostIff(ss: seq<seq<Fate>>, o: nat)
    requires o < Sessions(ss).committed
    ensures !Settled(Sessions(ss), o) <==> DroppedBySome(ss, o) && !SettledBySome(ss, o)
  {
    hide Sessions;
    SettledIff(ss, o);
    AtLeastOnce(ss);
    if !Settled(Sessions(ss), o) {
      LostWasDropped(ss, o);
    }
  }

  /** Two messages are enough: the first is rejected with its dead-letter send failing, and handling the second commits past it. */
  lemma MessageIsLost()
    ensures var p := Sessions([[Rejected(false), Handled]]);
            p.committed == 2 && !Settled(p, 0) && Settled(p, 1)
  {
    var fates := [Rejected(false), Handled];
    assert [fates] == [] + [fates];
    assert Sessions([fates]) == Session(START, fates);
    assert fates[1..] == [Handled] && fates[1..][1..] == [];
    assert Session(START, fates) == Session(Deliver(START, fates[0]), fates[1..]);
  }

  // ---------- the metrics ----------

  datatype Metrics = Metrics(consumed: nat, errors: nat, dead: nat)

  function Count(m: Metrics, f: Fate): Metrics {
    match f
    case Handled => m.(consumed := m.consumed + 1)
    case CommitRaised(_, dlqOk) =>
      Metrics(m.consumed + 1, m.errors + 1, if dlqOk then m.dead + 1 else m.dead)
    case Rejected(dlqOk) =>
      m.(errors := m.errors + 1, dead := if dlqOk then m.dead + 1 else m.dead)
    case StopSeen => m
    case Crash => m
  }

  /** The metrics after a session. */
  function Tally(m: Metrics, fates: seq<Fate>): Metrics
    decreases |fates|
  {
    if fates == [] || fates[0].StopSeen? || fates[0].Crash? then m
    else Tally(Count(m, fates[0]), fates[1..])
  }

  function CommitsRaised(fates: seq<Fate>): nat
    decreases |fates|
  {
    if fates == [] then 0 else (if fates[0].CommitRaised? then 1 else 0) + CommitsRaised(fates[1..])
  }

  /** How many messages have such a fate. */
  function HowMany(fates: seq<Fate>, such: Fate -> bool): nat
    decreases |fates|
  {
    if fates == [] then 0 else (if such(fates[0]) then 1 else 0) + HowMany(fates[1..], such)
  }

  /**
   Every message of an undisturbed session is counted as consumed or as an error,
   and as both exactly when its commit raised.
   */
  lemma {:induction false} TallyCounts(m: Metrics, fates: seq<Fate>)
    requires forall j :: 0 <= j < |fates| ==> !fates[j].StopSeen? && !fates[j].Crash?
    ensures var t := Tally(m, fates);
      && (t.consumed - m.consumed) + (t.errors - m.errors) == |fates| + CommitsRaised(fates)
      && 0 <= t.dead - m.dead <= t.errors - m.errors
      && t.consumed == m.consumed + HowMany(fates, (f: Fate) => f.Handled? || f.CommitRaised?)
      && t.errors == m.errors + HowMany(fates, (f: Fate) => f.CommitRaised? || f.Rejected?)
      && t.dead == m.dead + HowMany(fates, (f: Fate) => (f.CommitRaised? || f.Rejected?) && f.dlqOk)
    decreases |fates|
  {
    if fates != [] {
      TallyCounts(Count(m, fates[0]), fates[1..]);
    }
  }

  // ---------- the object ----------

  class EventSubscriber {
    var running: bool
    var metrics: Metrics
    /** The broker's side and what became of the messages. */
    var progress: Progress

    constructor ()
      ensures progress == START && !running && metrics == Metrics(0, 0, 0)
    {
      running, metrics := false, Metrics(0, 0, 0);
      progress := START;
    }

    /** A new consumer begins at the committed offset. */
    method Start()
      modifies this
      ensures running && progress == old(progress).(position := old(progress).committed)
      ensures metrics == old(metrics)
    {
      progress := progress.(position := progress.committed);
      running := true;
    }

    /** `consume` on the messages that arrive, each with its fate: one session. */
    method Consume(fates: seq<Fate>)
      requires running
      modifies this
      ensures progress == Session(old(progress), fates)
      ensures metrics == Tally(old(metrics), fates)
    {
      var i := 0;
      while i < |fates|
        invariant 0 <= i <= |fates|
        invariant Session(old(progress), fates) == Session(progress, fates[i..])
        invariant Tally(old(metrics), fates) == Tally(metrics, fates[i..])
      {
        var f := fates[i];
        var o := progress.position;
        assert fates[i..][0] == f && fates[i..][1..] == fates[i + 1..];
        progress := progress.(position := o + 1);
        match f {
          case StopSeen =>
            running := false;
            return;
          case Crash =>
            progress := progress.(handled := progress.handled + {o});
            running := false;
            return;
          case Handled =>
            progress := progress.(handled := progress.handled + {o});
            metrics := metrics.(consumed := metrics.consumed + 1);
            progress := progress.(committed := o + 1);
          case CommitRaised(applied, dlqOk) =>
            progress := progress.(handled := progress.handled + {o});
            metrics := metrics.(consumed := metrics.consumed + 1);
            if applied {
              progress := progress.(committed := o + 1);
            }
            metrics := metrics.(errors := metrics.errors + 1);
            if dlqOk {
              progress := progress.(dead := progress.dead + {o});
              metrics := metrics.(dead := metrics.dead + 1);
            }
          case Rejected(dlqOk) =>
            metrics := metrics.(errors := metrics.errors + 1);
            if dlqOk {
              progress := progress.(dead := progress.dead + {o});
              metrics := metrics.(dead := metrics.dead + 1);
            } else {
              progress := progress.(lost := progress.lost + {o});
            }
        }
        i := i + 1;
      }
    }
  }
}
