/**
 Whole commits of any number of units of work, with other writers' steps coming
 in between at every await. All that is asked of callers is private ownership:
 while a unit commits, nobody else steps on the objects it tracks.
 */
module CommitRuns {
  import opened Wrappers
  import opened TaskModel
  import opened TaskHistory
  import opened EventLog
  import opened WriterProtocol
  import EventStores
  import UnitsOfWork

  /** How far a commit is: about to save an aggregate, between its check and its insert, or about to mark one. */
  datatype Stage = Saving(next: nat) | Inserting(next: nat) | Marking(next: nat)

  datatype Commit = Commit(tracked: seq<nat>, stage: Stage)

  /** The protocol steps taken so far, and the commits under way. */
  datatype System = System(steps: seq<Step>, commits: map<nat, Commit>)

  /**
   `Act`: a step of somebody else, who loads, creates, commands, saves or drops.
   `Advance`: the next thing a commit does. `Abandon`: a commit ends early, by an
   exception or because its coroutine is cancelled.
   */
  datatype Move =
    | Act(step: Step)
    | Begin(unit: nat, tracked: seq<nat>)
    | Advance(unit: nat)
    | Abandon(unit: nat)

  function StateOf(y: System): State {
    Execute(INIT, y.steps)
  }

  predicate Owned(y: System, w: nat) {
    exists u :: u in y.commits && w in y.commits[u].tracked
  }

  predicate Distinct(ws: seq<nat>) {
    forall i, j :: 0 <= i < j < |ws| ==> ws[i] != ws[j]
  }

  /** A unit can begin its commit on objects that are its own and have no save under way. */
  predicate CanBegin(y: System, ws: seq<nat>) {
    && Distinct(ws)
    && forall i :: 0 <= i < |ws| ==>
         !Owned(y, ws[i]) && ws[i] in StateOf(y).writers && StateOf(y).writers[ws[i]].phase.Holding?
  }

  function After(y: System, step: Step): System {
    y.(steps := y.steps + [step])
  }

  function Goto(y: System, u: nat, c: Commit, stage: Stage): System {
    y.(commits := y.commits[u := c.(stage := stage)])
  }

  function End(y: System, u: nat): System {
    y.(commits := y.commits - {u})
  }

  /** The next thing commit `u` does: skip or check, insert, mark; a refused check or insert ends it. */
  function NextOf(y: System, u: nat): System
    requires u in y.commits
  {
    var c, s := y.commits[u], StateOf(y);
    if c.stage.next >= |c.tracked| then
      (if c.stage.Saving? then Goto(y, u, c, Marking(0)) else End(y, u))
    else
      var w, n := c.tracked[c.stage.next], c.stage.next + 1;
      if w !in s.writers then End(y, u) else
      match c.stage
      case Saving(i) =>
        if s.writers[w].agg.pending == [] then Goto(y, u, c, Saving(n))
        else
          var y' := After(y, Check(w, None));
          if Do(s, Check(w, None)) == s then End(y', u) else Goto(y', u, c, Inserting(i))
      case Inserting(_) =>
        var y' := After(y, Insert(w));
        if Do(s, Insert(w)).rows == s.rows then End(y', u) else Goto(y', u, c, Saving(n))
      case Marking(_) =>
        Goto(After(y, Mark(w)), u, c, Marking(n))
  }

  /** Only commits mark, and others keep off owned objects: a move that would break this does nothing. */
  function Take(y: System, m: Move): System {
    match m
    case Act(step) => if step.Mark? || Owned(y, step.w) then y else After(y, step)
    case Begin(u, ws) => if u in y.commits || !CanBegin(y, ws) then y else y.(commits := y.commits[u := Commit(ws, Saving(0))])
    case Advance(u) => if u in y.commits then NextOf(y, u) else y
    case Abandon(u) => End(y, u)
  }

  function TakeAll(ms: seq<Move>): System {
    if ms == [] then System([], map[]) else Take(TakeAll(ms[..|ms| - 1]), ms[|ms| - 1])
  }

  // ---------- the invariant ----------

  /** No more is stored, or on its way, than is pending. */
  predicate SlotOk(wr: Writer) {
    wr.stored <= |wr.agg.pending| && (wr.phase.Checked? ==> |wr.phase.batch| <= |wr.agg.pending|)
  }

  predicate SlotsOk(s: State) {
    forall w :: w in s.writers ==> SlotOk(s.writers[w])
  }

  predicate Stored(wr: Writer) {
    wr.phase.Holding? && wr.stored == |wr.agg.pending|
  }

  /** Where tracked object number `k` of commit `c` is. */
  predicate ObjectOk(s: State, c: Commit, k: nat)
    requires k < |c.tracked|
  {
    c.tracked[k] in s.writers &&
    var wr := s.writers[c.tracked[k]];
    match c.stage
    case Saving(i) => wr.phase.Holding? && (k < i ==> Stored(wr))
    case Inserting(i) =>
      if k == i then wr.phase.Checked? && wr.phase.batch == wr.agg.pending != []
      else wr.phase.Holding? && (k < i ==> Stored(wr))
    case Marking(_) => Stored(wr)
  }

  predicate CommitOk(s: State, c: Commit) {
    Distinct(c.tracked) && c.stage.next <= |c.tracked| && forall k :: 0 <= k < |c.tracked| ==> ObjectOk(s, c, k)
  }

  predicate Apart(y: System) {
    forall u, v, w :: u in y.commits && v in y.commits && u != v ==> !(w in y.commits[u].tracked && w in y.commits[v].tracked)
  }

  ghost predicate SystemInv(y: System) {
    && OwnedMarks(INIT, y.steps)
    && SlotsOk(StateOf(y))
    && Apart(y)
    && forall u :: u in y.commits ==> CommitOk(StateOf(y), y.commits[u])
  }

  // ---------- one step of the protocol ----------

  lemma OthersUnchanged(s: State, step: Step, v: nat)
    requires step.w != v
    ensures v in Do(s, step).writers <==> v in s.writers
    ensures v in s.writers ==> Do(s, step).writers[v] == s.writers[v]
  {
    hide BatchFits, GetEvents, FromEvents, Create, CurrentVersion, AfterRun;
  }

  lemma StepKeepsSlots(s: State, step: Step)
    requires SlotsOk(s)
    requires step.Mark? && step.w in s.writers ==> s.writers[step.w].phase.Holding?
    ensures SlotsOk(Do(s, step))
  {
    hide BatchFits, GetEvents, FromEvents, CurrentVersion, Decide, Apply;
  }

  lemma ExecuteAfter(y: System, step: Step)
    ensures StateOf(After(y, step)) == Do(StateOf(y), step)
    ensures OwnedMarks(INIT, After(y, step).steps) <==>
      OwnedMarks(INIT, y.steps) && (step.Mark? ==> Disciplined(StateOf(y), step))
  {
    hide Do, Disciplined;
    assert (y.steps + [step])[..|y.steps|] == y.steps;
  }

  /** A step on an object that commit `c` does not track does not concern it. */
  lemma KeepsOff(s: State, step: Step, c: Commit)
    requires CommitOk(s, c) && step.w !in c.tracked
    ensures CommitOk(Do(s, step), c)
  {
    hide Do, Stored;
    forall k | 0 <= k < |c.tracked| ensures ObjectOk(Do(s, step), c, k) {
      assert ObjectOk(s, c, k);
      OthersUnchanged(s, step, c.tracked[k]);
    }
  }

  /** A protocol step that only concerns commit `u`, or none, keeps everything but that commit's own part. */
  lemma StepKeepsSystem(y: System, step: Step, commits: map<nat, Commit>)
    requires SystemInv(y)
    requires step.Mark? ==> step.w in StateOf(y).writers && Stored(StateOf(y).writers[step.w])
    requires Apart(System(y.steps, commits))
    requires forall u :: u in commits ==>
      CommitOk(Do(StateOf(y), step), commits[u]) || (u in y.commits && commits[u] == y.commits[u] && step.w !in commits[u].tracked)
    ensures SystemInv(System(y.steps + [step], commits))
  {
    hide Do, CommitOk, SlotsOk;
    ExecuteAfter(y, step);
    StepKeepsSlots(StateOf(y), step);
    var y' := System(y.steps + [step], commits);
    assert StateOf(y') == StateOf(After(y, step));
    forall u | u in commits ensures CommitOk(StateOf(y'), commits[u]) {
      if !CommitOk(Do(StateOf(y), step), commits[u]) {
        KeepsOff(StateOf(y), step, commits[u]);
      }
    }
  }

  // ---------- the moves ----------

  lemma CheckedIff(s: State, w: nat)
    requires w in s.writers && s.writers[w].phase.Holding? && s.writers[w].agg.pending != []
    ensures var s' := Do(s, Check(w, None));
            s' != s ==>
              && w in s'.writers && s'.writers[w].phase.Checked?
              && s'.writers[w].phase.batch == s.writers[w].agg.pending == s'.writers[w].agg.pending
  {
    hide CurrentVersion;
  }

  lemma InsertedIff(s: State, w: nat)
    requires w in s.writers && s.writers[w].phase.Checked? && s.writers[w].phase.batch == s.writers[w].agg.pending
    ensures var s' := Do(s, Insert(w));
            s'.rows != s.rows ==> w in s'.writers && Stored(s'.writers[w])
  {
    hide BatchFits;
  }

  lemma MarkedIsStored(s: State, w: nat)
    requires w in s.writers && Stored(s.writers[w])
    ensures var s' := Do(s, Mark(w)); w in s'.writers && Stored(s'.writers[w])
  {
  }

  /** What commit `u` does next leaves its own objects where its next stage needs them. */
  lemma OwnStep(s: State, c: Commit, step: Step, stage: Stage)
    requires CommitOk(s, c) && c.stage.next < |c.tracked| && step.w == c.tracked[c.stage.next] && step.w in s.writers
    requires stage.next == (if step.Check? then c.stage.next else c.stage.next + 1)
    requires match c.stage
             case Saving(_) => step == Check(step.w, None) && stage.Inserting?
                               && s.writers[step.w].agg.pending != [] && Do(s, step) != s
             case Inserting(_) => step.Insert? && stage.Saving? && Do(s, step).rows != s.rows
             case Marking(_) => step.Mark? && stage.Marking?
    ensures CommitOk(Do(s, step), c.(stage := stage))
  {
    hide Do, Stored;
    var i, next := c.stage.next, c.(stage := stage);
    assert ObjectOk(s, c, i);
    match c.stage {
      case Saving(_) => CheckedIff(s, step.w);
      case Inserting(_) => InsertedIff(s, step.w);
      case Marking(_) => MarkedIsStored(s, step.w);
    }
    forall k | 0 <= k < |c.tracked| ensures ObjectOk(Do(s, step), next, k) {
      assert ObjectOk(s, c, k);
      if k != i {
        assert c.tracked[k] != c.tracked[i] by {
          DistinctAt(c.tracked, k, i);
        }
        OthersUnchanged(s, step, c.tracked[k]);
      } else {
        StoredHolds(Do(s, step).writers[step.w]);
      }
    }
  }

  lemma DistinctAt(ws: seq<nat>, i: nat, j: nat)
    requires Distinct(ws) && i < |ws| && j < |ws| && i != j
    ensures ws[i] != ws[j]
  {
  }

  lemma StoredHolds(wr: Writer)
    ensures Stored(wr) ==> wr.phase.Holding?
  {
  }

  /** An object with nothing pending needs no save. */
  lemma SkipKeeps(s: State, c: Commit)
    requires CommitOk(s, c) && SlotsOk(s) && c.stage.Saving? && c.stage.next < |c.tracked|
    requires c.tracked[c.stage.next] in s.writers && s.writers[c.tracked[c.stage.next]].agg.pending == []
    ensures CommitOk(s, c.(stage := Saving(c.stage.next + 1)))
  {
    var i, next := c.stage.next, c.(stage := Saving(c.stage.next + 1));
    assert ObjectOk(s, c, i);
    forall k | 0 <= k < |c.tracked| ensures ObjectOk(s, next, k) {
      assert ObjectOk(s, c, k);
    }
  }

  lemma AllSaved(s: State, c: Commit)
    requires CommitOk(s, c) && c.stage.Saving? && c.stage.next == |c.tracked|
    ensures CommitOk(s, c.(stage := Marking(0)))
  {
    hide Stored;
    forall k | 0 <= k < |c.tracked| ensures ObjectOk(s, c.(stage := Marking(0)), k) {
      assert ObjectOk(s, c, k);
    }
  }

  lemma ApartWith(y: System, u: nat, c: Commit, steps: seq<Step>)
    requires Apart(y) && u in y.commits && c.tracked == y.commits[u].tracked
    ensures Apart(System(steps, y.commits[u := c])) && Apart(System(steps, y.commits - {u}))
  {
  }

  lemma AdvanceKeeps(y: System, u: nat)
    requires SystemInv(y) && u in y.commits
    ensures SystemInv(NextOf(y, u))
  {
    hide Do, CommitOk, SlotsOk, Apart, StateOf;
    var c, s := y.commits[u], StateOf(y);
    ApartWith(y, u, c, y.steps);
    TrackedAreThere(s, c);
    if c.stage.next >= |c.tracked| {
      ApartWith(y, u, c.(stage := Marking(0)), y.steps);
      if c.stage.Saving? {
        AllSaved(s, c);
      }
      QuietKeeps(y, NextOf(y, u));
    } else {
      var w, i := c.tracked[c.stage.next], c.stage.next;
      match c.stage {
        case Saving(_) =>
          if s.writers[w].agg.pending == [] {
            ApartWith(y, u, c.(stage := Saving(i + 1)), y.steps);
            SkipKeeps(s, c);
            QuietKeeps(y, NextOf(y, u));
          } else {
            ApartWith(y, u, c.(stage := Inserting(i)), y.steps);
            if Do(s, Check(w, None)) != s {
              OwnStep(s, c, Check(w, None), Inserting(i));
            }
            ProtocolAdvance(y, u, Check(w, None), NextOf(y, u).commits);
          }
        case Inserting(_) =>
          ApartWith(y, u, c.(stage := Saving(i + 1)), y.steps);
          if Do(s, Insert(w)).rows != s.rows {
            OwnStep(s, c, Insert(w), Saving(i + 1));
          }
          ProtocolAdvance(y, u, Insert(w), NextOf(y, u).commits);
        case Marking(_) =>
          ApartWith(y, u, c.(stage := Marking(i + 1)), y.steps);
          OwnStep(s, c, Mark(w), Marking(i + 1));
          ProtocolAdvance(y, u, Mark(w), NextOf(y, u).commits);
      }
    }
  }

  lemma TrackedAreThere(s: State, c: Commit)
    requires CommitOk(s, c)
    ensures c.stage.next <= |c.tracked|
    ensures forall k :: 0 <= k < |c.tracked| ==> c.tracked[k] in s.writers
    ensures c.stage.Marking? ==> forall k :: 0 <= k < |c.tracked| ==> Stored(s.writers[c.tracked[k]])
  {
    hide Stored;
    forall k | 0 <= k < |c.tracked|
      ensures c.tracked[k] in s.writers && (c.stage.Marking? ==> Stored(s.writers[c.tracked[k]]))
    {
      assert ObjectOk(s, c, k);
    }
  }

  lemma QuietKeeps(y: System, y': System)
    requires SystemInv(y) && y'.steps == y.steps && Apart(y')
    requires forall u :: u in y'.commits ==>
      CommitOk(StateOf(y), y'.commits[u]) || (u in y.commits && y'.commits[u] == y.commits[u])
    ensures SystemInv(y')
  {
    hide CommitOk, SlotsOk, Apart;
    assert StateOf(y') == StateOf(y);
  }

  lemma ProtocolAdvance(y: System, u: nat, step: Step, commits: map<nat, Commit>)
    requires SystemInv(y) && u in y.commits && step.w in y.commits[u].tracked
    requires step.Mark? ==> step.w in StateOf(y).writers && Stored(StateOf(y).writers[step.w])
    requires Apart(System(y.steps, commits))
    requires forall v :: v in commits && v != u ==> v in y.commits && commits[v] == y.commits[v]
    requires u in commits ==> CommitOk(Do(StateOf(y), step), commits[u])
    ensures SystemInv(System(y.steps + [step], commits))
  {
    hide Do, CommitOk, SlotsOk, StateOf, Stored;
    StepKeepsSystem(y, step, commits);
  }

  lemma BeginKeeps(y: System, u: nat, ws: seq<nat>)
    requires SystemInv(y) && u !in y.commits && CanBegin(y, ws)
    ensures SystemInv(y.(commits := y.commits[u := Commit(ws, Saving(0))]))
  {
    hide SlotsOk, Execute, OwnedMarks;
    var y' := y.(commits := y.commits[u := Commit(ws, Saving(0))]);
    assert StateOf(y') == StateOf(y);
    forall v, w | v in y.commits && w in ws ensures w !in y.commits[v].tracked {
      var i :| 0 <= i < |ws| && ws[i] == w;
      assert !Owned(y, ws[i]);
    }
  }

  lemma TakeKeeps(y: System, m: Move)
    requires SystemInv(y)
    ensures SystemInv(Take(y, m))
  {
    hide CommitOk, SlotsOk, NextOf, CanBegin;
    match m
    case Act(step) =>
      if !step.Mark? && !Owned(y, step.w) {
        StepKeepsSystem(y, step, y.commits);
      }
    case Begin(u, ws) =>
      if u !in y.commits && CanBegin(y, ws) {
        BeginKeeps(y, u, ws);
      }
    case Advance(u) =>
      if u in y.commits {
        AdvanceKeeps(y, u);
      }
    case Abandon(u) =>
      QuietKeeps(y, End(y, u));
  }

  lemma {:induction false} TakeAllKeeps(ms: seq<Move>)
    ensures SystemInv(TakeAll(ms))
  {
    hide Take, SystemInv;
    if ms == [] {
      NothingUnderWay();
    } else {
      TakeAllKeeps(ms[..|ms| - 1]);
      TakeKeeps(TakeAll(ms[..|ms| - 1]), ms[|ms| - 1]);
    }
  }

  lemma NothingUnderWay()
    ensures SystemInv(System([], map[]))
  {
  }

  // ---------- main results ----------

  /**
   Commits mark only what they have stored: under every interleaving of commits
   with each other and with other writers, whenever an object is marked, all its
   pending events are in the table and no save of it is under way.
   */
  lemma OwnershipSuffices(ms: seq<Move>)
    ensures OwnedMarks(INIT, TakeAll(ms).steps)
  {
    hide TakeAll, OwnedMarks, CommitOk, SlotsOk, Apart;
    TakeAllKeeps(ms);
  }

  predicate DefaultChecks(steps: seq<Step>) {
    forall i :: 0 <= i < |steps| && steps[i].Check? ==> steps[i].expected.None?
  }

  predicate DefaultSaves(ms: seq<Move>) {
    forall i :: 0 <= i < |ms| && ms[i].Act? && ms[i].step.Check? ==> ms[i].step.expected.None?
  }

  lemma {:induction false} DefaultSavesCheckDefaults(ms: seq<Move>)
    requires DefaultSaves(ms)
    ensures DefaultChecks(TakeAll(ms).steps)
  {
    hide StateOf, CanBegin, Owned;
    if ms != [] {
      DefaultSavesCheckDefaults(ms[..|ms| - 1]);
    }
  }

  /** With private ownership and default expected versions, as `UnitOfWork.commit` computes them, no condition on the commands is needed. */
  lemma DefaultVersionsAreSafe(ms: seq<Move>, id: string)
    requires DefaultSaves(ms)
    ensures Legal(id, EventsOf(Execute(INIT, TakeAll(ms).steps).rows, id))
  {
    hide TakeAll, Execute, OwnedMarks, DisciplinedRun;
    OwnershipSuffices(ms);
    DefaultSavesCheckDefaults(ms);
    DefaultsAreDisciplined(INIT, TakeAll(ms).steps);
    Serializability(TakeAll(ms).steps, id);
  }

  /** With private ownership and commands that shrink no title, saves with any expected versions at all keep every log legal. */
  lemma AnyVersionsAreSafeForCleanCommands(ms: seq<Move>, id: string)
    requires CleanCommands(INIT, TakeAll(ms).steps)
    ensures Legal(id, EventsOf(Execute(INIT, TakeAll(ms).steps).rows, id))
  {
    hide TakeAll, Execute, OwnedMarks, CleanCommands, DisciplinedRun;
    OwnershipSuffices(ms);
    CleanRunsAreDisciplined(TakeAll(ms).steps);
    Serializability(TakeAll(ms).steps, id);
  }

  /**
   A commit that gets to marking has stored, for every object it tracks, exactly
   the pending events, in order, where the object's log stood; whatever others
   did in between.
   */
  lemma CommitStoresAll(ms: seq<Move>, u: nat, k: nat)
    requires DefaultSaves(ms)
    requires u in TakeAll(ms).commits && TakeAll(ms).commits[u].stage.Marking? && k < |TakeAll(ms).commits[u].tracked|
    ensures var s, w := StateOf(TakeAll(ms)), TakeAll(ms).commits[u].tracked[k];
      && w in s.writers
      && var wr := s.writers[w];
         var log := EventsOf(s.rows, wr.agg.id);
         wr.base + |wr.agg.pending| <= |log| && log[wr.base..wr.base + |wr.agg.pending|] == wr.agg.pending
  {
    hide TakeAll, Execute, OwnedMarks, DisciplinedRun, SlotsOk, Apart, EventsOf, Legal;
    var y := TakeAll(ms);
    TakeAllKeeps(ms);
    TrackedAreThere(StateOf(y), y.commits[u]);
    OwnershipSuffices(ms);
    DefaultSavesCheckDefaults(ms);
    DefaultsAreDisciplined(INIT, y.steps);
    assert Inv(INIT) by { NothingStored(); }
    RunKeepsInv(INIT, y.steps);
    assert WriterOk(StateOf(y), y.commits[u].tracked[k]);
  }

  lemma NothingStored()
    ensures Inv(INIT)
  {
  }

  // ---------- the commit of the object ----------

  function Advances(y: System, u: nat, n: nat): System {
    if n == 0 then y else Take(Advances(y, u, n - 1), Advance(u))
  }

  predicate AllThere(s: State, ws: seq<nat>) {
    forall k :: 0 <= k < |ws| ==> ws[k] in s.writers
  }

  function Values(s: State, ws: seq<nat>): seq<Agg>
    requires AllThere(s, ws)
  {
    seq(|ws|, k requires 0 <= k < |ws| => s.writers[ws[k]].agg)
  }

  /** `y'` comes after `y` when commit `u` has saved its first `j` objects, or been refused, with nobody in between. */
  ghost predicate SavedLike(y: System, u: nat, j: nat, y': System)
    requires u in y.commits && j <= |y.commits[u].tracked| && AllThere(StateOf(y), y.commits[u].tracked)
  {
    var c, s, s' := y.commits[u], StateOf(y), StateOf(y');
    var (log, r) := UnitsOfWork.SaveAll(s.rows, Values(s, c.tracked)[..j]);
    && s'.rows == log
    && (r.Saved? ==>
          && u in y'.commits && y'.commits[u] == c.(stage := Saving(j))
          && AllThere(s', c.tracked) && Values(s', c.tracked) == Values(s, c.tracked)
          && forall k :: j <= k < |c.tracked| ==> s'.writers[c.tracked[k]].phase.Holding?)
    && (!r.Saved? ==> u !in y'.commits)
  }

  /** One object: skipped, refused at the check, refused at the insert, or stored, as `save_events` has it. */
  lemma SavesNext(y: System, u: nat) returns (y': System, n: nat)
    requires u in y.commits
    requires var c, s := y.commits[u], StateOf(y);
      && c.stage.Saving? && c.stage.next < |c.tracked| && AllThere(s, c.tracked) && Distinct(c.tracked)
      && s.writers[c.tracked[c.stage.next]].phase.Holding?
    ensures 1 <= n <= 2 && y' == Advances(y, u, n)
    ensures var c, s, s' := y.commits[u], StateOf(y), StateOf(y');
            var a := s.writers[c.tracked[c.stage.next]].agg;
            var r := EventStores.SaveOutcome(s.rows, a.id, a.pending, a.version - |a.pending|);
      && s'.rows == (if r.Saved? then s.rows + a.pending else s.rows)
      && (r.Saved? ==>
            && u in y'.commits && y'.commits[u] == c.(stage := Saving(c.stage.next + 1))
            && AllThere(s', c.tracked) && Values(s', c.tracked) == Values(s, c.tracked)
            && forall k :: c.stage.next < k < |c.tracked| ==> s'.writers[c.tracked[k]] == s.writers[c.tracked[k]])
      && (!r.Saved? ==> u !in y'.commits)
  {
    hide CurrentVersion, BatchFits, Execute;
    var c, s := y.commits[u], StateOf(y);
    var w := c.tracked[c.stage.next];
    assert Advances(y, u, 1) == NextOf(y, u) by {
      assert Advances(y, u, 0) == y;
    }
    y', n := NextOf(y, u), 1;
    if s.writers[w].agg.pending == [] {
      assert s.rows + [] == s.rows;
    } else {
      ExecuteAfter(y, Check(w, None));
      if u in y'.commits {
        assert StateOf(y') == Do(s, Check(w, None));
        ExecuteAfter(y', Insert(w));
        y', n := NextOf(y', u), 2;
      }
    }
  }

  /** A commit that nobody comes between stores what the object's `commit` stores, and is refused when that is. */
  lemma {:induction false} CommitIsSaveAll(y: System, u: nat, j: nat) returns (y': System, n: nat)
    requires u in y.commits && y.commits[u].stage == Saving(0) && CommitOk(StateOf(y), y.commits[u])
    requires j <= |y.commits[u].tracked| && AllThere(StateOf(y), y.commits[u].tracked)
    ensures y' == Advances(y, u, n) && SavedLike(y, u, j, y')
  {
    hide Take, UnitsOfWork.SaveAll, EventStores.SaveOutcome, Stored;
    var c, s := y.commits[u], StateOf(y);
    var aggs := Values(s, c.tracked);
    if j == 0 {
      y', n := y, 0;
      UnitsOfWork.NothingToSave(s.rows, aggs[..0]);
      assert c.(stage := Saving(0)) == c;
      forall k | 0 <= k < |c.tracked| ensures s.writers[c.tracked[k]].phase.Holding? {
        assert ObjectOk(s, c, k);
      }
    } else {
      y', n := CommitIsSaveAll(y, u, j - 1);
      assert aggs[..j][..j - 1] == aggs[..j - 1];
      if UnitsOfWork.SaveAll(s.rows, aggs[..j - 1]).1.Saved? {
        UnitsOfWork.SaveAllNext(s.rows, aggs, j - 1);
        var y1, n1 := y', n;
        assert Values(StateOf(y1), c.tracked)[j - 1] == aggs[j - 1];
        y', n := SavesNext(y1, u);
        AdvancesAdd(y, u, n1, n);
        n := n1 + n;
      } else {
        UnitsOfWork.SaveAllStops(s.rows, aggs[..j], j - 1);
      }
    }
  }

  lemma {:induction false} AdvancesAdd(y: System, u: nat, m: nat, n: nat)
    ensures Advances(Advances(y, u, m), u, n) == Advances(y, u, m + n)
  {
    hide Take;
    if n > 0 {
      AdvancesAdd(y, u, m, n - 1);
    }
  }

  // ---------- a commit begins and ends ----------

  /** A unit whose objects are free begins to save them. */
  lemma BeginBegins(y: System, u: nat, ws: seq<nat>)
    requires SystemInv(y) && u !in y.commits && CanBegin(y, ws)
    ensures var y' := Take(y, Begin(u, ws));
      && u in y'.commits && y'.commits[u] == Commit(ws, Saving(0))
      && CommitOk(StateOf(y'), y'.commits[u]) && y'.steps == y.steps
  {
    hide CommitOk, SlotsOk, Execute, CanBegin;
    BeginKeeps(y, u, ws);
  }

  lemma MarkEmpties(s: State, w: nat)
    requires w in s.writers
    ensures var s' := Do(s, Mark(w));
      && s'.rows == s.rows && w in s'.writers && s'.writers[w].agg == s.writers[w].agg.(pending := [])
      && forall v :: v != w ==> (v in s'.writers <==> v in s.writers) && (v in s.writers ==> s'.writers[v] == s.writers[v])
  {
  }

  /** `y'` comes after commit `u` has marked its first `j` objects: their events are cleared, the others and the table are as they were. */
  ghost predicate MarkedLike(y: System, u: nat, j: nat, y': System)
    requires u in y.commits && j <= |y.commits[u].tracked| && AllThere(StateOf(y), y.commits[u].tracked)
  {
    var c, s, s' := y.commits[u], StateOf(y), StateOf(y');
    && u in y'.commits && y'.commits[u] == c.(stage := Marking(j))
    && s'.rows == s.rows && AllThere(s', c.tracked)
    && forall k :: 0 <= k < |c.tracked| ==>
         Values(s', c.tracked)[k] == if k < j then Values(s, c.tracked)[k].(pending := []) else Values(s, c.tracked)[k]
  }

  /** A commit that has saved everything marks every tracked object, one after the other, and touches nothing else of them. */
  lemma {:induction false} MarksAll(y: System, u: nat, j: nat) returns (y': System)
    requires u in y.commits && y.commits[u].stage == Marking(0) && Distinct(y.commits[u].tracked)
    requires j <= |y.commits[u].tracked| && AllThere(StateOf(y), y.commits[u].tracked)
    ensures y' == Advances(y, u, j) && MarkedLike(y, u, j, y')
  {
    hide Do, Execute;
    var c, s := y.commits[u], StateOf(y);
    if j == 0 {
      y' := y;
      assert c.(stage := Marking(0)) == c;
    } else {
      var before := MarksAll(y, u, j - 1);
      y' := Take(before, Advance(u));
      var w := c.tracked[j - 1];
      assert before.commits[u].stage == Marking(j - 1);
      ExecuteAfter(before, Mark(w));
      MarkEmpties(StateOf(before), w);
      forall k | 0 <= k < |c.tracked|
        ensures c.tracked[k] in StateOf(y').writers
        ensures StateOf(y').writers[c.tracked[k]].agg ==
                if k < j then s.writers[c.tracked[k]].agg.(pending := []) else s.writers[c.tracked[k]].agg
      {
        assert Values(StateOf(before), c.tracked)[k] ==
               if k < j - 1 then Values(s, c.tracked)[k].(pending := []) else Values(s, c.tracked)[k];
        if k != j - 1 {
          DistinctAt(c.tracked, k, j - 1);
        }
      }
    }
  }

  /** Then it ends. */
  lemma CommitEnds(y: System, u: nat)
    requires u in y.commits && y.commits[u].stage == Marking(|y.commits[u].tracked|)
    ensures u !in Take(y, Advance(u)).commits && Take(y, Advance(u)).steps == y.steps
  {
  }
}
