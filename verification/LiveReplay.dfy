/**
 One aggregate object, created and then given any commands, against the
 aggregate rebuilt from its serialized events.
 */
module LiveReplay {
  import opened Wrappers
  import opened TaskEvents
  import opened TaskModel
  import opened EventOrder
  import opened TaskHistory

  /** A command with the id its event would get. */
  datatype Request = Request(command: Command, eventId: string)

  function RunAll(a: Agg, rs: seq<Request>): Agg {
    if rs == [] then a
    else
      var r := rs[|rs| - 1];
      Handle(RunAll(a, rs[..|rs| - 1]), r.command, r.eventId).0
  }

  predicate CleanRequest(t: Task, r: Request) {
    Decide(t, r.command).Emit? ==> !ShrinksTitle(t, r.command)
  }

  /** No accepted command shrank the title below the rule. */
  predicate Clean(a: Agg, rs: seq<Request>) {
    rs == [] ||
    (var n := |rs| - 1;
     Clean(a, rs[..n]) && CleanRequest(RunAll(a, rs[..n]).task, rs[n]))
  }

  /** Writing each event as a row and reading the rows back. */
  function Reload(es: seq<Event>): Option<seq<Event>> {
    if es == [] then Some([])
    else
      var before :- Reload(es[..|es| - 1]);
      var e :- FromDict(EventType(es[|es| - 1].payload), ToDict(es[|es| - 1]));
      Some(before + [e])
  }

  lemma {:induction false} ReloadIsIdentity(es: seq<Event>)
    ensures Reload(es) == Some(es)
  {
    hide FromDict, ToDict, EventType;
    if es != [] {
      var n := |es| - 1;
      ReloadIsIdentity(es[..n]);
      EventRoundTrip(es[n]);
      assert es == es[..n] + [es[n]];
    }
  }

  /** Either everything raised so far was applied, and the events are a legal log, or their replay raises for good. */
  ghost predicate LiveInv(a: Agg, clean: bool) {
    && Ascending(a.pending) && a.pending != []
    && (forall i :: 0 <= i < |a.pending| ==> a.pending[i].version <= a.version + 1)
    && (clean ==> Legal(a.id, a.pending) && a.version == |a.pending| && Replay(a.pending) == Some(a.task))
    && (!clean ==> Replay(a.pending).None?)
  }

  lemma CreatedIsLive(c: CreateCommand, id: string, eventId: string)
    requires Create(c, id, eventId).Some?
    ensures LiveInv(Create(c, id, eventId).value, true) && Create(c, id, eventId).value.id == id
  {
    hide Create, Legal, Replay;
    CreatedIsLegal(c, id, eventId);
  }

  lemma HandleKeepsLive(a: Agg, r: Request, clean: bool)
    requires LiveInv(a, clean)
    ensures Handle(a, r.command, r.eventId).0.id == a.id
    ensures LiveInv(Handle(a, r.command, r.eventId).0,
                    clean && CleanRequest(a.task, r))
  {
    hide Decide, Apply, ShrinksTitle;
    if Decide(a.task, r.command).Emit? {
      var e := Event(r.eventId, a.id, a.version + 1, Decide(a.task, r.command).payload);
      DecidedEventApplies(a.task, r.command);
      assert (a.pending + [e])[..|a.pending + [e]| - 1] == a.pending;
      assert IsDecision(a.task, e.payload);
      LegalAppend(a.id, a.pending, e);
    }
  }

  lemma {:induction false} RunKeepsLive(a: Agg, rs: seq<Request>)
    requires LiveInv(a, true)
    ensures RunAll(a, rs).id == a.id && LiveInv(RunAll(a, rs), Clean(a, rs))
  {
    hide LiveInv, Handle, CleanRequest;
    if rs != [] {
      var n := |rs| - 1;
      RunKeepsLive(a, rs[..n]);
      HandleKeepsLive(RunAll(a, rs[..n]), rs[n], Clean(a, rs[..n]));
    }
  }

  /**
   After any commands on a created task, rebuilding from its serialized events
   gives the live aggregate field for field, exactly when no accepted update
   shrank the title; otherwise rebuilding raises.
   */
  lemma LiveEqualsReplay(c: CreateCommand, id: string, eventId: string, rs: seq<Request>)
    requires Create(c, id, eventId).Some?
    ensures var a := Create(c, id, eventId).value;
            var live := RunAll(a, rs);
            && Reload(live.pending).Some?
            && (Clean(a, rs) ==> FromEvents(Reload(live.pending).value) == Some(live.(pending := [])))
            && (!Clean(a, rs) ==> FromEvents(Reload(live.pending).value).None?)
  {
    hide Decide, Apply, ShrinksTitle, Clean, RunAll, Create;
    var a := Create(c, id, eventId).value;
    CreatedIsLive(c, id, eventId);
    RunKeepsLive(a, rs);
    var live := RunAll(a, rs);
    ReloadIsIdentity(live.pending);
    SortOfAscending(live.pending);
    if Clean(a, rs) {
      RebuildLegal(id, live.pending);
    }
  }
}
