/**
 Two ways in which a cached object parts from what is stored, each reached in a
 few calls from any state of the repository that holds a live cached task.
 */
module CacheLimits {
  import opened Wrappers
  import opened TaskModel
  import opened TaskHistory
  import opened EventLog
  import opened WriterProtocol
  import opened ProtocolLimits
  import opened CachedRuns

  /** A title of four characters, two of them spaces. */
  const SHRINKING := TaskModel.Update("t", Some(" ab "), None, None, None, None, "ana")

  /** After such an update the cached object is no longer the replay of its log and its unsaved events, and the cache still serves it. */
  lemma ShrunkEntryIsNoReplay(r: Repo, id: string, eventId: string)
    requires RepoInv(r) && id in r.cache && r.cache[id] in r.s.writers
    requires !r.s.writers[r.cache[id]].agg.task.isDeleted
    ensures var r' := CachedRuns.Apply(r, CachedRuns.Command(r.cache[id], SHRINKING, eventId));
      && RepoInv(r') && r'.cache == r.cache && CacheEntryOk(r', id) && !IsReplay(r', id)
  {
    hide RepoInv, EventsOf, Decide, ShrinksTitle, TaskModel.Apply, Replay, IsReplay;
    var w := r.cache[id];
    var call := CachedRuns.Command(w, SHRINKING, eventId);
    CallKeepsInv(r, call);
    EntryOk(CachedRuns.Apply(r, call), id);
    ShrinkingCommandExists(r.s.writers[w].agg.task);
    StepFails(r.s, Run(w, SHRINKING, eventId), w);
  }

  /** Deleting the cached task, saving and committing. */
  function Deleted(r: Repo, w: nat, eventId: string): seq<Repo> {
    var r1 := CachedRuns.Apply(r, CachedRuns.Command(w, Delete("t", "ana", None), eventId));
    var r2 := CachedRuns.Apply(r1, BeginSave(w, None));
    var r3 := CachedRuns.Apply(r2, FinishSave(w));
    [r, r1, r2, r3, CachedRuns.Apply(r3, Committed(w))]
  }

  /** The deletion is stored and a rebuild finds nothing, but the cache goes on serving the task. */
  lemma DeletedStaysVisible(r: Repo, id: string, eventId: string)
    requires RepoInv(r) && id in r.cache && r.cache[id] in r.s.writers && NewId(r.s.rows, eventId)
    requires var wr := r.s.writers[r.cache[id]];
      wr.phase.Holding? && wr.agg.pending == [] && !wr.agg.task.isDeleted
    ensures var w, rs := r.cache[id], Deleted(r, r.cache[id], eventId);
      && DisciplinedCall(rs[1], BeginSave(w, None)) && DisciplinedCall(rs[3], Committed(w))
      && RepoInv(rs[4]) && id in rs[4].cache && rs[4].cache[id] == w && w in rs[4].s.writers
      && rs[4].s.writers[w].agg.pending == [] && rs[4].s.writers[w].agg.task.isDeleted
      && Rebuilt(rs[4], id) == None
  {
    hide RepoInv, EventsOf, Decide, TaskModel.Apply, FromEvents, GetEvents, BatchFits, CurrentVersion;
    var w, rs := r.cache[id], Deleted(r, r.cache[id], eventId);
    DeletionIsStored(r, id, eventId);
    CallKeepsInv(r, CachedRuns.Command(w, Delete("t", "ana", None), eventId));
    CallKeepsInv(rs[1], BeginSave(w, None));
    CallKeepsInv(rs[2], FinishSave(w));
    CallKeepsInv(rs[3], Committed(w));
    EntryOk(rs[4], id);
  }

  lemma EntryIsUpToDate(r: Repo, id: string)
    requires RepoInv(r) && id in r.cache && r.cache[id] in r.s.writers
    requires r.s.writers[r.cache[id]].phase.Holding? && r.s.writers[r.cache[id]].agg.pending == []
    ensures Inv(r.s) && r.s.writers[r.cache[id]].agg.id == id && UpToDate(r.s, r.cache[id], EventsOf(r.s.rows, id))
  {
    hide Legal, Replay, EventsOf, UniqueRows;
    EntriesAreFresh(r);
    assert WriterOk(r.s, r.cache[id]);
  }

  /** The first three calls: the deletion is saved, and the object is not marked yet. */
  lemma DeletionIsStored(r: Repo, id: string, eventId: string)
    requires RepoInv(r) && id in r.cache && r.cache[id] in r.s.writers && NewId(r.s.rows, eventId)
    requires var wr := r.s.writers[r.cache[id]];
      wr.phase.Holding? && wr.agg.pending == [] && !wr.agg.task.isDeleted
    ensures var w, rs := r.cache[id], Deleted(r, r.cache[id], eventId);
      && rs[3].s == RunSaved(r.s, w, Delete("t", "ana", None), eventId)
      && id in rs[3].cache && rs[3].cache[id] == w && w in rs[3].s.writers
      && var wr := rs[3].s.writers[w];
         wr.phase.Holding? && |wr.agg.pending| == 1 && wr.stored == 1 && wr.agg.task.isDeleted && wr.agg.id == id
  {
    hide RepoInv, EventsOf, FromEvents, GetEvents, BatchFits, CurrentVersion, Inv, Legal, Replay;
    var w := r.cache[id];
    EntryIsUpToDate(r, id);
    UpToDateWriter(r.s, w, EventsOf(r.s.rows, id));
    RunAndSave(r.s, w, Delete("t", "ana", None), eventId);
    CacheOfSave(r, w, id, eventId);
  }

  /** Saving object `w` of task `id` cannot lose its cache entry. */
  lemma CacheOfSave(r: Repo, w: nat, id: string, eventId: string)
    requires id in r.cache && r.cache[id] == w && w in r.s.writers && r.s.writers[w].agg.id == id
    ensures var rs := Deleted(r, w, eventId);
      rs[3].s == RunSaved(r.s, w, Delete("t", "ana", None), eventId) && id in rs[3].cache && rs[3].cache[id] == w
  {
    hide BatchFits, CurrentVersion, Decide, TaskModel.Apply;
  }
}
