/** The bulk operation saga: one parallel step over the given tasks and a summary of its results. */
module BulkWorkflow {
  import opened Wrappers
  import opened TaskEvents
  import opened SagaSteps
  import opened SagaInstances
  import opened ParallelSteps

  const PREFIX := "result_"

  predicate IsResultKey(k: string) {
    |k| >= 7 && k[..7] == PREFIX
  }

  /** The task id in a result key. */
  function TaskOf(k: string): string {
    if |k| >= 7 then k[7..] else ""
  }

  function ResultKey(taskId: string): (k: string)
    ensures k == "result_" + taskId
    ensures IsResultKey(k) && TaskOf(k) == taskId
    ensures forall other :: IsResultKey(other) && TaskOf(other) == taskId ==> other == k
  {
    assert forall other :: IsResultKey(other) ==> other == PREFIX + TaskOf(other) by {
      forall other | IsResultKey(other) ensures other == PREFIX + TaskOf(other) {
        assert other == other[..7] + other[7..];
      }
    }
    PREFIX + taskId
  }

  // ---------- the sub-steps ----------

  function TaskResult(taskId: string, operation: string, ctx: Context): Json {
    JObject(
      if operation == "archive" then map["task_id" := JString(taskId), "archived" := JBool(true)]
      else if operation == "delete" then map["task_id" := JString(taskId), "deleted" := JBool(true)]
      else if operation == "reassign" then
        map["task_id" := JString(taskId), "reassigned" := JBool(true), "new_assignee" := Get(ctx, "new_assignee_id", JNull)]
      else map["task_id" := JString(taskId), "processed" := JBool(true)])
  }

  function ProcessTask(taskId: string, operation: string, ctx: Context): Context {
    map[ResultKey(taskId) := TaskResult(taskId, operation, ctx)]
  }

  /** One sub-step; it touches no service. */
  function SubStep<W>(taskId: string, operation: string): Step<W> {
    Step("process_" + taskId, 2, 1.0, 30.0, true,
         (ctx: Context, w: W, t: nat) => Returned(ProcessTask(taskId, operation, ctx), w, 0.0), None)
  }

  function SubSteps<W>(taskIds: seq<string>, operation: string): seq<Step<W>> {
    seq(|taskIds|, i requires 0 <= i < |taskIds| => SubStep<W>(taskIds[i], operation))
  }

  function SubOutcomes(taskIds: seq<string>, operation: string, ctx: Context): seq<Option<Context>> {
    seq(|taskIds|, i requires 0 <= i < |taskIds| => Some(ProcessTask(taskIds[i], operation, ctx)))
  }

  // ---------- the summary ----------

  predicate TrueAt(o: map<string, Json>, key: string) {
    var v := Get(o, key, JBool(false));
    v == JBool(true)
  }

  /** The expression counted by the summary; on anything but an object it raises. */
  predicate Succeeds(r: Json)
    requires r.JObject?
  {
    TrueAt(r.fields, "processed") || TrueAt(r.fields, "archived") || TrueAt(r.fields, "deleted")
  }

  function Results(ctx: Context): Context {
    map k | k in ctx && IsResultKey(k) :: ctx[k]
  }

  function Summary(total: nat, succeeded: nat): Context {
    map["batch_summary" := JObject(map["total_processed" := JInt(total), "succeeded" := JInt(succeeded), "failed" := JInt(0)])]
  }

  function GenerateSummary(ctx: Context): Option<Context> {
    var results := Results(ctx);
    if forall k :: k in results ==> results[k].JObject? then
      Some(Summary(|results|, |set k | k in results && Succeeds(results[k])|))
    else None
  }

  // ---------- the saga ----------

  function AsAttempt<W>(o: Option<Context>, w: W): Attempt<W> {
    if o.Some? then Returned(o.value, w, 0.0) else Raised(w, 0.0)
  }

  /** The parallel step; none of its sub-steps has a compensation. */
  function BulkStep<W>(taskIds: seq<string>, operation: string, schedule: nat -> Schedule): Step<W> {
    ParallelStep("bulk_" + operation, SubSteps<W>(taskIds, operation), 3, 1.0, 30.0,
                 Some((ctx: Context, w: W, t: nat) => Finished(w)), schedule)
  }

  function SummaryStep<W>(): Step<W> {
    Step("generate_summary", 1, 1.0, 10.0, true,
         (ctx: Context, w: W, t: nat) => AsAttempt(GenerateSummary(ctx), w), None)
  }

  function BulkSaga<W>(taskIds: seq<string>, operation: string, schedule: nat -> Schedule): Saga<W> {
    Saga("task_bulk_" + operation, [BulkStep<W>(taskIds, operation, schedule), SummaryStep<W>()], None, None)
  }

  // ---------- counting ----------

  ghost function IdSet(taskIds: seq<string>): set<string> {
    set i | 0 <= i < |taskIds| :: taskIds[i]
  }

  predicate HasTurn(turns: seq<Turn>, i: nat) {
    exists j :: 0 <= j < |turns| && turns[j].sub == i
  }

  /** Whenever the parallel step is attempted, each of its `n` sub-steps, which await nothing, gets a turn. */
  ghost predicate Fair(schedule: nat -> Schedule, n: nat) {
    forall t: nat, i: nat :: i < n ==> HasTurn(schedule(t).turns, i)
  }

  /** Each sub-step succeeds at its first turn, whatever the others do. */
  lemma {:induction false} SubStepsRun<W>(taskIds: seq<string>, operation: string, ctx: Context, w: W, turns: seq<Turn>)
    ensures var s := Play(SubSteps<W>(taskIds, operation), ctx, w, turns);
      && s.world == w
      && forall i :: 0 <= i < |taskIds| ==>
           s.runs[i] == if HasTurn(turns, i) then Ended(1, Some(ProcessTask(taskIds[i], operation, ctx))) else Trying(0)
  {
    hide ProcessTask;
    if turns != [] {
      var before, last := turns[..|turns| - 1], turns[|turns| - 1];
      SubStepsRun(taskIds, operation, ctx, w, before);
      forall i: nat ensures HasTurn(turns, i) <==> HasTurn(before, i) || last.sub == i {
        assert turns == before + [last];
        if HasTurn(before, i) {
          var j :| 0 <= j < |before| && before[j].sub == i;
          assert turns[j].sub == i;
        }
      }
    }
  }

  /** `m` has one entry for each distinct task id, holding that task's result. */
  ghost predicate ResultsOf(m: Context, taskIds: seq<string>, operation: string, ctx: Context) {
    && (forall k :: k in m <==> IsResultKey(k) && TaskOf(k) in taskIds)
    && (forall k :: k in m ==> m[k] == TaskResult(TaskOf(k), operation, ctx))
    && |m| == |IdSet(taskIds)|
  }

  lemma OneMoreEntry(m: Context, before: seq<string>, last: string, operation: string, ctx: Context)
    requires ResultsOf(m, before, operation, ctx)
    ensures ResultsOf(m[ResultKey(last) := TaskResult(last, operation, ctx)], before + [last], operation, ctx)
  {
    hide TaskResult, IsResultKey, TaskOf, IdSet;
    var all := before + [last];
    assert forall id :: id in all <==> id in before || id == last;
    IdSetGrows(before, last);
  }

  lemma OneMoreResult(m: Context, before: seq<string>, last: string, operation: string, ctx: Context)
    requires ResultsOf(m, before, operation, ctx)
    ensures ResultsOf(m + ProcessTask(last, operation, ctx), before + [last], operation, ctx)
  {
    hide TaskResult, ResultsOf;
    OneMoreEntry(m, before, last, operation, ctx);
    assert m + ProcessTask(last, operation, ctx) == m[ResultKey(last) := TaskResult(last, operation, ctx)];
  }

  lemma IdSetGrows(before: seq<string>, last: string)
    ensures IdSet(before + [last]) == IdSet(before) + {last}
    ensures |IdSet(before + [last])| == |IdSet(before)| + (if last in before then 0 else 1)
  {
    var all := before + [last];
    forall id ensures id in IdSet(all) <==> id in IdSet(before) || id == last {
      assert id in IdSet(before) <==> id in before;
      assert id in IdSet(all) <==> id in all;
    }
    if last in before {
      assert IdSet(all) == IdSet(before);
    }
  }

  lemma {:induction false} MergedResults(taskIds: seq<string>, operation: string, ctx: Context)
    ensures var m := MergeAll(SubOutcomes(taskIds, operation, ctx));
            m.Some? && ResultsOf(m.value, taskIds, operation, ctx)
  {
    hide ProcessTask, ResultsOf;
    var outcomes := SubOutcomes(taskIds, operation, ctx);
    if taskIds == [] {
      NoResults(operation, ctx);
    } else {
      var n := |taskIds| - 1;
      assert outcomes[..n] == SubOutcomes(taskIds[..n], operation, ctx);
      MergedResults(taskIds[..n], operation, ctx);
      OneMoreResult(MergeAll(outcomes[..n]).value, taskIds[..n], taskIds[n], operation, ctx);
      assert taskIds == taskIds[..n] + [taskIds[n]];
    }
  }

  lemma NoResults(operation: string, ctx: Context)
    ensures ResultsOf(map[], [], operation, ctx)
  {
    assert IdSet([]) == {};
  }

  /** A task result counts as a success exactly when the operation is not "reassign". */
  lemma SucceedsIff(taskId: string, operation: string, ctx: Context)
    ensures TaskResult(taskId, operation, ctx).JObject?
    ensures Succeeds(TaskResult(taskId, operation, ctx)) <==> operation != "reassign"
  {
    assert "archive"[0] != "delete"[0];
    assert "processed"[0] != "reassigned"[0];
    assert "archived"[0] != "task_id"[0] && "deleted"[0] != "task_id"[0];
    assert "archive" != "reassign" && "delete" != "reassign";
  }

  lemma OnlyResultsCount(before: Context, merged: Context, stepName: string)
    requires forall k :: k in before ==> !IsResultKey(k)
    requires forall k :: k in merged ==> IsResultKey(k)
    ensures Results((before + merged)["current_step" := JString(stepName)]) == merged
  {
    assert "current_step"[0] != PREFIX[0];
    assert !IsResultKey("current_step");
  }

  /** The summary over a context without earlier results, after merging the bulk results into it. */
  lemma SummaryCounts(taskIds: seq<string>, operation: string, ctx: Context, before: Context, merged: Context)
    requires forall k :: k in before ==> !IsResultKey(k)
    requires MergeAll(SubOutcomes(taskIds, operation, ctx)) == Some(merged)
    ensures var n := |IdSet(taskIds)|;
      GenerateSummary((before + merged)["current_step" := JString("generate_summary")])
        == Some(Summary(n, if operation == "reassign" then 0 else n))
    ensures var n, summary := |IdSet(taskIds)|, GenerateSummary((before + merged)["current_step" := JString("generate_summary")]);
      summary.Some? && SummaryIs(summary.value, n, if operation == "reassign" then 0 else n)
  {
    hide MergeAll, TaskResult, Succeeds, IdSet, IsResultKey, TaskOf, Summary, SubOutcomes, SummaryIs;
    MergedResults(taskIds, operation, ctx);
    var c := (before + merged)["current_step" := JString("generate_summary")];
    OnlyResultsCount(before, merged, "generate_summary");
    forall k | k in merged
      ensures merged[k].JObject? && (Succeeds(merged[k]) <==> operation != "reassign")
    {
      SucceedsIff(TaskOf(k), operation, ctx);
    }
    SummaryHas(|IdSet(taskIds)|, if operation == "reassign" then 0 else |IdSet(taskIds)|);
    if operation == "reassign" {
      assert (set k | k in merged && merged[k].JObject? && Succeeds(merged[k])) == {};
      assert (set k | k in merged && Succeeds(merged[k])) == {};
    } else {
      assert (set k | k in merged && Succeeds(merged[k])) == merged.Keys;
    }
  }

  lemma BulkStepRuns<W>(taskIds: seq<string>, operation: string, schedule: nat -> Schedule, ctx: Context, w: W, clock: nat)
    requires Fair(schedule, |taskIds|)
    ensures var m := MergeAll(SubOutcomes(taskIds, operation, ctx));
            var r := RunStep(BulkStep<W>(taskIds, operation, schedule), ctx, w, clock);
            m.Some? && r.outcome == m && r.world == w
  {
    hide MergeAll, Play, SubOutcomes, HasTurn;
    var steps := SubSteps<W>(taskIds, operation);
    var runs := Play(steps, ctx, w, schedule(clock).turns).runs;
    MergedResults(taskIds, operation, ctx);
    SubStepsRun(taskIds, operation, ctx, w, schedule(clock).turns);
    AttemptReturnsIff(steps, schedule, ctx, w, clock);
    assert OutcomesOf(runs) == SubOutcomes(taskIds, operation, ctx) by {
      OutcomesAre(taskIds, operation, ctx, runs);
    }
  }

  lemma OutcomesAre(taskIds: seq<string>, operation: string, ctx: Context, runs: seq<Run>)
    requires |runs| == |taskIds|
    requires forall i :: 0 <= i < |taskIds| ==> runs[i] == Ended(1, Some(ProcessTask(taskIds[i], operation, ctx)))
    ensures OutcomesOf(runs) == SubOutcomes(taskIds, operation, ctx)
  {
    hide ProcessTask;
  }

  /** The context holds a summary with these two numbers and no failures. */
  predicate SummaryIs(ctx: Context, total: nat, succeeded: nat) {
    && "batch_summary" in ctx && ctx["batch_summary"].JObject?
    && var o := ctx["batch_summary"].fields;
       && o.Keys == {"total_processed", "succeeded", "failed"}
       && o["total_processed"] == JInt(total) && o["succeeded"] == JInt(succeeded) && o["failed"] == JInt(0)
  }

  lemma SummaryReads(ctx: Context, total: nat, succeeded: nat)
    requires "batch_summary" in ctx && ctx["batch_summary"] == Summary(total, succeeded)["batch_summary"]
    ensures SummaryIs(ctx, total, succeeded)
  {
    assert "total_processed"[0] != "succeeded"[0] && "failed"[0] != "total_processed"[0] && "failed"[0] != "succeeded"[0];
  }

  lemma SummaryHas(total: nat, succeeded: nat)
    ensures SummaryIs(Summary(total, succeeded), total, succeeded)
  {
    SummaryReads(Summary(total, succeeded), total, succeeded);
  }

  /** The context holds the task's own result: its id, and that the operation was done. */
  predicate ResultIs(ctx: Context, taskId: string, operation: string, newAssignee: Json) {
    var key := "result_" + taskId;
    && key in ctx && ctx[key].JObject?
    && var o := ctx[key].fields;
       && "task_id" in o && o["task_id"] == JString(taskId)
       && (operation == "archive" ==> "archived" in o && o["archived"] == JBool(true))
       && (operation == "delete" ==> "deleted" in o && o["deleted"] == JBool(true))
       && (operation == "reassign" ==>
             "reassigned" in o && o["reassigned"] == JBool(true) && "new_assignee" in o && o["new_assignee"] == newAssignee)
       && (operation !in {"archive", "delete", "reassign"} ==> "processed" in o && o["processed"] == JBool(true))
  }

  lemma ResultReads(ctx: Context, taskId: string, operation: string, before: Context)
    requires "result_" + taskId in ctx && ctx["result_" + taskId] == TaskResult(taskId, operation, before)
    ensures ResultIs(ctx, taskId, operation, Get(before, "new_assignee_id", JNull))
  {
    assert "archived"[0] != "task_id"[0] && "deleted"[0] != "task_id"[0] && "processed"[0] != "task_id"[0];
    assert "reassigned"[0] != "task_id"[0] && "new_assignee"[0] != "task_id"[0] && "new_assignee"[0] != "reassigned"[0];
    assert "archive"[0] != "delete"[0] && "archive"[0] != "reassign"[0] && "delete"[0] != "reassign"[0];
  }

  /** The results stay where the merge put them: neither the engine nor the summary writes such a key. */
  lemma ResultsStay(taskIds: seq<string>, operation: string, ctx: Context, merged: Context, final: Context, id: string)
    requires ResultsOf(merged, taskIds, operation, ctx) && id in taskIds
    requires forall k :: IsResultKey(k) ==> (k in final <==> k in merged) && (k in merged ==> final[k] == merged[k])
    ensures ResultIs(final, id, operation, Get(ctx, "new_assignee_id", JNull))
  {
    hide TaskResult, ResultIs;
    var k := ResultKey(id);
    assert k in merged && merged[k] == TaskResult(id, operation, ctx);
    ResultReads(final, id, operation, ctx);
  }

  lemma SummaryRuns<W>(ctx: Context, w: W, clock: nat)
    requires GenerateSummary(ctx).Some?
    ensures RunStep(SummaryStep<W>(), ctx, w, clock).outcome == GenerateSummary(ctx)
  {
    hide GenerateSummary;
  }

  /**
   The whole bulk saga, from a context without earlier results and whatever the
   order of its sub-steps: it completes, and its summary counts the distinct task ids and as many successes, except that
   "reassign" always reports none.
   */
  lemma BulkIsCounted<W>(taskIds: seq<string>, operation: string, schedule: nat -> Schedule,
                         ctx: Context, world: W, clock: nat)
    requires forall k :: k in ctx ==> !IsResultKey(k)
    requires Fair(schedule, |taskIds|)
    ensures var r, n := RunSaga(BulkSaga<W>(taskIds, operation, schedule), ctx, world, clock), |IdSet(taskIds)|;
      && r.status == Completed
      && SummaryIs(r.context, n, if operation == "reassign" then 0 else n)
      && forall id :: id in taskIds ==> ResultIs(r.context, id, operation, Get(ctx, "new_assignee_id", JNull))
  {
    hide RunStep, MergeAll, GenerateSummary, IdSet, Fair, SubOutcomes;
    assert "current_step"[0] != PREFIX[0];
    assert !IsResultKey("current_step");
    var saga := BulkSaga<W>(taskIds, operation, schedule);
    var c1 := ctx["current_step" := JString(saga.steps[0].name)];
    var r1 := RunStep(saga.steps[0], c1, world, clock);
    BulkStepRuns(taskIds, operation, schedule, c1, world, clock);
    var merged := r1.outcome.value;
    SummaryCounts(taskIds, operation, c1, c1, merged);
    var c2 := (c1 + merged)["current_step" := JString("generate_summary")];
    SummaryRuns(c2, r1.world, r1.clock);
    var r2 := RunStep(saga.steps[1], c2, r1.world, r1.clock);
    assert r2.outcome == GenerateSummary(c2);
    assert RunSteps(saga.steps, 1, c1 + merged, r1.world, r1.clock)
        == RunSteps(saga.steps, 2, c2 + r2.outcome.value, r2.world, r2.clock);
    var final, n := c2 + r2.outcome.value, |IdSet(taskIds)|;
    assert RunSaga(saga, ctx, world, clock).context == final;
    BulkContextReads(taskIds, operation, ctx, c1, merged, c2, final, n, if operation == "reassign" then 0 else n);
  }

  /** What can be read in the final context. */
  lemma BulkContextReads(taskIds: seq<string>, operation: string, ctx: Context, c1: Context, merged: Context,
                         c2: Context, final: Context, total: nat, succeeded: nat)
    requires forall k :: k in ctx ==> !IsResultKey(k)
    requires exists name :: c1 == ctx["current_step" := JString(name)]
    requires c2 == (c1 + merged)["current_step" := JString("generate_summary")]
    requires final == c2 + Summary(total, succeeded)
    requires MergeAll(SubOutcomes(taskIds, operation, c1)) == Some(merged)
    ensures SummaryIs(final, total, succeeded)
    ensures forall id :: id in taskIds ==> ResultIs(final, id, operation, Get(ctx, "new_assignee_id", JNull))
  {
    hide MergeAll, SubOutcomes, ResultIs, SummaryIs, TaskResult, ResultsOf, IsResultKey, Summary;
    MergedResults(taskIds, operation, c1);
    SummaryIsLast(c2, final, total, succeeded);
    SummaryReads(final, total, succeeded);
    NoMoreResultKeys(ctx, c1, merged, c2, final, total, succeeded);
    forall id | id in taskIds ensures ResultIs(final, id, operation, Get(ctx, "new_assignee_id", JNull)) {
      ResultsStay(taskIds, operation, c1, merged, final, id);
    }
  }

  lemma SummaryIsLast(c2: Context, final: Context, total: nat, succeeded: nat)
    requires final == c2 + Summary(total, succeeded)
    ensures "batch_summary" in final && final["batch_summary"] == Summary(total, succeeded)["batch_summary"]
  {
  }

  /** Neither the engine's key nor the summary's is a result key, or the new assignee's. */
  lemma NoMoreResultKeys(ctx: Context, c1: Context, merged: Context, c2: Context, final: Context, total: nat, succeeded: nat)
    requires forall k :: k in ctx ==> !IsResultKey(k)
    requires exists name :: c1 == ctx["current_step" := JString(name)]
    requires c2 == (c1 + merged)["current_step" := JString("generate_summary")]
    requires final == c2 + Summary(total, succeeded)
    ensures forall k :: IsResultKey(k) ==> (k in final <==> k in merged) && (k in merged ==> final[k] == merged[k])
    ensures Get(c1, "new_assignee_id", JNull) == Get(ctx, "new_assignee_id", JNull)
  {
    assert "current_step"[0] != PREFIX[0] && "batch_summary"[0] != PREFIX[0];
    assert !IsResultKey("current_step") && !IsResultKey("batch_summary");
    assert "current_step"[0] != "new_assignee_id"[0];
    assert Summary(total, succeeded).Keys == {"batch_summary"};
    hide IsResultKey, Summary;
    forall k | IsResultKey(k)
      ensures (k in final <==> k in merged) && (k in merged ==> final[k] == merged[k])
    {
      assert k != "current_step" && k !in Summary(total, succeeded) && k !in ctx && k !in c1;
    }
  }
}
