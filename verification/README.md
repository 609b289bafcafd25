# Task service: event sourcing, unit of work, sagas and subscriber

A Dafny model of the core of an event-sourced task service, with proofs of what
the code is meant to guarantee. Objects that the service updates in place are
classes whose methods are proved against pure functions; the results are about
those functions, over every input, every run and every interleaving.

`dafny verify dfyconfig.toml` checks everything.

## What is modelled

**Event-sourced tasks.** `TaskModel` says what a command decides (`Decide`),
what an event does (`Apply`), and how state is rebuilt (`Replay`,
`FromEvents`), and `CommandEffects` what every command does, in terms of the
command and the task alone. `TaskAggregates.TaskAggregate` is the object with its
mutable fields. `TaskEvents` writes events to JSON objects and reads them back.
`TaskHistory.Legal` is the central notion: a log is legal if it starts with a
valid creation, carries versions 1..n, and every later event is a decision
against the replay of exactly the events before it.

**Storage and concurrency.** `EventStores.EventStore` is the table, row by row,
with its two unique indexes; `EventLog` is its meaning. `WriterProtocol` is a
transition system of any number of writers in which the version check and the
insert of one save are separate steps that anybody may come between.
`UnitsOfWork.UnitOfWork` commits several aggregates and publishes; `CommitRuns`
runs any number of such commits with everybody else's steps in between.
`TaskRepositories.TaskRepository` puts a cache of live objects in front of the
table, and `CachedRuns` follows that cache over whole runs.

**Sagas.** `SagaSteps` is the retry loop, `SagaInstances` the forward run and
the compensation, `SagaRestoration` the theorem about worlds, and
`OnboardingWorkflow` its instance. `ParallelSteps`, `BulkWorkflow` and
`SagaOrchestrators` sit on top.

**Subscriber.** `EventSubscribers` is the consume loop with commits, dead
letters, crashes and restarts.

The write protocol itself rests on two rules (`WriterProtocol.Disciplined`):
events are marked as committed only once all of them are stored, with no save of
their aggregate under way; and a caller who passes an expected version of its own
does so only with an aggregate all of whose events could be applied.
`CommitRuns` derives the first rule from private ownership alone: while a unit
of work commits, nobody else steps on the objects it tracks. Its
`DefaultVersionsAreSafe` and `AnyVersionsAreSafeForCleanCommands` say when the
second rule needs no attention. `ProtocolLimits` shows what breaking a rule does:
with two up-to-date objects of one live task (first rule), or with one
(second rule), a few steps lead to a stored log that is no longer legal.

## Where the code falls short of what it promises

- An update whose new title has fewer than three characters once stripped is
  accepted, but the event it raises cannot be applied. With the default expected
  version it is never stored; with a caller's own version it is, and the task
  can then no longer be rebuilt (`TaskModel.DecidedEventApplies`,
  `ProtocolLimits.SavedLegallyIff`, `ProtocolLimits.FailedEventCanBeStored`).
- A handler that saves through the repository inside a unit of work that tracks
  the same aggregate has its commit refused (`UnitsOfWork.SecondSaveRefused`).
- A refused commit keeps the rows of the aggregates saved before the refusal
  (`UnitsOfWork.RefusedCommitStores`).
- A deleted task stays visible through the cache (`CachedRuns.HitAgreesIff`,
  `CacheLimits.DeletedStaysVisible`).
- A cached task that accepted such a shrinking update is no longer the replay of
  its log and its unsaved events, and the cache goes on serving it
  (`CachedRuns.CacheInvariant`, `CacheLimits.ShrunkEntryIsNoReplay`).
- A cancel that comes while `on_success` or `on_failure` runs, or while the
  orchestrator waits for its lock after the run, is never overwritten: a saga
  that completed or was compensated then has the status CANCELLED
  (`SagaInstances.CancelledIff`, `SagaInstances.CompletedYetCancelled`,
  `SagaOrchestrators.CancelOnlyWritesStatus`).
- `change_status` to the status a task already has raises, although a later
  line means to ignore it (`TaskModel.SameStatusIsRefused`).
- A saga without steps whose `on_success` raises lets an exception out and
  stays COMPLETED (`SagaInstances.StatusTellsOutcome`).
- The bulk summary never counts a reassignment as a success
  (`BulkWorkflow.BulkIsCounted`).
- A rejected message whose dead-letter send fails too is lost once a later
  offset is committed, unless a restart delivers it again before that
  (`EventSubscribers.LostIff`, `EventSubscribers.MessageIsLost`).
- A history limit of zero returns the whole history
  (`SagaOrchestrators.HistoryIsRecent`).

`raise_event` assigns to fields of events that are frozen dataclasses; the model
does what those lines intend: the aggregate's id, and its version plus one.

## Model

| member | source | states |
|---|---|---|
| WriterProtocol.Serializability | src/services/task_service/infrastructure/event_store.py:28-60 | Under every interleaving of any number of writers that keeps the two rules, every stored log is one legal sequential history, and no two rows share an event id or the version of one task |
| WriterProtocol.StepKeepsInv | src/services/task_service/infrastructure/event_store.py:38-52 | Each protocol step (create, load, command, version check, batch insert, mark, drop) keeps the invariant: all logs legal, and each writer's object the replay of a log prefix and its own applied events |
| WriterProtocol.RunKeepsInv | src/services/task_service/infrastructure/event_store.py:28-60 | The invariant holds after every disciplined run from any state that has it |
| WriterProtocol.LogsAreAppendOnly | src/services/task_service/infrastructure/event_store.py:50-52 | Over any run, a stored log only grows at its end |
| WriterProtocol.ExpectedVersionSound | src/services/task_service/infrastructure/repository.py:75-90 | Whatever version the caller gave and however the log grew after the check, an accepted insert extends exactly the log the events were built on, whose length is that version, and touches no other log |
| WriterProtocol.AcceptedIff | src/services/task_service/infrastructure/event_store.py:213-215 | A checked batch is accepted if and only if nothing was stored for the task since the object was built and its event ids are new; a stale object is always refused |
| WriterProtocol.AcceptedOnlyAtEnd | src/services/task_service/infrastructure/event_store.py:213-215 | The unique index takes a first event only if the object saw the whole log and has stored nothing of its batch |
| WriterProtocol.ReplayOfPending | src/services/task_service/domain/aggregates.py:270-283 | A writer's state is the replay of the log prefix it was built on followed by its unsaved events, if and only if none of these failed to apply |
| WriterProtocol.FailedIff | src/libs/common/unit_of_work.py:28-34 | Over any run, an object holds an event that failed to apply if and only if it accepted a title-shrinking command since it was built or last marked |
| WriterProtocol.CheckKeeps | src/services/task_service/infrastructure/repository.py:80-82 | With a failed event pending, the default expected version never passes the check; any check that passes leaves a batch built on the log |
| WriterProtocol.ResaveRejected | src/libs/common/unit_of_work.py:136-144 | While a stored batch is still pending, a save with the default version fails its check and no insert adds a row |
| WriterProtocol.StoredAtMostOnce | src/libs/common/unit_of_work.py:136-144 | However often and in whatever interleaving a batch is saved again, it is stored once; every later attempt leaves the table as it is |
| WriterProtocol.DefaultsAreDisciplined | src/libs/common/unit_of_work.py:140-144 | A run whose marks follow the rule for marks, and whose saves use default versions, is disciplined whatever its commands |
| WriterProtocol.CleanRunsAreDisciplined | src/services/task_service/infrastructure/repository.py:66-90 | So is a run whose marks follow that rule and whose commands shrink no title, with any expected versions; and no object in it holds a failed event |
| CommitRuns.OwnershipSuffices | src/libs/common/unit_of_work.py:126-183 | Under every interleaving of any number of commits, each over several aggregates, with each other and with other writers, private ownership alone makes every mark come only when all pending events are stored and no save is under way |
| CommitRuns.CommitStoresAll | src/libs/common/unit_of_work.py:135-172 | With private ownership and default versions, a commit that gets to marking has stored each tracked object's pending events in order at the place of the log they were built on, whatever others did in between |
| CommitRuns.CommitIsSaveAll | src/libs/common/unit_of_work.py:135-145 | A commit that nobody comes between stores what the object's `commit` stores, and is refused exactly when that is |
| CommitRuns.BeginBegins | src/libs/common/unit_of_work.py:126-135 | A unit whose objects are free begins to save them |
| CommitRuns.MarksAll | src/libs/common/unit_of_work.py:170-172 | A commit that has saved everything clears the events of each tracked object in turn and changes nothing else of them |
| CommitRuns.DefaultVersionsAreSafe | src/libs/common/unit_of_work.py:140-144 | With private ownership and the versions that commit computes, any commands at all keep every log legal |
| CommitRuns.AnyVersionsAreSafeForCleanCommands | src/services/task_service/infrastructure/repository.py:66-90 | With private ownership and commands that shrink no title, saves with any expected versions keep every log legal |
| WriterProtocol.StoredLegallyIff | src/libs/common/unit_of_work.py:28-34 | If the indexes accept all of an object's unsaved events, the log stays legal if and only if none of them failed to apply |
| ProtocolLimits.SavedLegallyIff | src/services/task_service/domain/aggregates.py:83-122 | A decided event saved at the stored version keeps the log legal if and only if its command does not shrink the title |
| ProtocolLimits.FailedEventCanBeStored | src/libs/common/unit_of_work.py:28-34 | For every up-to-date object and shrinking update: a default save is refused, and a save with the stored version leaves a log that is not legal and cannot be rebuilt |
| ProtocolLimits.ShrinkingCommandExists | src/services/task_service/domain/value_objects.py:120-134 | Every live task accepts such an update |
| ProtocolLimits.ClearedEventBreaksLog | src/libs/common/unit_of_work.py:136-172 | With two up-to-date objects of one live task in any status: if marking clears an assignment that was never stored, two further ordinary saves produce a log that is not legal |
| ProtocolLimits.SaveOne | src/services/task_service/infrastructure/event_store.py:28-60 | Check and insert of one event at the stored version append exactly that row and record it as stored |
| ProtocolLimits.TaskCanBeStored | src/services/task_service/infrastructure/event_store.py:28-60 | From any state of the protocol, every valid creation under a new id can be stored; then its writer and another one that loads it hold the same up-to-date task, the one the command describes |
| LiveReplay.LiveEqualsReplay | src/services/task_service/domain/aggregates.py:187-283 | After any commands, rebuilding from the serialized events gives the live aggregate in every field exactly when no accepted update shrank the title; otherwise rebuilding raises |
| LiveReplay.ReloadIsIdentity | src/services/task_service/infrastructure/event_store.py:159-185 | Writing any events as rows and reading them back gives the same events |
| TaskEvents.EventRoundTrip | src/libs/common/event_bus.py:37-59 | Every event survives `to_dict` and the registered class's `from_dict` |
| TaskEvents.PayloadRoundTrip | src/services/task_service/domain/events.py:12-186 | The data part of each of the six event classes round-trips |
| TaskEvents.ChangesRoundTrip | src/services/task_service/domain/events.py:60-76 | Any set of recorded field changes round-trips, absent fields staying absent |
| TaskEvents.DictSays | src/libs/common/event_bus.py:37-48 | The stored dictionary holds exactly the event's id, aggregate id, type, version and data, each under its key |
| TaskEvents.MissingKeys | src/services/task_service/domain/events.py:35-186 | What each event class reads from data without its keys; an unregistered type reads nothing |
| TaskModel.DecidedEventApplies | src/services/task_service/domain/aggregates.py:83-256 | A decided event can be applied, except if and only if the command shrinks the title below the rule |
| TaskModel.SameStatusIsRefused | src/services/task_service/domain/aggregates.py:143-158 | `change_status` to the present status is always refused |
| CommandEffects.CreateDoes | src/services/task_service/domain/aggregates.py:61-81 | A creation succeeds if and only if its command is valid, and then every field of the task is the command's, in BACKLOG, at version 1, with one unsaved event |
| CommandEffects.UpdateDecides | src/services/task_service/domain/aggregates.py:83-122 | An update is refused if and only if one of the checks, spelled out, fails, records an event if and only if something moves, and names its author |
| CommandEffects.UpdateDoes | src/services/task_service/domain/aggregates.py:218-235 | After a recorded update each given field holds the given value, stripped or lower-cased, a moved priority is counted, and every other field is as it was |
| CommandEffects.UpdateOutcome | src/services/task_service/domain/aggregates.py:83-122 | The same of the aggregate; a refused or empty update leaves it as it was |
| CommandEffects.ChangeStatusDoes | src/services/task_service/domain/aggregates.py:143-158 | A status change is accepted if and only if the task is live and the table allows it, and leads to exactly the status asked for, with its author and reason recorded |
| CommandEffects.ChangePriorityDoes | src/services/task_service/domain/aggregates.py:160-173 | Refused on a deleted task only; a new priority is taken over and counted, with its author recorded |
| CommandEffects.AssignDoes | src/services/task_service/domain/aggregates.py:124-141 | Refused exactly without one of its texts or on a deleted task; a new assignee is taken over and counted, with the old one and the author recorded |
| CommandEffects.DeleteDoes | src/services/task_service/domain/aggregates.py:175-185 | Accepted exactly with its texts and on a live task, and only marks it as deleted, with author and reason recorded |
| CommandEffects.RecordedEvent | src/libs/common/unit_of_work.py:28-34 | A recorded command appends one event with the given id, the aggregate's id and the next version; one that fails to apply leaves state and version |
| TaskModel.ReplaySplit | src/services/task_service/domain/aggregates.py:270-283 | Folding a log is folding a prefix and then the rest from there |
| TaskModel.StatusChange | src/services/task_service/domain/aggregates.py:83-122 | An update records a status change only as an allowed transition from the present status |
| ValueObjects.StrippedTitleRule | src/services/task_service/domain/value_objects.py:120-134 | A valid title stays valid once stripped if and only if three characters remain |
| ValueObjects.Strip | src/services/task_service/domain/value_objects.py:133-134 | Stripping leaves no white space at either end, and nothing only for an all-white text |
| ValueObjects.StripIsASlice | src/services/task_service/domain/value_objects.py:133-134 | What goes is white space at the two ends; everything in between is kept |
| ValueObjects.LowerKeepsLabels | src/services/task_service/domain/value_objects.py:87-99 | Lower-casing keeps labels valid, is idempotent, turns every capital into its small letter and leaves all else, for ASCII letters and digits |
| ValueObjects.LabelRule | src/services/task_service/domain/value_objects.py:92-96 | A label is valid if and only if it has 1 to 50 characters and what is left without hyphens and underscores is not empty and alphanumeric |
| ValueObjects.TransitionTable | src/services/task_service/domain/value_objects.py:46-56 | The allowed transitions, by place on the way: one on, cyclically; one back before DONE; and four shortcuts |
| ValueObjects.EveryStatusIsReachable | src/services/task_service/domain/value_objects.py:46-56 | Every status can be reached from every status in at most five moves |
| TaskHistory.LegalAt | src/services/task_service/domain/aggregates.py:61-185 | In a legal log, event i has version i+1 and is a decision against the replay of exactly the events before it |
| TaskHistory.CreationFirstDeletionLast | src/services/task_service/domain/aggregates.py:258-262 | In a legal log the creation is the first event and only that, and nothing follows a deletion |
| TaskHistory.CreatedIsLegal | src/services/task_service/domain/aggregates.py:61-81 | A created aggregate holds a one-event legal log that replays to it |
| TaskHistory.RebuildLegal | src/services/task_service/domain/aggregates.py:270-283 | Rebuilding from a legal log gives its replay at version n, with nothing unsaved |
| TaskHistory.DecisionFacts | src/services/task_service/domain/aggregates.py:83-256 | A decided event records the observable state before and after it, moves the status only along the table, and counts its priority or assignee change |
| TaskHistory.UndoRecoversCreation | src/services/task_service/domain/aggregates.py:88-173 | Putting back the recorded old values from the last event to the second recovers what was observable at creation |
| TaskHistory.WorkEpisode | src/services/task_service/domain/value_objects.py:46-56 | A task in work or in review went through TODO and later IN_PROGRESS without a DONE since |
| TaskHistory.DoneIsEarned | src/services/task_service/domain/value_objects.py:46-56 | Before every entry to DONE, since creation or the last DONE, lie a TODO and a later IN_PROGRESS, whichever command moved the status |
| TaskHistory.CountersCountChanges | src/services/task_service/domain/value_objects.py:165-191 | The counters equal the number of consecutive states after creation in which priority, or assignee, differs |
| EventOrder.SortSorts | src/services/task_service/domain/aggregates.py:275-279 | Sorting by version gives an ascending permutation of the events |
| EventOrder.FromEventsIgnoresOrder | src/services/task_service/domain/aggregates.py:270-283 | Rebuilding gives the same aggregate for every permutation of a log with distinct versions |
| EventLog.SnapshotThenSuffix | src/services/task_service/infrastructure/event_store.py:103-129 | Folding the first k events and then what `get_events` returns above version k is folding the whole log |
| EventLog.GetEventsOfLegal | src/services/task_service/infrastructure/event_store.py:103-129 | For a legal log, `get_events` above version k returns exactly the events after the k-th, in order |
| EventLog.LegalCurrentVersion | src/services/task_service/infrastructure/event_store.py:62-75 | The stored version of a legal log is its length |
| EventLog.MaxVersion | src/services/task_service/infrastructure/event_store.py:62-75 | The largest version among the events, attained by one of them |
| EventLog.FittingBatchKeepsUnique | src/services/task_service/infrastructure/event_store.py:190-215 | Inserting a batch the indexes accept keeps every pair of rows apart in both indexes |
| EventLog.AppendBatch | src/services/task_service/infrastructure/event_store.py:50-52 | A batch extends the log of its own task by all its events in order, and no other log |
| EventLog.RebuildFromStore | src/services/task_service/infrastructure/repository.py:33-42 | Reading and rebuilding a stored legal log gives its replay at its length |
| EventStores.EventStore.SaveEvents | src/services/task_service/infrastructure/event_store.py:28-60 | Nothing to do, a version conflict, an index refusal, or all events stored in order; the table is otherwise untouched |
| EventStores.EventStore.ReadCurrentVersion | src/services/task_service/infrastructure/event_store.py:62-75 | The scan returns the stored version, zero for an unknown task |
| EventStores.EventStore.InsertEvent | src/services/task_service/infrastructure/event_store.py:77-101 | One row is appended with the next id if and only if neither unique index refuses it |
| EventStores.EventStore.GetEvents | src/services/task_service/infrastructure/event_store.py:103-129 | The events above a version, deserialized from their rows, in version order |
| EventStores.EventStore.GetAllEvents | src/services/task_service/infrastructure/event_store.py:131-157 | At most `limit` events in id order after a given row id |
| EventStores.EventStore.Scan | src/services/task_service/infrastructure/event_store.py:131-157 | A scan covers no more than the limit, and from the start with a large enough limit the whole log |
| EventStores.EventStore.ScanIs | src/services/task_service/infrastructure/event_store.py:131-157 | A scan is the stretch of the log from the first row id after the given one up to the limit or the end; from the start, the first `limit` events |
| TaskAggregates.TaskAggregate.ApplyEvent | src/services/task_service/domain/aggregates.py:187-256 | Runs the handler of each event type; raises exactly when `Apply` has no result, and a failing title changes no field |
| TaskAggregates.TaskAggregate.Raise | src/libs/common/unit_of_work.py:28-34 | The event is appended first, then applied, and the version moves only if applying worked |
| TaskAggregates.TaskAggregate.MarkEventsCommitted | src/libs/common/unit_of_work.py:40-42 | Empties the unsaved events and changes nothing else |
| TaskAggregates.TaskAggregate.Create | src/services/task_service/domain/aggregates.py:61-81 | Returns a fresh aggregate if and only if the command is valid; every field is the command's |
| TaskAggregates.TaskAggregate.Update | src/services/task_service/domain/aggregates.py:83-122 | Refuses, ignores or records exactly as the checks say; after recording, each given field holds the given value and the rest is unchanged |
| TaskAggregates.TaskAggregate.CollectChanges | src/services/task_service/domain/aggregates.py:88-113 | Field by field, the checks and the recorded old and new values are those of the decision function |
| TaskAggregates.TaskAggregate.AssignTo | src/services/task_service/domain/aggregates.py:124-141 | Refuses, ignores an unchanged assignee, or sets and counts the new assignee and changes nothing else |
| TaskAggregates.TaskAggregate.MoveTo | src/services/task_service/domain/aggregates.py:143-158 | Refuses a deleted task or a forbidden transition, or moves to exactly the status asked for and changes nothing else |
| TaskAggregates.TaskAggregate.Prioritize | src/services/task_service/domain/aggregates.py:160-173 | Refuses on a deleted task, ignores an unchanged priority, or sets and counts the new one and changes nothing else |
| TaskAggregates.TaskAggregate.Remove | src/services/task_service/domain/aggregates.py:175-185 | Refuses, or marks the task as deleted and changes nothing else |
| TaskAggregates.TaskAggregate.FromEvents | src/services/task_service/domain/aggregates.py:270-283 | The loop over the sorted events ends in the replayed state at the last version, or raises |
| TaskAggregates.FailureIsTheTitle | src/services/task_service/domain/aggregates.py:218-235 | A decided update that cannot be applied fails at its title |
| UnitsOfWork.UnitOfWork.Commit | src/libs/common/unit_of_work.py:126-183 | Past the guard, either all tracked aggregates are saved and only then exactly their events are published in order and marked, or nothing is published and the unit is rolled back; never twice |
| UnitsOfWork.UnitOfWork.SaveTracked | src/libs/common/unit_of_work.py:135-145 | Aggregates are saved in tracking order up to the first refusal |
| UnitsOfWork.UnitOfWork.HandToPublisher | src/libs/common/unit_of_work.py:147-154 | Each collected event is handed over once, in order, when all rows are stored |
| UnitsOfWork.UnitOfWork.MarkTracked | src/libs/common/unit_of_work.py:170-172 | Every tracked aggregate loses its unsaved events and nothing else |
| UnitsOfWork.UnitOfWork.TrackAggregate | src/libs/common/unit_of_work.py:122-124 | Adds or replaces one entry, an id keeping its place in the order |
| UnitsOfWork.UnitOfWork.Rollback | src/libs/common/unit_of_work.py:185-190 | Forgets the aggregates and the collected events, and ends the unit |
| UnitsOfWork.UnitOfWork.Exit | src/libs/common/unit_of_work.py:195-199 | Rolls back after an exception, commits if neither commit nor rollback happened, else does nothing |
| UnitsOfWork.PublishWithRetry | src/libs/common/unit_of_work.py:201-223 | Stops at the first success, raises only after every attempt failed, and sleeps 2^n - 1 seconds over n failures before the last attempt |
| UnitsOfWork.CommitExtendsEachLog | src/libs/common/unit_of_work.py:135-145 | A successful commit extends each tracked log by exactly its unsaved events in order, and changes no other log |
| UnitsOfWork.SaveAllAppends | src/libs/common/unit_of_work.py:135-145 | The rows of a successful commit are the unsaved events, aggregate after aggregate |
| UnitsOfWork.RefusedCommitStores | src/libs/common/unit_of_work.py:135-183 | A refused commit has stored the batches before the refused one and nothing else |
| UnitsOfWork.SaveAllStops | src/libs/common/unit_of_work.py:135-145 | Nothing after the first refusal is saved |
| UnitsOfWork.SecondSaveRefused | src/services/task_service/infrastructure/grpc_server.py:63-65 | A batch saved by the repository is refused by the commit around it, whatever happened in between, and the log is unchanged |
| TaskRepositories.TaskRepository.GetById | src/services/task_service/infrastructure/repository.py:22-64 | The cached object, or a rebuilt one that is then cached, or nothing for unknown and deleted tasks, or an exception |
| TaskRepositories.TaskRepository.Save | src/services/task_service/infrastructure/repository.py:66-109 | Saves under the given or the aggregate's own version; only an accepted save with events enters the cache, and the events stay unsaved |
| TaskRepositories.TaskRepository.ListTasks | src/services/task_service/infrastructure/repository.py:111-166 | At most `limit` tasks of the scan, each undeleted and with the status and assignee asked for, in the order of their first events; if the scan covers the log and fewer than `limit` come back, every such task |
| TaskRepositories.TaskRepository.GroupByAggregate | src/services/task_service/infrastructure/repository.py:130-135 | Each group is its task's log, groups in the order of first events |
| TaskRepositories.TaskRepository.InvalidateCache | src/services/task_service/infrastructure/repository.py:168-172 | Forgets one entry, or all of them |
| TaskListing.FullScanIsPerTaskReplay | src/services/task_service/infrastructure/repository.py:125-166 | For rows that respect the indexes and have positive versions, folding the groups of a full scan lists what rebuilding each task by its own query lists |
| TaskListing.ListedExactly | src/services/task_service/infrastructure/repository.py:137-166 | A task is listed if and only if it is rebuilt from one of the groups, not deleted, and has the status and the assignee asked for, where one is |
| TaskListing.ListFollowsFirstEvents | src/services/task_service/infrastructure/repository.py:130-166 | Of two listed tasks, the one listed first has the earlier first event |
| TaskListing.FirstSeenInOrder | src/services/task_service/infrastructure/repository.py:130-135 | The groups come in the order of their first events |
| TaskListing.ListedIsAsked | src/services/task_service/infrastructure/repository.py:137-166 | The same of a list cut off at `limit`; one that is not cut off has every task asked for |
| TaskListing.FirstSeenDistinct | src/services/task_service/infrastructure/repository.py:130-135 | Every task with events has one group |
| TaskListing.GroupIsOwnReplay | src/services/task_service/infrastructure/repository.py:137-140 | For such rows, one group rebuilds to the same aggregate as the task's own sorted query |
| CachedRuns.CacheInvariant | src/services/task_service/infrastructure/repository.py:22-93 | Over any disciplined run of get, command, save, failed save, commit and invalidate, a cached aggregate is the replay of a log prefix and its unsaved events if and only if it accepted no shrinking command since it was built or last committed; once it has no unsaved events, it equals a fresh rebuild |
| CachedRuns.CallKeepsInv | src/services/task_service/infrastructure/repository.py:22-93 | Each call keeps every cached object up to date with its log |
| CachedRuns.HitAgreesIff | src/services/task_service/infrastructure/repository.py:27-46 | A hit without unsaved events agrees with a fresh lookup if and only if the task is not deleted |
| CacheLimits.DeletedStaysVisible | src/services/task_service/infrastructure/repository.py:27-40 | From any state with a cached live task that has nothing unsaved: deleting, saving and committing it lead to a hit where a rebuild finds nothing |
| CacheLimits.ShrunkEntryIsNoReplay | src/services/task_service/infrastructure/repository.py:27-29 | From any state with a cached live task: a shrinking update makes it differ from the replay of its log and its unsaved events, while it stays in the cache |
| CachedRuns.SaveIsCheckThenInsert | src/services/task_service/infrastructure/repository.py:66-109 | A save that nothing comes between has the outcome, rows and cache of the repository object's `save` |
| CachedRuns.MissIsRebuild | src/services/task_service/infrastructure/repository.py:27-53 | A lookup that misses caches what a rebuild gives, unless that is nothing or deleted; a hit changes nothing |
| CachedRuns.InvalidationHeals | src/services/task_service/infrastructure/repository.py:168-172 | After invalidating an entry, or all, the next lookup finds what a rebuild finds, so a deleted task is gone |
| CachedRuns.ListingAgreesWithLookups | src/services/task_service/infrastructure/repository.py:125-166 | After any run of any writers, a full listing agrees with per-task lookups |
| SagaSteps.ExecuteStep | src/libs/saga_framework/saga.py:43-79 | The retry loop returns what the step function says: result, world, attempts, time slept and elapsed |
| SagaSteps.RetryBounds | src/libs/saga_framework/saga.py:49-79 | A step raises if and only if all n+1 attempts fail, having slept d(2^n - 1); success at attempt a has slept d(2^a - 1) and carries that attempt's result; the time is that of the calls and the pauses, at most attempts times timeout plus the pauses |
| SagaSteps.ElapsedIs | src/libs/saga_framework/saga.py:51-77 | From any point of the loop on, the time is that of the calls and the pauses, no more and no less |
| SagaSteps.CompensationIsCalled | src/libs/saga_framework/saga.py:81-93 | A compensatable step calls its compensation, any other one does nothing |
| SagaSteps.RunFromTruthful | src/libs/saga_framework/saga.py:49-79 | The reported attempts, result and world are those of the actual calls, each made in the world the last one left |
| SagaInstances.SagaInstance.Execute | src/libs/saga_framework/saga.py:140-199 | For every placement of cancels before the run and at its awaits, context, world, completed steps and the acts in order are those of the run function; the status is CANCELLED if a cancel came during the callback that ends the run, and the run's own otherwise |
| SagaInstances.SagaInstance.ExecuteSteps | src/libs/saga_framework/saga.py:155-163 | The completed actions are a prefix of the steps, each run once in order |
| SagaInstances.SagaInstance.RunCompensations | src/libs/saga_framework/saga.py:201-242 | Each completed step is compensated once, last first, even after one raises; the status tells whether one did |
| SagaInstances.StatusTellsOutcome | src/libs/saga_framework/saga.py:155-236 | The last status the engine writes is COMPLETED exactly if nothing failed (or an empty saga's callback raised), COMPENSATED exactly if something failed and every compensation finished, FAILED exactly if one raised |
| SagaInstances.CancelledIff | src/libs/saga_framework/saga.py:140-242 | For every placement of cancels the engine writes the same statuses; the final one is CANCELLED if and only if a cancel came after the engine's last write, during the callback that ends the run, and the engine's last write otherwise |
| SagaInstances.CallbackCancelStays | src/libs/saga_framework/saga.py:168-240 | In every run that ends with a callback, success or failure, a cancel during that callback leaves the status CANCELLED |
| SagaInstances.CompletedYetCancelled | src/libs/saga_framework/saga.py:165-169 | There is a saga that completes and that a cancel during its success callback leaves CANCELLED |
| SagaInstances.FirstFailureStops | src/libs/saga_framework/saga.py:155-180 | The forward loop completes exactly the steps before the first one that raises at its turn, each executed on the context and world its predecessors left; all of them if and only if none raises |
| SagaInstances.EachUndoneInTurn | src/libs/saga_framework/saga.py:213-229 | Every completed step is compensated, in reverse order, each in the world the compensations before it left, whether or not those raised |
| SagaInstances.SuccessIsCalled | src/libs/saga_framework/saga.py:165-191 | If no step raises, `on_success` is called once on what the steps left; if it returns or is absent the saga is COMPLETED in the world it left, and if it raises every step is compensated from that world on and `on_failure` called on what that left |
| SagaInstances.FailureIsCalled | src/libs/saga_framework/saga.py:179-240 | If a step raises, the completed ones are compensated from there on, the status is COMPENSATED exactly if all of that finished and FAILED otherwise, and `on_failure` is called on what that left; `on_success` is not called |
| SagaInstances.RaisesOrNot | src/libs/saga_framework/saga.py:155-180 | Every run is of one of these two kinds |
| SagaInstances.StoryShape | src/libs/saga_framework/saga.py:155-219 | In the acts of a run, first the completed actions in order, then the failure, then one compensation each in reverse order |
| SagaRestoration.CompensatedRunRestores | src/libs/saga_framework/saga.py:201-236 | If compensations invert their actions, failed calls are invisible and no later step overwrites what a compensation reads, then a run that ends COMPENSATED leaves the world's view as it was |
| SagaRestoration.UnwindRestores | src/libs/saga_framework/saga.py:201-219 | Undoing the steps from any position on restores the view at that position |
| SagaRestoration.StepEffect | src/libs/saga_framework/saga.py:49-79 | A step that raises is invisible; one that succeeds amounts to its one successful call |
| OnboardingWorkflow.OnboardingRestores | src/services/workflow_service/saga/workflows.py:28-183 | With deletion inverting creation and cancellation inverting notification, an onboarding that ends COMPENSATED leaves tasks and notifications as they were |
| OnboardingWorkflow.OnboardingKeysKept | src/services/workflow_service/saga/workflows.py:78-183 | No later step nor the engine overwrites the `task` or the assignee that the compensations read |
| OnboardingWorkflow.CreateIsRestorable | src/services/workflow_service/saga/workflows.py:78-96 | Creation writes only `task`, deletion reads only `task`, and they invert each other |
| OnboardingWorkflow.NotifyIsRestorable | src/services/workflow_service/saga/workflows.py:98-124 | Notification and its cancellation depend on the same assignee, and without one both do nothing |
| OnboardingWorkflow.AssigneeIsNotified | src/services/workflow_service/saga/workflows.py:98-124 | A given assignee is notified, as the recipient, and that assignee's notification is what a compensation cancels |
| OnboardingWorkflow.NobodyIsNotified | src/services/workflow_service/saga/workflows.py:98-107 | Without an assignee nobody is notified and nothing is cancelled |
| OnboardingWorkflow.OneTaskThroughout | src/services/workflow_service/saga/workflows.py:78-173 | Notification, audit entry, published event and deletion all speak of the task that was created |
| ParallelSteps.RunParallel | src/libs/saga_framework/step.py:158-180 | Gathering in any completion order and merging by position gives the same result, or raises |
| ParallelSteps.MergeRaisesIff | src/libs/saga_framework/step.py:165-178 | The merged step raises if and only if some sub-step raised |
| ParallelSteps.LaterResultsWin | src/libs/saga_framework/step.py:165-180 | The merged result has the keys of all results, each with the value of the last result that has it |
| ParallelSteps.AttemptReturnsIff | src/libs/saga_framework/step.py:158-180 | An attempt of a parallel step succeeds if and only if every sub-step ended in time without raising, is cut off if and only if one did not end, and returns their merged results |
| ParallelSteps.SubStepsAreBounded | src/libs/saga_framework/step.py:158-163 | Under every interleaving of the sub-steps' calls on one world, each makes at most its n+1 attempts and raises only after all of them |
| ParallelSteps.AloneIsRunStep | src/libs/saga_framework/saga.py:49-79 | A sub-step that nothing comes between is the retry loop: same attempts, result and world |
| ParallelSteps.NestedRetryBound | src/libs/saga_framework/step.py:158-180 | Over the attempts of the parallel step's own retry loop (R retries), a sub-action with r retries is attempted at most (R+1)(r+1) times; exactly so often if and only if all R+1 attempts are made and each uses up the sub-step's own, as happens when the sub-step always raises |
| BulkWorkflow.BulkIsCounted | src/services/workflow_service/saga/workflows.py:294-364 | From a context without earlier results, and for every order of turns that leaves no sub-step out, the saga completes; `total_processed` is the number of distinct task ids, `succeeded` the same or, for "reassign", zero, `failed` zero; and each task's result stands under its key with its id and what was done |
| BulkWorkflow.SubStepsRun | src/services/workflow_service/saga/workflows.py:303-328 | Each sub-step succeeds at its first turn with its own result, whatever the others do |
| BulkWorkflow.SummaryCounts | src/services/workflow_service/saga/workflows.py:353-364 | `total_processed` counts the merged entries and no other key of the context, `succeeded` those that count as a success |
| BulkWorkflow.MergedResults | src/services/workflow_service/saga/workflows.py:303-328 | The merged result has one entry for each distinct task id, holding that task's result |
| BulkWorkflow.SucceedsIff | src/services/workflow_service/saga/workflows.py:330-361 | A task result counts as a success if and only if the operation is not "reassign" |
| SagaOrchestrators.InstancesAreConserved | src/libs/saga_framework/saga.py:270-308 | Under every interleaving of starts, endings by return or exception, moves and cancels, each started instance is in exactly one dictionary and found, none is completed twice, and completions are kept in order |
| SagaOrchestrators.CompletedForGood | src/libs/saga_framework/saga.py:286-293 | A completed instance stays completed, at its place |
| SagaOrchestrators.OneLife | src/libs/saga_framework/saga.py:270-293 | A new instance is unknown until registered, then running with the status the engine writes, then completed for good |
| SagaOrchestrators.CancelOnlyWritesStatus | src/libs/saga_framework/saga.py:286-308 | For every placement of cancels: they move no instance; an instance's status is CANCELLED if and only if a cancel found it running after the engine's last write, even while the lock is awaited, and is what it is without the cancels otherwise |
| SagaOrchestrators.RunDecidesStatus | src/libs/saga_framework/saga.py:286-308 | In any interleaving, once the writes of a saga's run have been made, its status is that of the run, unless a cancel came after the last of them |
| SagaOrchestrators.HistoryIsRecent | src/libs/saga_framework/saga.py:314-316 | For a positive limit the history is the last completions, at most that many, in order; for zero it is all of them; a negative one leaves out that many at the start |
| SagaOrchestrators.SagaOrchestrator.RegisterInstance | src/libs/saga_framework/saga.py:276-279 | The instance enters the running dictionary and nothing else changes |
| SagaOrchestrators.SagaOrchestrator.MoveInstance | src/libs/saga_framework/saga.py:286-293 | The instance leaves the running and enters the completed dictionary, as its last entry |
| SagaOrchestrators.SagaOrchestrator.GetInstance | src/libs/saga_framework/saga.py:295-300 | Finds a running or completed instance by its id, and nothing else |
| SagaOrchestrators.SagaOrchestrator.CancelSaga | src/libs/saga_framework/saga.py:302-308 | Overwrites the status of a running instance only, and reports whether there was one |
| SagaOrchestrators.SagaOrchestrator.GetSagaHistory | src/libs/saga_framework/saga.py:314-316 | The last completed instances, in completion order |
| EventSubscribers.AtLeastOnce | src/libs/common/event_bus.py:251-301 | Over any sessions, failures, stops and crashes, every offset below the committed one was handled or dead-lettered, unless its own dead-letter send failed |
| EventSubscribers.SessionCovers | src/libs/common/event_bus.py:251-281 | One session keeps that, never moves the committed offset back and forgets nothing |
| EventSubscribers.LostIff | src/libs/common/event_bus.py:251-301 | Over any sessions, stops and crashes, an offset below the committed one reached neither handler nor dead letters if and only if some session dropped it, by a rejection whose dead-letter send failed, and no session settled it |
| EventSubscribers.MessageIsLost | src/libs/common/event_bus.py:251-301 | Two messages do it: a rejection whose dead-letter send fails, and a handled one whose commit passes it |
| EventSubscribers.SessionSettlesIff | src/libs/common/event_bus.py:251-301 | After one session, with any stop or crash, an offset is handled or dead-lettered if and only if it was before or the session reached it with another fate than a stop or such a rejection |
| EventSubscribers.SessionHandlesIff | src/libs/common/event_bus.py:251-301 | A session handles exactly the messages it reaches whose handler runs to its end, so none that was rejected, and dead-letters exactly those whose handling or commit raised with the send accepted |
| EventSubscribers.CommittedIs | src/libs/common/event_bus.py:251-281 | The committed offset ends just past the last message whose commit took effect, or where it was; a rejection never moves it |
| EventSubscribers.SettledIff | src/libs/common/event_bus.py:251-301 | Over any sessions, an offset is handled or dead-lettered if and only if some session settled it |
| EventSubscribers.TallyCounts | src/libs/common/event_bus.py:251-301 | In an undisturbed session, consumed counts exactly the messages whose handler ran to its end, errors those rejected or whose commit raised, and dead those of them whose dead-letter send was accepted |
| EventSubscribers.EventSubscriber.Consume | src/libs/common/event_bus.py:251-301 | The loop makes exactly the progress, and the metrics, of one session |

## Left out

- Timestamps (`occurred_at`, `created_at`, `updated_at`), and the `user_id` and `metadata` of events: only the creation event restores its time, and the other two are never restored.
- ISO date texts: a due date is written as a date value of its own, standing for text and parser as an inverse pair.
- ValueObjects.LowerKeepsLabels: letters and digits are ASCII; labels with other alphanumeric characters, which the code accepts, are rejected by the model.
- Fields of the update command that `update` never reads (`assignee_id`, `due_date`), and the source, tags and custom fields of task metadata, which nothing changes.
- EventStores.EventStore.SaveEvents: the events must carry the aggregate id they are saved under, as `raise_event` stamps it.
- Two saves of the same aggregate object under way at once: each object has at most one, while saves of different objects interleave freely.
- CachedRuns.CacheInvariant: one repository writes the table, and a load is one step; the gap between check and insert is interleaved.
- Rolling back rows of a failed commit: the code has no such step, and UnitsOfWork.RefusedCommitStores says what stays behind.
- UnitsOfWork.UnitOfWork.Commit: calls on one unit of work do not overlap (two `commit` calls at once both pass the guard, whose flag is set after the awaits), and nobody acts between its saves; CommitRuns has the commits that others come between.
- CachedRuns.HitAgreesIff: rows that `UnitOfWork.commit` writes bypass the repository's cache; the cache runs cover rows written through the repository, with events marked as committed only once they are stored.
- BulkWorkflow.BulkIsCounted: a sub-step awaits nothing, so every one gets its turn before the timeout; schedules that leave one out are not considered.
- UnitsOfWork.UnitOfWork.HandToPublisher: publishing is handing over to the publisher; the ten-second wait and the cancelling of slow publishes are not modelled, and never fail a commit.
- Cancelling the coroutines of a saga or of a subscriber; a commit may be abandoned at any point (CommitRuns).
- Liveness: nothing says that a writer, a saga or a subscriber eventually makes progress.
- Actions that change the saga context in place instead of returning a result.
- SagaSteps.RetryBounds: a call's own duration is a number its outcome carries, cut off at the timeout; scheduling delays are not counted.
- `ConditionalStep` (it always compensates its first branch), `HttpStep`, `GrpcStep`, and the compensation of `ParallelStep`, whose errors are swallowed: no inverse can be promised for them.
- `KafkaPublishStep` as written calls the event factory without awaiting it and has no publisher; OnboardingWorkflow.OnboardingRestores models it as intended.
- BulkWorkflow.BulkIsCounted: the context must hold no earlier `result_` keys, which the summary would count too.
- `TaskApprovalWorkflow`: its handlers only return constants.
- TaskRepositories.TaskRepository.ListTasks: tasks are returned as values, not as objects, and a non-zero offset is only followed into the scan, where it can cut histories.
- Rows of unregistered event types or with unreadable data, which the store skips: the six task events are registered and written by this code.
- Messages that the Kafka client itself cannot decode, several partitions, and auto-commit.
- gRPC, Kafka and SQL wiring, topic routing, logging, tracing, `src/main.py`, and the easy members: due-date checks, priority comparison, text excerpts, `to_dict` of aggregates and sagas.
