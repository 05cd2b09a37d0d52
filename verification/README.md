# ZOA verification model

ZOA runs trusted actions on clusters and opens boundary sessions for operators. Its state lives in two DynamoDB
tables, whose only synchronisation is a conditional write, in string-keyed indexes over them, in ECS tasks and in
Kubernetes objects. This project models those parts and proves what they keep, whatever interleaves, whatever is read
stale, and whichever remote call is lost.

How it is built:

- `Lex`, `Timestamps`: the byte order of index keys; RFC3339Nano as Go prints it, and when its string order is the
  order of time (section 5.1 of RFC 3339 asks for equal precision, which Go's dropped zeros break).
- `Listing`, `ListingTheorems`, `Pages`: the day-by-day bucket listing of executions, sessions and audit entries.
- `Executions`, `ExecutionProtocol`, `ExecutionTheorems`: the execution rows, the conditional writes on them, and a
  transition system of everything that writes them. An event that is not enabled changes nothing, so a theorem about
  all event lists is a theorem about all runs.
- `Dispatching`, `Reconciling`: the create endpoint, the worker and the reconciler as methods whose every step is an event
  of that system with other events in between. `Passes`, `Handover`, `Drain`: what a pass sends and writes, which
  executions reach a worker, and what passes achieve over many ticks.
- `AdmissionBound`, `Cooldown`: the two admission checks of a create.
- `Sessions`, `SessionProtocol`, `SessionTheorems`, `Access`, `Reapers`, `Identity`: the same for boundary sessions.
- `Circuit`, `Retry`: the circuit breaker over its array, and the retry loop that feeds it.
- `Resources`, `ResourceTheorems`, `Schedules`: the Kubernetes objects of one execution, what they allow, and many
  executions side by side.
- `Remote`, `Wrappers`, `Sets`: fates of requests, optional values and sizes of sets, for the rest.

In both transition systems an actor is an invocation in progress with what it holds in memory. It may act on any
version its row ever had, its requests may be lost or carried out without an answer, and it may die at any point.

Results about the code that a reader may not expect, each a lemma below:

- The worker and a failed asynchronous dispatch set `completedAt` twice in one update expression, which DynamoDB
  rejects: no such write ever changes a row. A synchronous execution that came through approval can therefore only time
  out, and an asynchronous dispatch answered as failed stays dispatched
  (`OverlappingWritesAreRejected`, `ApprovedSyncOnlyTimesOut`, `Dispatching.Handler.RunDispatchedExecution`).
- `MarkCleaned`'s comment speaks of a terminal status, but it tests only `cleaned`; that cleaned rows are terminal is an
  invariant of the whole system (`CleanedImpliesTerminal`).
- Within one second RFC3339Nano strings order backwards exactly if the earlier fraction, as printed, is a prefix of the
  later one (`StringOrderExact`, `SameSecondReversed`).
- A count of active executions is two queries: a claim between them hides a row, a rollback shows it twice, and the count
  is exact if and only if these balance (`CountDrift`). The admission bound holds all the same, since the rows it can
  miss came in by approval (`ActiveIsBounded`).
- `paramsMatch` tells different maps apart exactly for maps without empty values (`MatchIsEqualityIffNoEmptyValue`).
- A task ends up running for ever, unrecorded, exactly if the answer to its RunTask is lost, the join that launched it
  dies before it records it, or the update that should record it is lost or comes after another join's
  (`OrphanedExactly`, `OrphanedInRun`, `OrphansAreForever`). The task of a terminated session is still running exactly if
  the reaper ended it without a client or a cluster and no operator ever had it stopped (`TerminatedTaskRuns`).
- An approved execution is lost, and no worker ever gets it, if the answer to its claim is lost, even though nothing else
  fails; if invoking the worker fails and then the rollback is lost; or if the tick dies while it holds the claim. These
  are the only ways (`StrandedExactly`, `HolderLetsGo`, `NeverHandedOverIff`).
- At most one hand-over is acknowledged (`HandedOverOnce`). An invocation that Lambda accepts but answers with an error is
  rolled back and handed out again, so an unacknowledged hand-over may reach a second worker.
- Executions that are not overdue at the head of the queue hold up the timeout pass, and a batch of succeeded executions
  the collection of all others; exactly which rows are reached is `TimeoutSends`, `HeadOfQueueBlocks`,
  `CollectedExactly`, `SucceededStarveTheRest`.
- Cleanups run under the context of the step before them. A synchronous run past its deadline, and a dispatch or a setup
  that fails because its context has ended, therefore delete nothing: account, role and binding stay, with all the
  action was allowed, until a later collection (`SyncLeavesNothing`, `ExpiredRunKeepsPrivileges`,
  `AsyncErrorsLeaveNothing`, `CancelledCreateLeaks`, `CutDispatchKeepsPrivileges`, `CollectionFinishes`). In general
  exactly the stored objects whose delete is not carried out are left.
- A collection without RBAC leaves roles and bindings behind, and what they allow (`CleanupNeedsTheRole`,
  `PrivilegesOutliveTheAccount`); a job whose create reports an error outlives its account
  exactly if one of the tries was carried out all the same (`JobCanOutliveItsAccount`).
- Failures of calls that do not overlap never open the circuit (`SequentialCallsNeverOpen`).

## Model

| member | source | states |
|---|---|---|
| `Lex.BetweenHasPrefix` | pkg/store/session.go:386-393 | A key between a prefix p and an extension of p starts with p, which is why a key range selects one status |
| `Lex.SharedPrefix` | pkg/store/session.go:438-446 | Two keys with a common prefix order as what follows it |
| `Timestamps.StringOrderExact` | pkg/store/session.go:386-393 | For a before b: the strings are in order if and only if the whole seconds differ or a's printed fraction is no prefix of b's; otherwise they are reversed |
| `Timestamps.DifferentSecondsOrder` | pkg/api/access.go:232-233 | Timestamps order like instants whenever the whole seconds differ |
| `Timestamps.SameSecondReversed` | pkg/store/execution.go:377 | A concrete pair whose strings are in the wrong order |
| `Timestamps.FormatInjective` | pkg/store/execution.go:416 | No two instants print alike |
| `Timestamps.AtOrAfterDay` | pkg/store/execution.go:158-160 | A key at or after the since key is never of an earlier day, so the days visited miss nothing |
| `Listing.ReadPages` | pkg/store/execution.go:335-374 | Reading pages gives the prefix of the answer up to the page cap and the limit, counting what earlier buckets gave |
| `Listing.ListAllByDateBucket` | pkg/store/execution.go:147-204 | The execution listing is the capped buckets from the last day down to the first, cut to the limit |
| `Listing.ListAllByPage` | pkg/store/session.go:248-336 | The session listing, which checks the limit after each page, lists the same |
| `ListingTheorems.NewestFirstSorts` | pkg/store/execution.go:348 | The order within a bucket is a sorted permutation of its rows |
| `ListingTheorems.ListingIsFlatScan` | pkg/store/execution.go:143-204 | The listing equals "filter all rows, sort newest first, take the limit" if and only if, without a limit, no bucket is cut short and, with one, every bucket cut short fills the limit with its own rows counted |
| `ListingTheorems.WithinCapIsComplete` | pkg/store/execution.go:336-340 | Buckets of at most ten pages are not cut short |
| `ListingTheorems.ListingIsSound` | pkg/store/audit.go:182-266 | Even with cut buckets the listing is newest first, holds only rows in range that pass the filter, none twice, and no more than the limit |
| `ListingTheorems.ClockRowsAreDated` | pkg/store/execution.go:72-74 | Rows filed by the clock under the first ten characters of createdAt meet the premises of the listing theorems |
| `ListingTheorems.BoundedRangeIsCovered` | pkg/store/session.go:239-256 | The days visited for a since and a before contain every row in that range |
| `Executions.StatusPrefixFree` | pkg/store/types.go:7-15 | No key starts with two different statuses and a '#' |
| `Executions.ScanListsStatus` | pkg/store/execution.go:700-738 | A begins_with scan of the target-status index is exactly the rows of that status, each once |
| `Executions.ExecutionStore.Create` | pkg/store/execution.go:71-90 | Stores the row under its index key and day unless the id exists; the error tells nothing if the answer was lost |
| `Executions.ExecutionStore.TransitionStatus` | pkg/store/execution.go:376-413 | Changes exactly the row, its status, its key and the times that go with the new status, and only from the expected status |
| `Executions.ExecutionStore.TransitionWithMetadata` | pkg/store/execution.go:415-456 | The same with exactly the attributes the caller gives; refused outright if completedAt is set twice |
| `Executions.ExecutionStore.MarkCleaned` | pkg/store/execution.go:591-619 | Sets the flag whatever the status, and creates a bare row for a missing id |
| `Executions.ExecutionStore.QueryByTargetAndStatus` | pkg/store/execution.go:700-738 | All pages in order: every row of the target and status once, in key order |
| `Executions.ExecutionStore.QueryTerminalByTarget` | pkg/store/execution.go:740-764 | Every finished, uncleaned row created before the threshold once, succeeded before failed before timed out |
| `Executions.ExecutionStore.CountActiveByTarget` | pkg/store/execution.go:652-698 | The dispatched rows of the table at the first query plus the approved rows of the table at the second; if nothing changed in between, the active rows, none counted twice |
| `Executions.CountMissesConcurrentClaim` | pkg/store/execution.go:652-662 | A claim between the two counts makes the total one too small |
| `Executions.CountDoublesConcurrentRollback` | pkg/store/execution.go:652-662 | A rollback between them makes it one too large |
| `Executions.MovesConserveActive` | pkg/scheduler/reconciler.go:148-185 | Claims and rollbacks conserve the active rows |
| `ExecutionProtocol.ApplyKeeps` | pkg/store/execution.go:376-456 | Every event of every actor keeps the global invariant |
| `ExecutionProtocol.Reachable` | pkg/store/execution.go:376-456 | The invariant holds in every reachable state |
| `ExecutionTheorems.TerminalAbsorbs` | pkg/store/execution.go:376-456 | Once terminal, a row keeps status, completedAt and metadata for ever; no row is lost or changes its request; a cleaned row never changes |
| `ExecutionTheorems.OneCompletion` | pkg/scheduler/reconciler.go:242 | Over any run exactly one terminal transition succeeds for an execution that is terminal, none otherwise |
| `ExecutionTheorems.CleanedImpliesTerminal` | pkg/store/execution.go:591-619 | Cleaned implies terminal in every reachable state |
| `ExecutionTheorems.OneCleaning` | pkg/scheduler/gc.go:63-82 | Of any number of racing collectors exactly one marks a row that gets cleaned |
| `ExecutionTheorems.CollectCleans` | pkg/scheduler/gc.go:76 | A collector's request that arrives leaves the row cleaned, with the first collector's time |
| `ExecutionTheorems.ClaimIsExclusive` | pkg/scheduler/reconciler.go:148-152 | At most one tick holds a claim on an execution, and then the row is what the claim wrote or has ended |
| `ExecutionTheorems.RollbackUndoesOwnClaim` | pkg/scheduler/reconciler.go:175-187 | A rollback undoes only the version its own claim wrote and never overwrites a terminal status |
| `ExecutionTheorems.ClaimThenRollback` | pkg/scheduler/reconciler.go:148-187 | A claim and its rollback give the row back except for its times |
| `ExecutionTheorems.OverlappingWritesAreRejected` | pkg/handler/handler.go:280-285 | Writes that set completedAt twice never change a row |
| `ExecutionTheorems.ApprovedSyncOnlyTimesOut` | pkg/handler/handler.go:264-289 | A synchronous execution that came through approval is never recorded as succeeded or failed in any run |
| `ExecutionTheorems.ReachableKeysAgree` | pkg/store/execution.go:376-423 | In every reachable state each row is filed under its own status, a dispatched one under its dispatch time |
| `AdmissionBound.CountDrift` | pkg/store/execution.go:652-662 | Over any run between the two queries the count is the active rows at the first plus the rows approved or rolled back less those claimed; exact if and only if these balance |
| `AdmissionBound.ApprovedAreUnchecked` | pkg/api/dispatch.go:150-165 | The rows a count can miss, being or having been approved, are at most the rows no check let in |
| `AdmissionBound.ActiveIsBounded` | pkg/api/dispatch.go:150-165 | With counts of two queries, anything in between: active rows plus pending calls never exceed the limit plus k - 1 plus the rows that came in by force or approval, over all runs with at most k calls at once between first query and create |
| `AdmissionBound.AtMostKOver` | pkg/api/dispatch.go:150-165 | Without forced and approved rows: at most the limit plus k - 1 |
| `AdmissionBound.BoundIsReached` | pkg/api/dispatch.go:150-237 | For every limit, target and k a run that reaches the bound |
| `Cooldown.ParamsMatch` | pkg/api/dispatch.go:401-411 | Compares sizes and every key of the first map, a missing key reading as empty |
| `Cooldown.MatchIsEqualityIffNoEmptyValue` | pkg/api/dispatch.go:401-411 | Matching is equality for a map if and only if it has no empty value |
| `Cooldown.FilterMatchingParams` | pkg/api/dispatch.go:378-391 | Keeps exactly the real executions whose params match |
| `Cooldown.ListedIsRecent` | pkg/store/execution.go:621-650 | Finds exactly the executions of the target and action at or after now - cooldown in key order, across any number of midnights |
| `Cooldown.CheckCooldown` | pkg/api/dispatch.go:122-148 | Lets a write through exactly when no earlier real execution with matching params is that recent |
| `Cooldown.CooldownHolds` | pkg/api/dispatch.go:122-148 | With serialised calls, a later unforced write follows an equal earlier one by more than its cooldown less a second |
| `Reconciling.Reconciler.TimeoutDispatched` | pkg/scheduler/reconciler.go:200-266 | Times out exactly the overdue ones among the first batch, oldest first, with everything else going on in between |
| `Reconciling.OverdueMeans` | pkg/scheduler/reconciler.go:212-236 | A row is overdue exactly if its dispatch time, else its creation time, can be read and lies further back than its timeout, else the server deadline, plus the overhead if it is asynchronous |
| `Reconciling.Reconciler.PollAsyncJobs` | pkg/scheduler/reconciler.go:268-334 | Is one polling pass over the asynchronous ones of the listed rows, of which `Passes.PollWrites` says what it achieves |
| `Reconciling.Reconciler.JobState` | pkg/scheduler/reconciler.go:336-346 | Answers a status exactly if some condition is true and Complete (succeeded) or Failed (failed) and no earlier one is either; nothing otherwise |
| `Reconciling.Reconciler.DispatchApproved` | pkg/scheduler/reconciler.go:121-198 | Claims, invokes and rolls back item by item; is the pass of which `Handover.DispatchesExactly` says what it does, and holds no claim when it returns |
| `Reconciling.Reconciler.GarbageCollect` | pkg/scheduler/gc.go:55-88 | Marks the first batch of eligible rows, with everything else going on in between |
| `Reconciling.DispatchOneKeepsIdle` | pkg/scheduler/reconciler.go:148-191 | Whatever happens around one item the tick is left without a claim and the invariant holds |
| `Passes.TimeoutSends` | pkg/scheduler/reconciler.go:206-242 | A request is sent about the p-th listed row exactly if p is within the batch, no turn up to p is cancelled and the row is overdue; about nothing else |
| `Passes.TimeoutWrites` | pkg/scheduler/reconciler.go:206-262 | That row is written exactly if its request arrives while it is still dispatched, and then ends as timed out; no other row is written |
| `Passes.PollWrites` | pkg/scheduler/reconciler.go:268-334 | The p-th asynchronous row is written exactly if it is within the batch, no turn up to it is cancelled, its job has ended and its request arrives while it is dispatched; it then ends with the job's status, its own sizes and its duration; no other row is written |
| `Passes.AsyncRows` | pkg/scheduler/reconciler.go:269-280 | The rows polled are the dispatched asynchronous ones of the target, each once |
| `Passes.CollectWrites` | pkg/scheduler/gc.go:63-82 | The p-th listed row is marked exactly if it is within the batch, no turn up to it is cancelled and its request arrives before another collector's; no other row is written |
| `Passes.PassWrites` | pkg/scheduler/reconciler.go:200-334 | Any pass, with anything else going on, writes a row exactly if one of its own requests changes it on arrival |
| `Handover.HandedOverOnce` | pkg/scheduler/reconciler.go:116-192 | Over all runs an execution is handed to a worker, acknowledged, at most once, and is never approved or claimed again afterwards |
| `Handover.DispatchesExactly` | pkg/scheduler/reconciler.go:132-192 | The p-th listed row is claimed exactly if it is within the batch, no turn up to p is cancelled and fewer than three earlier items failed; it is handed to a worker exactly if in addition its claim is answered, the row being still approved, and the invocation succeeds; the failures counted are exactly the failed invocations |
| `Handover.NeverHandedOverIff` | pkg/scheduler/reconciler.go:133-192 | No run ever hands an execution to a worker if and only if it is not approved, nobody is about to invoke a worker for it and nobody can still give it back |
| `Handover.HolderLetsGo` | pkg/scheduler/reconciler.go:148-191 | A claim's holder leaves its execution to nobody exactly by dying anywhere, by handing it over, or by a rollback that is lost or too late |
| `Handover.StrandedExactly` | pkg/scheduler/reconciler.go:148-187 | An approved execution is neither handed over by the tick nor ever by anybody if and only if the claim's answer is lost, or the invocation fails and the rollback is lost or the execution ended meanwhile |
| `Handover.LostClaimAnswerStrands` | pkg/scheduler/reconciler.go:148-152 | If the claim's answer is lost the row is dispatched, no worker ever gets it, and no failure is counted |
| `Handover.LostRollbackStrands` | pkg/scheduler/reconciler.go:175-187 | If the invocation fails and the rollback is lost no worker ever gets it |
| `Handover.ApiRowsAreNotHandedOver` | pkg/api/dispatch.go:214-237 | An execution created through the API is never approved, claimed or handed to a worker |
| `Handover.Budget` | pkg/scheduler/reconciler.go:132-192 | Hand-overs and failures together fit in the batch, failures are at most three, and only listed executions are handed over |
| `Handover.BrokenFunctionLosesNothing` | pkg/scheduler/reconciler.go:116-120 | A worker function that always fails hands nothing over, touches at most three rows and leaves each of them approved |
| `Drain.TimeoutsDrain` | pkg/scheduler/reconciler.go:200-266 | After n / maxBatch ticks, rounded up, none of n overdue executions is dispatched any more, however many newer ones arrive |
| `Drain.HeadOfQueueBlocks` | pkg/scheduler/reconciler.go:208-236 | The pass sends no request at all if and only if none of the rows it reaches is overdue |
| `Drain.CollectionsDrain` | pkg/scheduler/gc.go:55-88 | After n / maxBatch collections, rounded up, all of n eligible executions are cleaned if no others become eligible |
| `Drain.PositionByRank` | pkg/store/execution.go:744-761 | A row stands behind all eligible rows of the statuses before its own and those of its own listed before it, and nothing else |
| `Drain.CollectedExactly` | pkg/scheduler/gc.go:63-66 | Whatever others do, a request is sent about an eligible row if and only if those rows leave room in the batch and no turn up to it is cancelled |
| `Drain.SucceededStarveTheRest` | pkg/store/execution.go:744-761 | While a batch of succeeded executions waits, a collection sends requests about these only and writes no failed or timed-out one, whatever others do |
| `Dispatching.ValidateParams` | pkg/api/dispatch.go:355-373 | Accepts exactly params that hold every required and only defined names |
| `Dispatching.WithDryRunParams` | pkg/api/dispatch.go:96-104 | The extra params of a dry run never replace what the caller gave |
| `Dispatching.ChooseMode` | pkg/api/dispatch.go:167-193 | A requested mode is sync or async and equals the default if locked; no mode at all is sync |
| `Dispatching.Handler.CheckRequest` | pkg/api/dispatch.go:86-148 | The checks before the count: each answer exactly by its first failing check |
| `Dispatching.Handler.CountActiveByTarget` | pkg/store/execution.go:652-662 | The dispatched rows at the first query plus the approved rows at the second, with others' events in between |
| `Dispatching.Handler.Check` | pkg/api/dispatch.go:86-235 | A call is let through if and only if its params are valid, its action exists and accepts them, no cooldown blocks it, the count, unless it is forced, was read and is below the limit, its mode is one and not locked, and its timeout is within the server maximum; each refusal has its exact condition; the row is the one the call describes |
| `Dispatching.Handler.HandleCreate` | pkg/api/dispatch.go:47-288 | Every answer by its exact condition over the inputs and the table at the count: bad request, too many requests, internal error, accepted, or a result; a created row is stored with the content of the call, and ends with the status, times and sizes of its run; a call refused as bad or one too many has written nothing |
| `Dispatching.Handler.ExecuteSyncAndRespond` | pkg/api/dispatch.go:290-353 | Answers timed out exactly if the deadline passed, failed exactly if it did not and the run had an error or no success, succeeded otherwise; if the write arrives in time the row has that status, the time of the write, the duration, and the sizes and format of the result, and otherwise it is what others made of it |
| `Dispatching.Handler.AfterDispatch` | pkg/api/dispatch.go:250-287 | A failed dispatch is answered as failed while the table is what others made of it |
| `Dispatching.Handler.RunDispatchedExecution` | pkg/handler/handler.go:222-292 | The worker skips rows it does not read as dispatched; its result has an exact condition; the table is what others made of it, and a synchronous run always ends as not persisted |
| `Sessions.PastMeansExpired` | pkg/store/session.go:386-393 | The key range of ListExpired selects exactly active rows of the target at or before now |
| `Sessions.AheadMeansUnexpired` | pkg/store/session.go:438-446 | Prefix and filter of ListActiveBeforeDeadline select exactly active rows after now |
| `Sessions.QueriesPartition` | pkg/store/session.go:382-450 | For one now every active session of a target is in exactly one of the two answers and no other row in either |
| `Sessions.QueriesApart` | pkg/scheduler/reaper.go:68-78 | Read at two times they miss exactly the sessions whose deadline passes in between |
| `Sessions.SessionStore.Put` | pkg/store/session.go:152-171 | Stores the row under its status, deadline and day unless the id exists |
| `Sessions.SessionStore.UpdateStatus` | pkg/store/session.go:339-379 | Changes the row, its key included, only from the expected status; an activation without a deadline is refused |
| `Sessions.SessionStore.RecordExecSession` | pkg/store/session.go:485-510 | Appends to an active row of that operator only |
| `Sessions.SessionStore.ListExpired` | pkg/store/session.go:382-431 | All pages; a row is listed exactly if it is active, of the target and at or before now |
| `Sessions.SessionStore.ListActiveBeforeDeadline` | pkg/store/session.go:434-483 | All pages; a row is listed exactly if it is active, of the target and after now |
| `SessionProtocol.ApplyKeeps` | pkg/store/session.go:339-379 | Every event of joins, terminates, attaches and reaper runs keeps the global invariant |
| `SessionProtocol.Reachable` | pkg/store/session.go:339-379 | The invariant holds in every reachable state |
| `SessionTheorems.RowsOnlyAdvance` | pkg/api/access.go:256-328 | A session records at most one task in its life; operator and deadline never change; terminated and failed rows never change; active ones can only be terminated |
| `SessionTheorems.OneEnding` | pkg/scheduler/reaper.go:190-198 | Of all racing terminates, failed joins and reaper runs exactly one ends a session that is over |
| `SessionTheorems.TerminatedMeansItsTaskStopped` | pkg/api/access.go:430-466 | For a terminated row with a task exactly that task of the session was stopped, if an operator stopped it or the reaper could |
| `SessionTheorems.OnlyRecordedTasksStopped` | pkg/scheduler/reaper.go:182-188 | Only tasks that their session's row records are ever stopped, and never for a creating or failed row |
| `SessionTheorems.SkippedStop` | pkg/scheduler/reaper.go:182-198 | Without client or cluster the reaper terminates a session whose task keeps running |
| `SessionTheorems.TerminatedTaskRuns` | pkg/scheduler/reaper.go:179-198 | In every run a terminated session's task is still running if and only if the reaper ended the session without client or cluster and no operator's stop of that task was carried out |
| `SessionTheorems.JoinActivates` | pkg/api/access.go:256-328 | An undisturbed join makes a creating session active with its new task |
| `SessionTheorems.NoSharedTask` | pkg/store/session.go:196-223 | No two rows share a task ARN or id |
| `SessionTheorems.OrphansAreForever` | pkg/api/access.go:278-321 | A task nobody recorded is never recorded and never stopped |
| `SessionTheorems.ActivationDecides` | pkg/api/access.go:309-321 | A task whose launch was answered is recorded exactly if the update arrives while the row is creating, else it is an orphan |
| `SessionTheorems.OrphanedExactly` | pkg/api/access.go:278-321 | After any event a task is an orphan if and only if it was one, or the event is a RunTask whose answer is lost, the death of the join that holds it, or that join's update lost or too late |
| `SessionTheorems.OrphanedInRun` | pkg/api/access.go:278-321 | A run ends with a task running unrecorded if and only if one of its events is of these kinds |
| `SessionTheorems.SecondJoinOrphans` | pkg/api/access.go:278-321 | Of two joins that both launched a task, the second to update leaves an orphan |
| `SessionTheorems.ReachableKeysAgree` | pkg/store/session.go:353-359 | In every reachable state rows are filed under their status, active ones under their deadline |
| `SessionTheorems.ExpiryInTime` | pkg/store/session.go:386-393 | In time: expired always from one second past the deadline, never up to one second before, and in between by the printed fractions |
| `Reapers.EndsExactly` | pkg/scheduler/reaper.go:179-202 | A termination of a listed session ends it, as its own doing and with its reason, if and only if its stop is not needed, cannot be sent or is answered, and its update arrives while the row is active |
| `Access.SessionHours` | pkg/api/access.go:151-163 | The hours requested if there are any and at most the configured maximum, which is four if none is set; the maximum if none are requested; refused if more are |
| `Access.CheckedMeans` | pkg/api/access.go:405-428 | The checks before a join, terminate or attach: each response by its exact condition, through exactly for the owner of a row that was read |
| `Access.AccessHandler.HandleSessionStart` | pkg/api/access.go:167-254 | Each response by its exact condition; the put adds exactly one creating row of the caller without a task, expiring the allowed hours from now, if and only if it arrives under a new id |
| `Access.AccessHandler.EnsureBoundaryTask` | pkg/api/access.go:256-328 | Succeeds if and only if the session has a task or one is launched, the answer arrives and the update that records it is answered while the row has the status seen; the table is exactly what that update makes of it; a failed update leaves an orphan or was only unanswered; an unanswered launch leaves an orphan |
| `Access.AccessHandler.HandleSessionJoin` | pkg/api/access.go:485-576 | Joins if and only if the caller owns a session that is not over, it has a task or one is launched and recorded, the target is found and the credentials are vended; every other response by its exact condition; the task answered is the one the row records, whatever others do |
| `Access.AccessHandler.HandleSessionTerminate` | pkg/api/access.go:403-472 | Succeeds if and only if the caller owns a session that is not over, its task, if any, is stopped with an answer, and the update is answered while the row has the status seen; every other response by its exact condition; this call ends the session exactly if that update arrives then |
| `Access.AccessHandler.StopAndEnd` | pkg/api/access.go:430-466 | The stop and the update of a terminate, with the exact condition of each response |
| `Access.AccessHandler.HandleSessionExecAttached` | pkg/api/access.go:582-642 | Succeeds if and only if the caller owns an active session, the id is given, and the append is answered while the row is active and the caller's; every other response by its exact condition; the row lists the exec session last exactly if the append arrives then |
| `Reapers.Reaper.TerminateSession` | pkg/scheduler/reaper.go:179-202 | Sends exactly the stop and the update; succeeds if and only if the stop is not needed, cannot be sent or is answered, and the update is answered while the row is active; ends the session if and only if that update arrives then |
| `Reapers.Reaper.RunDeadline` | pkg/scheduler/reaper.go:80-106 | Sends just the requests of one termination per listed session, whatever happens to the others; succeeds if and only if the query does and every one of them succeeds |
| `Reapers.Reaper.RunIdle` | pkg/scheduler/reaper.go:108-167 | Terminates exactly the listed sessions that are due; succeeds if and only if the query does and each listed session is terminated with success or exempt |
| `Reapers.Reaper.RunOnce` | pkg/scheduler/reaper.go:67-78 | Succeeds if and only if both scans do, the second at what the first left; then every session past its deadline was ended by this run and every other active one was ended as idle or is exempt |
| `Identity.ArnMeaning` | pkg/api/identity.go:16-36 | An ARN names user u in role r exactly if it ends in /r/u without further slashes, u is not empty and it says assumed-role |
| `Identity.LooksLikeECSTaskID` | pkg/api/identity.go:84-96 | Accepts exactly strings of 32 hexadecimal digits |
| `Identity.ResolveIdentity` | pkg/api/identity.go:54-81 | The session of the task, else the name itself; errors stay unresolved |
| `Identity.AnswerIsTheRow` | pkg/store/session.go:196-223 | In every reachable state a lookup with limit one answers the row of a recorded task |
| `Identity.AttributedToStarter` | pkg/api/identity.go:54-81 | Whatever races after a start, calls by the task its row records are attributed to the operator who started the session |
| `Circuit.CircuitBreaker.Allow` | pkg/executor/circuit_breaker.go:42-59 | Refuses exactly while open and less than 60 s after opening; lets the probe through as half-open |
| `Circuit.CircuitBreaker.Prune` | pkg/executor/circuit_breaker.go:78-84 | Filtering in place in one array keeps exactly the entries after the cutoff, in order |
| `Circuit.FreshMeans` | pkg/executor/circuit_breaker.go:78-84 | Pruning keeps every entry after the cutoff as often as it was there, and no other |
| `Circuit.CircuitBreaker.RecordFailure` | pkg/executor/circuit_breaker.go:71-92 | The buffer becomes the fresh failures and this one; opens at the third unless open already |
| `Circuit.BufferIsRecentHistory` | pkg/executor/circuit_breaker.go:61-92 | Over whole histories the buffer is all failures since the last success within 30 s before the latest |
| `Circuit.FailureMeaning` | pkg/executor/circuit_breaker.go:71-92 | A failure opens the circuit exactly if the last 30 s of the history hold three |
| `Circuit.OnlyFailuresOpen` | pkg/executor/circuit_breaker.go:42-92 | Nothing but a third failure opens it |
| `Circuit.StaysOpen` | pkg/executor/circuit_breaker.go:42-59 | Open, it refuses every call for 60 s whatever failures are recorded, unless a success is |
| `Circuit.FailedProbe` | pkg/executor/circuit_breaker.go:54-92 | A failed probe reopens it only with two more failures in the window; otherwise it keeps admitting every call |
| `Retry.Executor.WithRetry` | pkg/executor/retry.go:19-64 | Five attempts under backoff, reporting one success or one failure to the breaker, or none on permanent errors and cancellation |
| `Retry.ServedExactly` | pkg/executor/retry.go:19-64 | A call is rejected exactly if the breaker refuses it; else it ends with its first attempt that is not retried, with that attempt's result and after the time of all before it, or is exhausted exactly if all five are retried; the breaker records a success, a failure or nothing accordingly |
| `Retry.ExhaustionTakesTheWholeBackoff` | pkg/executor/retry.go:29-63 | A failure is reported exactly after five transient errors, at least 15.5 s after the call began |
| `Retry.SequentialCallsNeverOpen` | pkg/executor/retry.go:19-64 | However often the API fails, calls that do not overlap never open the circuit |
| `Retry.OverlappingCallsOpen` | pkg/executor/circuit_breaker.go:86-92 | Three overlapping calls that fail within 30 s do |
| `Resources.Executor.Create` | pkg/executor/retry.go:29-60 | One create under retry, each try stored or not and answered or not |
| `Resources.Executor.CreateResourcesIdempotent` | pkg/executor/resources.go:43-178 | Account, role and binding in this order up to the first reported error, nothing at all if the rules are refused |
| `Resources.Executor.CleanupResources` | pkg/executor/resources.go:180-220 | Tries every delete whatever becomes of the others |
| `Resources.Executor.CleanupExecution` | pkg/executor/executor.go:479-483 | The same and the job |
| `Resources.Executor.DispatchAsync` | pkg/executor/executor.go:269-476 | Every branch with the RBAC and under the context each one cleans up with: if the context ended the step, no delete is sent |
| `Resources.Executor.BuildKubeParams` | pkg/executor/executor.go:573-602 | Sets up the account and roles, or cleans them up |
| `Resources.Executor.ExecuteSync` | pkg/executor/executor.go:110-227 | Runs the deferred cleanup however the action ends, under the context of the run |
| `ResourceTheorems.CreateAllMeans` | pkg/executor/resources.go:58-175 | Creates that stop at an error leave a prefix of the plan, with the object whose create reported it exactly if a try of it was carried out |
| `ResourceTheorems.EnsuredExactly` | pkg/executor/resources.go:19-41 | The namespace is ready exactly if it was looked up and was there or its create was answered; it is there afterwards exactly if it was or its create arrived |
| `ResourceTheorems.CleanedUpMeans` | pkg/executor/resources.go:180-220 | A cleanup removes exactly the names whose delete is carried out |
| `ResourceTheorems.CleanupInvertsCreation` | pkg/executor/resources.go:43-220 | Whatever the creates did and reported, cleaning up with the same RBAC and params restores the cluster if and only if it held nothing under the deleted names and every new object is deleted; if all deletes are carried out, if and only if it held nothing under the names of the execution |
| `ResourceTheorems.CleanupNeedsTheRole` | pkg/scheduler/gc.go:129 | With other RBAC or params it does so if and only if every object is deleted; if all deletes are carried out, if and only if no role was created or the same role is deleted; with no RBAC, role and binding always stay |
| `ResourceTheorems.RepeatedCreationIsOneCreation` | pkg/executor/resources.go:43-178 | After creations cut short anywhere, a successful one leaves what one undisturbed creation would |
| `ResourceTheorems.DispatchEndsExactly` | pkg/executor/executor.go:269-476 | A dispatch ends with the first step that fails, each error by its exact condition, and succeeds exactly if none does |
| `ResourceTheorems.AsyncErrorsLeaveNothing` | pkg/executor/executor.go:288-468 | Whichever deletes are carried out: an error return restores the cluster, but for the shared namespace, if and only if every stored object is deleted, and else exactly the others are left; all of them if the context ended the failing step |
| `ResourceTheorems.LiveErrorsRestore` | pkg/executor/executor.go:288-468 | While the context lives and deletes are carried out, an error return leaves nothing but the shared namespace and a job that was stored |
| `ResourceTheorems.EndedExactly` | pkg/executor/retry.go:45-57 | A cleanup after a failed step runs under an ended context exactly if that step was cut off by it |
| `ResourceTheorems.CancelledCreateLeaks` | pkg/executor/retry.go:53-57 | If the context ends after a try to create the account that was carried out, the dispatch fails and the account stays |
| `ResourceTheorems.CutDispatchKeepsPrivileges` | pkg/executor/executor.go:288-468 | If the context ends a dispatch after its roles are stored, the account may still do exactly what the action declares |
| `ResourceTheorems.CollectionFinishes` | pkg/scheduler/gc.go:63-76 | Whatever is left, one later collection with the action's RBAC removes if its deletes are carried out |
| `ResourceTheorems.AsyncSuccessCreatesAll` | pkg/executor/executor.go:288-475 | A success has created all of them and the job, and nothing else |
| `ResourceTheorems.CreatedExactly` | pkg/executor/retry.go:29-60 | A create reports success exactly if a try that is made is answered; reporting an error it leaves its object exactly if one of the tries made stored it |
| `ResourceTheorems.CutExactly` | pkg/executor/retry.go:45-57 | The retry loop gives up because of the context exactly if a try that is made fails transiently and the context ends before the next |
| `ResourceTheorems.CreateIsServed` | pkg/executor/retry.go:19-64 | A create reports success exactly if the retry loop behind the breaker does |
| `ResourceTheorems.JobCanOutliveItsAccount` | pkg/executor/executor.go:462-468 | When all else succeeds the dispatch fails exactly if no try for the job is answered; the job is then left if and only if the breaker let it pass and one of the tries made stored it, and account and secret each if and only if its delete is not carried out |
| `ResourceTheorems.SyncEndsExactly` | pkg/executor/executor.go:110-227 | An action runs exactly if namespace, objects and client are ready; the execution succeeds exactly if the action then returns success |
| `ResourceTheorems.SyncLeavesNothing` | pkg/executor/executor.go:183-227 | An action starts only with its objects in place; when the execution returns, whatever the action did, exactly the names still there whose delete is not carried out are left, all of them if the run has expired; a failed setup restores the cluster if and only if all it stored is deleted |
| `ResourceTheorems.LiveRunRestores` | pkg/executor/executor.go:183-227 | In time and with deletes carried out, nothing named after the execution is left, and a run that touched nothing restores the cluster |
| `ResourceTheorems.LiveSetupRestores` | pkg/executor/executor.go:573-602 | ... and a setup that fails restores it too |
| `ResourceTheorems.ExpiredRunKeepsPrivileges` | pkg/api/dispatch.go:291-296 | After a run past its deadline the cluster is just what the action left; unless the action changed roles or bindings, its account may still do exactly what the action declares |
| `ResourceTheorems.LeastPrivilege` | pkg/executor/resources.go:69-175 | The account may then do exactly what the action declares, where it declares it, and no other account more or less than before |
| `ResourceTheorems.PrivilegesOutliveTheAccount` | pkg/scheduler/gc.go:129 | A collection without RBAC deletes the account exactly if that delete is carried out, and never what it was allowed |
| `Schedules.OneOwner` | pkg/executor/executor.go:280-349 | No object name belongs to two executions |
| `Schedules.OwnNames` | pkg/executor/resources.go:43-220 | Everything a creation puts and a cleanup deletes is named after its execution |
| `Schedules.DispatchIsSteps` | pkg/executor/executor.go:269-476 | A dispatch is a list of single stores and deletes fixed by the fates of its requests and by whether the namespace was there |
| `Schedules.ExecutionsAreIndependent` | pkg/executor/resources.go:43-220 | However single stores and deletes of different executions interleave, each one's objects are what its own make of them |
| `Schedules.InterleavedIsSequential` | pkg/executor/resources.go:43-220 | However creations, cleanups and dispatches of different executions interleave, each one's objects are what its own operations one after another would have made |
| `Schedules.CleanupAmidOthers` | pkg/executor/resources.go:180-220 | Whatever others create and delete in between, a creation and its cleanup leave of an execution exactly what was stored and not deleted, nothing if and only if all of it is deleted |

## Left out

- DynamoDB expression building, marshalling and paging tokens: a table is a map of rows, a write is an atomic
  compare-and-set, a query is a list of pages. Expiry of rows by TTL is not modelled.
- Stale index reads in the methods: `TimeoutDispatched`, `PollAsyncJobs`, `DispatchApproved`, `GarbageCollect` and the
  reaper's scans list the table as it is when they query; every row may change between the query and its turn. Reads of
  any older version are covered by the events of the two transition systems.
- AWS, Kubernetes, STS, SSM and S3 calls beyond their outcome; HTTP decoding, routing, audit records, metrics, logs.
- Trusted actions themselves: an action is an arbitrary effect on the cluster with an arbitrary outcome.
- Approval and rejection endpoints, which are stubs: approved rows appear from outside.
- The RBAC deny list: whether an action's rules pass it is an input of the model. The namespace for jobs is the default.
- Orphan jobs and stale must-gather pods: only the cleanup call the orphan collector makes is modelled.
- Listings by account and by status, and the audit log's listing by account: single queries with the same paging.
- Exactly-once side effects of actions, and absence of orphan tasks: the code does not provide them.
- Reconciling.Reconciler.TimeoutDispatched: does not model deleting the job of a timed-out asynchronous execution, which changes no row.
- Reconciling.Reconciler.GarbageCollect: does not model that a failed delete still leads to marking the row, since deletes report nothing.
- Cooldown.CooldownHolds: bounds the distance up to one second, because key order is not time order within a second.
- Executions.ExecutionStore.QueryTerminalByTarget: reads its three statuses at one table; a row that moves in between may be missed until the next collection.
- Resources.Executor.Create: keeps no breaker state; whether the breaker lets a request pass is an input, which CreateIsServed ties to the breaker and its retry loop.
- Resources.Executor.ExecuteSync: whether the run has expired is an input, not tied to the status the endpoint records; models kube-api actions; aws-api actions, which create no objects, and the upload of artifacts are left out.
- Handover.HandedOverOnce: counts acknowledged hand-overs; an accepted invocation that is answered with an error is one that failed.
- Timestamps.StringOrderExact: covers UTC and years up to 9999, which is what the services print.
