# Verified model of the orchestration core

The backend turns a plan (steps with dependencies) into a graph, runs the graph in concurrent batches,
retries failing steps, spreads failures, and lets users pause, resume and cancel a run while it is in
flight. This project models that code in Dafny and proves what every run does. It also models the
sequential executor of the same plans, the graph validator and the plan parser's dependency resolution, and three small
stateful services: the rate limiter, the bounded trace store and artifact versioning.

## How it is built

| file | content |
|---|---|
| `Graphs.dfy` | dependency graphs; *grounded* nodes (no cycle and no missing id among their dependencies), depth, height |
| `Dataflow.dfy` | how dependency results are merged into a step's payload |
| `Models.dfy` | statuses, policies, and what each service does in one call, as functions on values |
| `Protocol.dfy` | one execution as a transition system; control calls interleave exactly where the coroutine is suspended |
| `Evaluation.dfy` | what a plan computes, by recursion on dependencies alone |
| `Invariants.dfy`, `Passes.dfy`, `Termination.dfy` | what every step keeps; when nodes run; why runs end |
| `Outcomes.dfy`, `Interruption.dfy`, `Recorded.dfy`, `PlanSteps.dfy`, `Examples.dfy` | reports, cancel, pause/resume, recorded lists and progress, the plan's steps, concrete runs |
| `Ordering.dfy`, `Rounds.dfy`, `Validator.dfy`, `Executor.dfy` | topological sorts and the order they give, validation, the sequential executor |
| `Services.dfy`, `Engine.dfy` | the mutable classes and the imperative loop, shown to be runs of `Protocol` |
| `RateLimit.dfy`, `TraceStore.dfy`, `Artifacts.dfy` | the three small services |
| `ArtifactRaces.dfy` | the artifact service under concurrent calls |

A skill is an arbitrary function of step, payload and attempt number that returns a result or raises, so
every statement holds for every behaviour of skills that depends on nothing else. The control calls are
asynchronous handlers on the same event loop, so they take effect only while the orchestrator sleeps or
waits for a batch, or after the end; between the last node of a batch finishing and the loop continuing
they may still arrive. The store keeps the very objects the loop mutates.

A run starts from a graph as `build_execution_graph` makes it and a state as `create_state` makes it.
Step ids are distinct (they are fresh UUIDs), and a plan step has the dependency list of its node.

## Where the code differs from what one would expect

* The branches for a paused or cancelled state inside the loop are dead: the loop condition already
  excludes both states (`backend/app/orchestration/orchestrator.py:94-106`).
* A pause that is still set when the loop looks again ends the run. If a node is pending then, and only
  then, the run is reported COMPLETED although some node did not complete (`PauseAtHeadEndsRun`,
  `ReportsAreTrueUnlessPaused`; `PausedRunReportsSuccess` gives a run).
* A resolve that only spreads failures is followed by no refresh. For every run, whatever control calls were
  made, the final lists agree with the graph if and only if the loop was left by its condition; otherwise a
  failed node is listed as waiting (`FinalListsAgreeIff`; `FailureLeavesStaleLists` gives a run).
* Progress shows 100.0 exactly when at most one node in two thousand is missing (`HundredExactly`).
* On a clock that may step back, the rate limiter keeps its window bound in every run if and only if its
  limit is one (`BoundOnAnyClockIff`).
* Without validation, a run that nobody interferes with would be sure to end if and only if every node is
  grounded or has a failing step up its dependencies (`RunsEndIff`).
* Of two new versions of an artifact made at the same time, the second to commit is rejected by the table's
  unique constraint, and its blob stays behind (`SecondCommitIsRejected`).
* A delete removes blobs before rows, so while it is in flight versions can name missing blobs
  (`RemovalComesFirst`; `BlobsInFlight` says exactly when), and a version committed after it read the history
  leaves its blob behind (`DeleteLeavesLateVersions`).
* The plan parser accepts a step that lists its own position; such a plan is then rejected by validation
  (`ParsedPlanIsValidIff`).

## Model

| member | source | states |
|---|---|---|
| Engine.ExecutionRecord.Execute | backend/app/orchestration/orchestrator.py:64-163 | for any outcomes and any schedule of control calls, execute terminates; an invalid graph is rejected unchanged with the right verdict, exactly when some node is not grounded; otherwise what happened is a run of the protocol to an ended state that has taken in, whenever the orchestrator resumes, exactly the calls scheduled by then; a run not cancelled and with no node left paused, in particular one no call reaches, leaves in every node its recursively evaluated outcome, and the report and the plan are COMPLETED iff every step evaluates to a result, else FAILED; after a cancelled run the plan is still READY |
| Engine.ExecutionRecord.Pass | backend/app/orchestration/orchestrator.py:94-137 | one loop iteration on the shared objects extends the run by exactly one iteration step, the batch (or sleep) that follows it and the control calls due in that time, and lowers the termination measure |
| Engine.ExecutionRecord.Gather | backend/app/orchestration/orchestrator.py:120-133 | the batch drains whatever the order of resumptions; the run is extended by them and by exactly the control calls due at each suspension |
| Engine.ExecutionRecord.LetControlsIn | backend/app/orchestration/orchestrator.py:111-133 | the calls that arrive during one suspension are all applied, in order, each as one step of the run |
| Engine.DueIsGiven | backend/app/orchestration/orchestrator.py:111-133 | the calls due by a suspension are the given ones, all of them, in order |
| Engine.ExecutionRecord.ResumeNode | backend/app/orchestration/orchestrator.py:165-250 | one stretch of a node's coroutine, retries included, on node, plan step and task state |
| Engine.ExecutionRecord.PauseExecution | backend/app/orchestration/orchestrator.py:355-369 | accepted iff the execution is running; the whole new state |
| Engine.ExecutionRecord.ResumeExecution | backend/app/orchestration/orchestrator.py:371-385 | accepted iff it is paused; the whole new state |
| Engine.ExecutionRecord.CancelExecution | backend/app/orchestration/orchestrator.py:387-401 | accepted iff it is running or paused; the whole new state |
| Engine.ExecutionRecord.Finalise | backend/app/orchestration/orchestrator.py:139-161 | report, control status and progress after the loop; the plan is COMPLETED or FAILED with the report and untouched by a cancelled one |
| Outcomes.UndisturbedRunComputesEval | backend/app/orchestration/orchestrator.py:94-151 | every uncontrolled run of a valid graph that can go no further has ended with COMPLETED and its result exactly where evaluation gives one, FAILED elsewhere |
| Outcomes.FinalStatusIsEvaluation | backend/app/orchestration/orchestrator.py:94-151 | the same for every run, controlled or not, that was neither cancelled nor left with a paused node |
| Outcomes.FailedIffCulprit | backend/app/orchestration/dependency_resolver.py:22-43 | a node has no result iff it or something up its dependencies failed on its own attempts |
| Outcomes.ResultsAreDetermined | backend/app/orchestration/orchestrator.py:305-353 | in every reachable state, under any interleaving, a completed node's result is the recursive evaluation over its own dependencies |
| Evaluation.AttemptsAreThree | backend/app/orchestration/orchestrator.py:205-250 | a step has a result iff one of its first three attempts returns, and the first that does gives it |
| Evaluation.PayloadCarriesResults | backend/app/orchestration/orchestrator.py:252-343 | the payload holds, per carried key, the value of the last listed dependency whose result has one |
| Evaluation.PayloadKeepsBase | backend/app/orchestration/orchestrator.py:252-343 | what no dependency offers comes from the base payload |
| Invariants.AttemptPayload | backend/app/orchestration/orchestrator.py:252-276 | the payload of any attempt equals the one evaluation uses, whatever the rest of the batch is doing |
| Invariants.StepKeepsInv | backend/app/orchestration/orchestrator.py:94-401 | every protocol step, control calls included, keeps the invariant relating control status, node statuses, plan steps, coroutines and evaluation, on any graph |
| Outcomes.ReachableNodesAreSound | backend/app/orchestration/dependency_resolver.py:11-43 | on any graph, cyclic or with missing ids: running and completed nodes have all dependencies COMPLETED and are grounded; READY is never observable; node and plan step agree on completion and result |
| Outcomes.StepMovesLegally | backend/app/orchestration/validators/execution_validator.py:27-41 | every status change of every step is one the validator's table permits (starting a node being two of its moves), and terminal nodes keep status and result |
| Outcomes.TransitionTable | backend/app/orchestration/validators/execution_validator.py:32-40 | the fourteen permitted status changes |
| Outcomes.TerminalForGood | backend/app/orchestration/scheduler.py:9-49 | COMPLETED, FAILED and CANCELLED nodes never change again in any continuation |
| Passes.BatchIsIndependent | backend/app/orchestration/orchestrator.py:108-133 | no two nodes of one batch are related by dependency, directly or transitively |
| Passes.NodesRunAtTheirDepth | backend/app/orchestration/orchestrator.py:94-137 | a node that runs does so in the pass equal to its dependency depth; after pass k all nodes of depth at most k are terminal or running; the loop resolves at most as often as the longest chain is long |
| Passes.FailureFreePasses | backend/app/orchestration/orchestrator.py:94-137 | a run that completes every node takes exactly as many passes as the longest chain, and starts a batch in each |
| Termination.EveryRunIsShort | backend/app/orchestration/orchestrator.py:94-137 | on a valid graph of n nodes, and on any graph where each node is grounded or has a failing step up its dependencies, no run makes more than 7n+1 orchestrator steps, whatever control calls are mixed in |
| Termination.RunCanGoOn | backend/app/orchestration/orchestrator.py:94-137 | no run gets stuck before its end |
| Termination.SomeNodeIsDecided | backend/app/orchestration/dependency_resolver.py:22-43 | on the same graphs every resolve of the loop takes some waiting node out of WAITING |
| Termination.RunsEndIff | backend/app/orchestration/orchestrator.py:109-113 | on any graph: uncontrolled runs have bounded length iff every node is grounded or has a failing step up its dependencies |
| Termination.StuckRunNeverEnds | backend/app/orchestration/orchestrator.py:109-113 | a node that is neither keeps every uncontrolled run from ending |
| Termination.EveryFailureHasCulprit | backend/app/orchestration/dependency_resolver.py:22-36 | on any graph, in every reachable state of every run: a FAILED node has, at itself or up its dependencies, a step that failed on its own |
| Outcomes.PassLowersPending | backend/app/orchestration/orchestrator.py:94-137 | from a loop head where the loop goes on to any later one, whatever control calls came between, the non-terminal nodes become a proper subset of what they were |
| Outcomes.ReportsAreTrueUnlessPaused | backend/app/orchestration/orchestrator.py:139-151 | for every ended run: COMPLETED is reported with some node not completed iff at the last loop head a pause was in force and a node pending; FAILED and CANCELLED leave nothing pending, and FAILED has a failed node |
| Outcomes.PauseAtHeadEndsRun | backend/app/orchestration/policies/execution_policy.py:4-16 | at any loop head: the iteration ends in a false COMPLETED iff a pause is in force and a node pending |
| Outcomes.EndedRunHasLastHead | backend/app/orchestration/orchestrator.py:94-151 | every ended run ended in an iteration from some loop head, and control calls after that changed nothing |
| Examples.PausedRunReportsSuccess | backend/app/orchestration/orchestrator.py:148-151 | a run reported COMPLETED with one node failed and one paused |
| Outcomes.CancelIsFinal | backend/app/orchestration/orchestrator.py:387-401 | after a cancel the control status stays CANCELLED, no node starts, a drained batch leaves every node terminal, and the only report is CANCELLED |
| Outcomes.CancelTakesEffect | backend/app/orchestration/orchestrator.py:387-401 | a cancel of a running or paused execution cancels it and every waiting, ready and paused node and touches no other node, step or coroutine; any other cancel changes nothing |
| Outcomes.CancelEndsIt | backend/app/orchestration/orchestrator.py:387-401 | from such a cancel on, in every continuation: control CANCELLED, idle nodes CANCELLED, nothing started, nothing pending once the batch is done, and only the report CANCELLED |
| Outcomes.PauseTakesEffect | backend/app/orchestration/orchestrator.py:355-369 | a pause of a running execution pauses it and its waiting and ready nodes only; any other changes nothing |
| Outcomes.ResumeTakesEffect | backend/app/orchestration/orchestrator.py:371-385 | a resume of a paused execution makes its paused nodes waiting; any other changes nothing |
| Interruption.PauseResumeIsInvisible | backend/app/orchestration/orchestrator.py:355-385 | a pause lifted within the same batch or sleep changes nothing but the recorded lists, for the rest of the run |
| Interruption.ResumeUndoesPause | backend/app/orchestration/scheduler.py:38-49 | pausing and resuming restores every status |
| Recorded.RefreshPartitions | backend/app/orchestration/state_manager.py:27-49 | after a refresh each list holds exactly its statuses, without duplicates; the lists are disjoint and cover exactly the nodes not cancelled |
| Recorded.SelectKeepsOrder | backend/app/orchestration/state_manager.py:27-48 | each list keeps the order of the graph |
| Recorded.StartedBatchIsRecorded | backend/app/orchestration/orchestrator.py:116-118 | when a batch starts, lists and progress are those of the graph with the batch running |
| Recorded.FinalListsAgreeIff | backend/app/orchestration/orchestrator.py:108-137 | for every ended run, on any graph and under any control calls: the recorded lists agree with the graph iff the loop condition was false at the last loop head; otherwise a failed node is listed as waiting |
| Examples.FailureLeavesStaleLists | backend/app/orchestration/orchestrator.py:108-113 | a run that ends with a failed node listed as waiting |
| Examples.NodeFailsAfterThreeAttempts | backend/app/planning/policies/execution_policy.py:4-10 | a node whose attempts all raise fails after exactly three attempts and nothing else changes |
| Recorded.RecordedProgressGrows | backend/app/orchestration/progress_tracker.py:22-26 | recorded progress never decreases over any run, stays within 0 and 100, and is exact outside a batch |
| Recorded.ProgressIsNearest | backend/app/orchestration/progress_tracker.py:22-26 | progress is a nearest tenth of a percent to the share of completed nodes, and 100.0 without nodes |
| PlanSteps.FinalPlanSteps | backend/app/orchestration/orchestrator.py:153-159 | an uninterrupted run leaves a plan step COMPLETED with its result where evaluation gives one, FAILED exactly where the step failed on its own, and as it was elsewhere |
| PlanSteps.RunKeepsStepsInv | backend/app/orchestration/orchestrator.py:165-250 | in every reachable state a plan step is untouched before its node begins, RUNNING in the first attempt, PENDING in later ones, then COMPLETED or FAILED; nodes started rest on completed dependencies and nodes failed unstarted have a failed one |
| Recorded.ProgressRange | backend/app/orchestration/progress_tracker.py:22-26 | 100.0 when all nodes completed, and below 2000 nodes only then |
| Recorded.HundredExactly | backend/app/orchestration/progress_tracker.py:22-26 | progress is 100.0 iff 2000 times the number of missing nodes is at most the number of nodes |
| Recorded.RoundedIsNearest | backend/app/orchestration/progress_tracker.py:26-26 | the recorded figure is a nearest tenth |
| Services.BuildTelegramProgress | backend/app/orchestration/progress_tracker.py:28-54 | exactly one line per node, in execution order, with the node's status; the percentage is truncated |
| Services.Resolve | backend/app/orchestration/dependency_resolver.py:7-45 | the loop against snapshot sets decides every node at once; ready and waiting lists in dictionary order |
| Models.ResolvedExactly | backend/app/orchestration/dependency_resolver.py:11-43 | per node, against the sets of completed and of failed or cancelled ids: failed, ready, waiting or unchanged |
| Services.MarkNodesRunning | backend/app/orchestration/scheduler.py:9-17 | exactly the given nodes become RUNNING, every other entry stays |
| Services.MarkNodesPaused | backend/app/orchestration/scheduler.py:38-44 | exactly the waiting and ready nodes become PAUSED and are returned |
| Services.ResumePausedNodes | backend/app/orchestration/scheduler.py:46-49 | exactly the paused nodes become WAITING |
| Services.MarkNodesCancelled | backend/app/orchestration/scheduler.py:30-36 | exactly the waiting, ready and paused nodes become CANCELLED and are returned |
| Services.Refresh | backend/app/orchestration/state_manager.py:27-49 | all four lists and the progress are recomputed, the control status stays |
| Services.ExecutionGraph.constructor | backend/app/orchestration/execution_graph.py:7-27 | one waiting node per step and the topological execution order |
| Services.ExecutionState.constructor | backend/app/orchestration/state_manager.py:14-25 | a running state whose lists and progress are current |
| Dataflow.EnrichPayload | backend/app/orchestration/orchestrator.py:305-353 | the loops over dependencies and merge keys compute the payload function |
| Dataflow.LastOfferWins | backend/app/orchestration/orchestrator.py:316-343 | per carried key the last listed dependency with a non-null value decides |
| Dataflow.CarriedKeys | backend/app/orchestration/orchestrator.py:316-334 | which keys are carried from results: all known ones but client, project and the two rendering entries |
| Dataflow.UnofferedKeyIsUntouched | backend/app/orchestration/orchestrator.py:336-343 | a key nobody offers keeps the base payload's entry |
| Dataflow.RepresentationIsPromoted | backend/app/orchestration/orchestrator.py:344-345 | without an explicit document representation the base value stays if non-null, else the first non-null plain representation is promoted; when all are null so is the entry, and without any there is none |
| Dataflow.RenderingDefaults | backend/app/orchestration/orchestrator.py:347-351 | the two rendering defaults, with their values, depend on the base payload's client and project only, and the format only fills a gap |
| Dataflow.FalsyValues | backend/app/orchestration/orchestrator.py:347-350 | which entries count as absent there |
| Dataflow.EnrichIsLocal | backend/app/orchestration/orchestrator.py:311-340 | enrichment depends on the completed, non-empty results of the listed dependencies alone |
| Validator.ValidateGraph | backend/app/orchestration/validators/execution_validator.py:9-25 | accepts exactly the graphs in which every node is grounded; a rejection names the first bad entry in scan order, or a cycle when there is none |
| Validator.HasCycle | backend/app/orchestration/validators/execution_validator.py:44-62 | the depth-first search finds a cycle iff one exists, iff some node of the closed graph is not grounded |
| Validator.ParsedPlanIsValidIff | backend/app/planning/parsers/plan_parser.py:29-45 | a parsed plan passes validation iff no step lists its own position |
| Validator.ParsedDepsExactly | backend/app/planning/parsers/plan_parser.py:33-37 | a parsed step depends on an earlier or its own position iff it lists it |
| Validator.ParsedDepsKeepOrder | backend/app/planning/parsers/plan_parser.py:33-37 | and in the listed order |
| Ordering.TopologicalOrder | backend/app/orchestration/execution_graph.py:30-48 | the nested loops with list removal terminate and compute the common sort |
| Executor.OrderSteps | backend/app/planning/executor.py:147-160 | the second implementation computes the same sequence |
| Ordering.SortedIsTopological | backend/app/orchestration/execution_graph.py:30-48 | the sort is a permutation: first exactly the grounded nodes, each after its dependencies, then the others in original order |
| Rounds.SortedByRounds | backend/app/orchestration/execution_graph.py:30-48 | the exact order: grounded nodes by round (how often one waits for a node listed later) and within a round as listed, then the rest |
| Rounds.SortedKeepsOrder | backend/app/planning/executor.py:147-160 | a list already in dependency order is left as it is |
| Executor.Execute | backend/app/planning/executor.py:26-90 | plan steps, plan status, report and completed set are those of the sequential run over the sorted steps |
| Executor.RunStepWithRetry | backend/app/planning/executor.py:92-131 | succeeds iff one of the first three attempts returns; then COMPLETED with the result of the first that does, else FAILED; no other step is touched |
| Executor.SucceedsWithinThree | backend/app/planning/policies/execution_policy.py:4-10 | success means one of three attempts returns, and the first gives the result |
| Executor.CompletedStepsAreClosed | backend/app/planning/executor.py:47-78 | in every run the completed steps succeeded and completed after all their dependencies |
| Executor.SuccessfulRuns | backend/app/planning/executor.py:47-82 | success is reported iff every grounded step succeeds; then a step is COMPLETED iff grounded and SKIPPED otherwise |
| Executor.FailedRuns | backend/app/planning/executor.py:64-76 | a failed run stops at a step that does not succeed: those before it in the sorted list are COMPLETED with their results, it is FAILED, and those after it are untouched |
| Executor.GroundedPartRuns | backend/app/planning/executor.py:47-78 | of the grounded steps in sorted order exactly those before the first that does not succeed are completed, and that one is the reported failure |
| Executor.OrchestratorCompletesMore | backend/app/planning/executor.py:47-90 | if every attempted step that succeeds on the sequential payload also succeeds on the one built from dependency results, then whatever the sequential executor completes is completed in every orchestrated run not cancelled and with no node left paused |
| Executor.ExecutorsAgreeOnSuccess | backend/app/planning/executor.py:47-90 | on a valid plan, when attempted steps succeed on the one payload iff on the other, the sequential executor reports success iff evaluation gives every step a result |
| RateLimit.RateLimiter.Allow | backend/app/security/rate_limit.py:14-23 | decision and new list of one call |
| RateLimit.RateLimiter.Remaining | backend/app/security/rate_limit.py:25-29 | computes the remaining calls without changing anything |
| RateLimit.WindowBound | backend/app/security/rate_limit.py:14-23 | for every run, every identifier whose own calls see a non-decreasing clock, and every closed interval of window length: at most limit allowed calls |
| RateLimit.RefinesNaiveLimiter | backend/app/security/rate_limit.py:14-23 | under the same hypothesis the pruned list decides every call as the limiter that forgets nothing does |
| RateLimit.AllowedExactly | backend/app/security/rate_limit.py:14-23 | under the same hypothesis a call is allowed iff fewer than limit of the caller's allowed calls lie in the closed window that ends with it |
| RateLimit.RemainingIsExact | backend/app/security/rate_limit.py:25-29 | of a burst at one instant, the call after k others is allowed iff k is below remaining |
| RateLimit.IdentifiersAreIsolated | backend/app/security/rate_limit.py:14-23 | on any clock, an identifier's list and its decisions are a function of the times of its own calls |
| RateLimit.BoundOnAnyClockIff | backend/app/security/rate_limit.py:9-23 | without a hypothesis on the clock, the window bound holds in every run iff the limit is one |
| TraceStore.StoreHoldsTheNewest | backend/app/observability/providers/in_memory_provider.py:28-36 | after any saves of distinct traces the store has min(max, saves) traces, a trace is kept iff fewer than max saved ones are newer, and no kept one started before an evicted one |
| TraceStore.StoreHoldsLatest | backend/app/observability/providers/in_memory_provider.py:28-36 | after any saves, traces saved again included, as long as a trace keeps its start time: the store has min(max, number of different ids) traces, each as it was saved last, and no saved trace outside started later than one inside |
| TraceStore.InMemoryProvider.SaveTrace | backend/app/observability/providers/in_memory_provider.py:28-36 | the store after one save and its eviction |
| TraceStore.OneTooMany | backend/app/observability/policies/retention_policy.py:15-19 | the stable sort and pop evict exactly the oldest trace, the earliest saved among equals |
| TraceStore.EvictionSelectsOldest | backend/app/observability/policies/retention_policy.py:15-19 | for any overflow, the policy selects the first ids of the traces sorted by start time |
| TraceStore.BoundIsKept | backend/app/observability/providers/in_memory_provider.py:108-113 | any save, repeated ids included, keeps a store within its bound and its ids distinct |
| TraceStore.InMemoryProvider.GetMetrics | backend/app/observability/providers/in_memory_provider.py:63-86 | active counts the started and running traces, completed the completed, failed and cancelled ones, and they add up to the store size |
| Artifacts.RowsAndBlobsAgree | backend/app/services/artifact_service.py:33-146 | after any history of creations, uploads, new versions and deletes that do not overlap: versions are exactly 1..k, the artifact points at version k's path, blobs are exactly the named paths, each named once |
| ArtifactRaces.NumbersSurvive | backend/app/services/artifact_service.py:68-146 | after any interleaving of all calls at their awaits: versions are still exactly 1..k and the artifact points at version k's path |
| ArtifactRaces.BlobsInFlight | backend/app/services/artifact_service.py:33-146 | after any interleaving: a blob is stored iff a version names it and no delete in flight has removed it, or it was left behind, or a call in flight has stored it |
| ArtifactRaces.BlobsAtRest | backend/app/services/artifact_service.py:33-146 | with no call in flight the stored blobs are exactly those versions name and those left behind |
| ArtifactRaces.RemovalComesFirst | backend/app/services/artifact_service.py:140-146 | a delete removes blobs that committed versions still name |
| ArtifactRaces.DeleteLeavesLateVersions | backend/app/services/artifact_service.py:140-146 | a delete that is the only one of its artifact leaves behind exactly the blobs of the versions committed since it read the history |
| ArtifactRaces.CommitSucceedsIff | backend/alembic/versions/002_artifact_system.py:63-65 | a new version's row goes in iff the artifact is still there and no version was added since the call read the latest number |
| ArtifactRaces.SecondCommitIsRejected | backend/app/services/artifact_service.py:79-100 | of two calls that read the same number the second to commit changes no row and leaves its blob |
| ArtifactRaces.LoneVersion | backend/app/services/artifact_service.py:68-109 | a new version nobody interferes with gets the next number and does what the whole operation does |
| ArtifactRaces.LoneUpload | backend/app/services/artifact_service.py:33-66 | so does an upload |
| ArtifactRaces.LoneDelete | backend/app/services/artifact_service.py:135-146 | so does a delete, in whatever order it removes the blobs, and none of its artifact's blobs is left |
| Artifacts.ContentsAreKept | backend/app/services/artifact_service.py:33-146 | no operation overwrites a stored blob, and a delete removes exactly the deleted artifact's blobs |
| Artifacts.VersionPathReads | backend/app/services/artifact_service.py:151-160 | a version's path is the prefix, the version number in decimal, and the UUID |
| Artifacts.ArtifactService.UploadArtifact | backend/app/services/artifact_service.py:33-66 | both tables and the blob store after an upload |
| Artifacts.ArtifactService.CreateNewVersion | backend/app/services/artifact_service.py:68-109 | next number, path and content; nothing changes for a missing artifact |
| Artifacts.ArtifactService.DeleteArtifact | backend/app/services/artifact_service.py:135-146 | the deletion loop removes every version blob, then the rows; false for a missing artifact |

## Left out

- Error strings, failure reasons, retry counters, log entries, timestamps, trace ids, graph edges, icons and labels: they would add only easy members.
- Services.Refresh: leaves out the timestamp `refresh` also sets.
- Recorded.RoundedIsNearest: rounding is done on exact quotients; which of two equally near tenths the source's binary floating-point division and rounding give is not promised (23 of 80 nodes give 28.7 there, and the model's function gives 28.8).
- Recorded.HundredExactly: for the same reason says nothing certain about the source at the tie itself, where exactly one node in two thousand is missing.
- Validator.ParsedPlanIsValidIff: dependency positions are integers; entries of other types, which the parser drops, are not modelled.
- TraceStore.StoreHoldsTheNewest: speaks of saves of distinct traces, where it also settles which of several traces with the same start time stay; `StoreHoldsLatest` covers traces saved again. A trace's fields are not changed in place between saves.
- Executor.OrderSteps: works on ids and dependency lists instead of step objects; with distinct ids list removal by equality is removal by id.
- Artifacts.RowsAndBlobsAgree: covers creations without a storage path; `create_artifact` with a caller-supplied path and the generic `update` can store any path and break the agreement. Calls do not overlap here, storage and database calls succeed, and the readable part of a path is a plain string.
- ArtifactRaces.BlobsInFlight: a delete's two reads are one step, its removals come in any order, and rows become visible together, at the commit; the only failures are rejected rows.
- Engine.ExecutionRecord.Execute: `gather` is a loop that resumes the node coroutines in any order; cancellation of the Python coroutine itself and exceptions escaping a node are not modelled.
- Outcomes.CancelIsFinal: speaks of the run's own state. The orchestration node saves a record before `execute` begins (`backend/app/orchestration/nodes/orchestration_node.py:69-78`), and `execute` replaces it by one with fresh objects (`backend/app/orchestration/orchestrator.py:85-92`); a pause or cancel accepted on the earlier record has no effect on the run and is not modelled. The same holds for `Engine.ExecutionRecord.Execute`.
- The base payload (execution context and attachment fields) is an arbitrary function of the step; results are maps from keys to values with identity and truthiness.
- The store's bookkeeping of serialised plans and progress messages, `create_artifact` variants, trace listing, timeline events, averages and token counters.
- LLM calls, HTTP and Telegram transports, memory, knowledge, document rendering, the task queue and the agent graph.
