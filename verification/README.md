# Squad, modelled and verified

Squad drives runs of language-model agents. This project models the protocols, state machines and
algorithms behind those runs in Dafny and proves what they keep over every run. The world outside a
component is arbitrary: model calls, the human reviewer, the claude CLI, shell commands, the cron
library, the file system and the scheduling of goroutines are inputs, oracles or interleaved steps.

| file | what it models |
|---|---|
| `DependencyGraph.dfy`, `Pipeline.dfy` | the three-colour cycle search, pipeline validation and the tiers of a pipeline, against an independent theory of paths, cycles and settled levels |
| `ComposedAgent.dfy` | validation of composed manifests and their conversion to pipelines |
| `PipelineRun.dfy` | a pipeline run: concurrent stages, tier by tier, with gates, as a step system |
| `CostBudget.dfy` | the shared cost budget under concurrent agents, as a step system over reals |
| `ShardPool.dfy`, `WorkLists.dfy`, `Sorting.dfy` | the bounded shard pool as interleaved steps; how work-lists are divided |
| `RoutineStore.dfy`, `RoutineScheduler.dfy`, `RoutineConvergence.dfy`, `Catchup.dfy` | scheduled routines: diffing the store, reconciling live cron jobs, convergence of the daemon, missed fires |
| `WhiteSpace.dfy`, `Reviewer.dfy`, `LiveSession.dfy`, `SignOffRuns.dfy` | the human sign-off gate and the event-driven session with the claude CLI, and whole runs of it |
| `BackgroundTasks.dfy` | background tasks that start tasks of their own, as a step system over a tree of runs |
| `Responses.dfy` | the tool loop over the Responses API, with every gate in front of a tool |
| `Utf8.dfy`, `AsciiGuard.dfy`, `CommentGuard.dfy`, `CodeOfLine.dfy`, `MultiEdit.dfy` | edit guards on fragments against laws on whole files, on bytes; which part of a line is code |
| `SkillCatalog.dfy`, `SkillStack.dfy` | which skill of a name is active; the stacks of loaded skills against the event log that the runs of a session share |
| `Tailer.dfy` | the incremental log reader against one pass over the file |
| `Frontmatter.dfy`, `Transcript.dfy` | splitting against printing; saving, loading and resuming conversations |

`Selections.dfy` and `Wrappers.dfy` hold what several of these share.

Where the source updates state, the model is a class, an array or a loop, proved against a
specification function or a step system; the theorems are then about that specification. `dafny verify
dfyconfig.toml` checks everything.

## Where the code and its own words differ

The model follows the code. Each of these is a lemma with a concrete run, or an exact condition.

- A failing pre-gate marked `stop` is documented to stop the pipeline (pipeline/pipeline.go:103,
  pipeline/runner.go:204), but it only skips its stage: `PipelineRun.PreGateStopOnlySkips`.
- A gate marked `revert` sets the stage to reverted after the report has copied its result, so no report
  ever shows a reverted stage: `PipelineRun.ReportIsOrdered`, `PipelineRun.ReviewMeaning`.
- The budget check and the read of the cap are two reads. Between them another agent can exhaust the
  budget, and then the agent is launched with no cap at all: `CostBudget.CapWithinBudgetIff`,
  `CostBudget.StaleCheckLosesTheCap`, `CostBudget.UnboundedIff`. Where every stage has a cap within the
  budget, stale checks cost at most one budget more; and some bound holds exactly if no stage without a cap
  can be left behind by the others: `CostBudget.CappedSpendingBound`, `CostBudget.SpendingIsBoundedIff`.
- The comparison that decides whether a routine changed cannot see a renamed variable whose value was
  empty, nor a new base URL: `RoutineStore.LooksEqualIsEqualityIff`, `RoutineStore.UnseenChanges`.
- Protocol errors of the live session are called consecutive (agenticcli/claude_live.go:349-350); they
  are counted since the last event that resets the counter, and ignored events do not:
  `SignOffRuns.ErrorsNeedNotBeConsecutive`, `SignOffRuns.DiesOfTheSecondError`.
- Pending calls are answered with placeholders so that later chaining does not fail
  (responses/responses.go:163-164). The answer is not recorded, and a run that already has text returns
  without it, so a resumed session can start on unanswered calls. It never does exactly if, whenever a process
  begins, the last run to record had left its loop because there were no calls, or was stopped by a limit on
  a response without any: `Responses.ResumeMeetsPendingIff`, `Responses.SuccessLeavesCallsPending`.
- A resume chains onto the same conversation (docs/observability.md:76, runner/run.go:803-804). Tasks record
  into the session of their run, and a resume continues whichever conversation was recorded last:
  `Responses.TaskTakesTheSession`.
- Each run writes the full conversation to the transcript that a resume replays (docs/observability.md:78).
  Tasks write to the same file. It keeps the turns of the main runs exactly if these save last:
  `Transcript.MainsAccumulateIff`.
- A resumed run picks up the skills the prior run loaded (docs/skills.md:111), and a fresh one starts with an
  empty stack (runner/model.go:112-115). Tasks, shards and stages read and write the log of the same session,
  so a run takes over what others loaded, and a task starts with what its run loaded:
  `SkillStack.TaskSharesTheLog`. Live stack and replay agree exactly if no run can load what another can
  stack: `SkillStack.SessionStacksIff`. A resume can reorder the stack, `SkillStack.ResumeReorders`, but of
  what a catalog shows it never loses anything: `SkillStack.StackGrowsIff`, `SkillStack.CatalogIsSteady`.
- Comments-only mode is documented to reject any change to code lines (docs/creating-agents.md:124). The
  guard sees only the replaced fragment; the law on the file holds exactly if the guard would accept the
  touched lines in full: `CommentGuard.ReplacementLawIff`, `CommentGuard.UncommentingIsAccepted`,
  `MultiEdit.AdjacentOccurrencesFuse`.
- ASCII-only mode never lets a run add a typographic character to a valid UTF-8 file. In a file that is
  not valid, a deletion can put one together from stray bytes: `AsciiGuard.ReplacementLawIff`,
  `MultiEdit.DeletionFormsQuote`.
- The log reader says it defers lines that are not complete yet (watch/tailer.go:102-104). It consumes
  them, which is harmless exactly if only the newline was missing: `Tailer.PartialLineSurvivesIff`.
- The limit is documented as the maximum of concurrent background tasks (docs/configuration.md:234). Each task
  has a registry of its own, and its tasks go on when it has ended, so any number can run at once. The limit
  holds over the whole tree exactly if no task may start tasks, because of the depth or because the agents
  they run have `disable_task`: `BackgroundTasks.LimitIsGlobalIff`, `BackgroundTasks.LimitIsExceeded`.
- A field of the filter options is commented as a deny list applied after the allow list
  (skill/catalog.go:315). A non-empty allow list switches it off, as the comment of the filter itself says
  (skill/catalog.go:320-326): `SkillCatalog.DeniedIsShownIff`, `SkillCatalog.AllowedAndDenied`.

One race is worth knowing although no text denies it. Reloads run in timer callbacks, which can overlap;
then the removal found by the first can be sent after the addition found by the second, and an enabled
routine is left without its job until the next change: `RoutineConvergence.OverlapLosesTheJob`. If no event
is dropped, the daemon always converges exactly if no two reloads overlap: `RoutineConvergence.ConvergesIff`.

## Model

| member | source | states |
|---|---|---|
| DependencyGraph.DetectCycle | pipeline/pipeline.go:220-258 | an error is returned if and only if the dependency graph has a cycle, for every list of nodes, and it names an edge on one |
| DependencyGraph.CycleSearch.Visit | pipeline/pipeline.go:228-250 | the recursive search ends on every graph (fewer white nodes each call), blackens all it reaches, and an error lies on a cycle |
| DependencyGraph.RankedIsAcyclic | pipeline/pipeline.go:224-258 | a numbering that goes down along every edge excludes every cycle; the finishing order is such a numbering |
| DependencyGraph.NeverSettledIff | pipeline/pipeline.go:262-296 | a stage is never settled if and only if it reaches a cycle or an unknown stage |
| DependencyGraph.TierIsLongestChain | pipeline/pipeline.go:262-296 | a stage is settled in round k + 1 if and only if its longest dependency chain has length k and all of it is known |
| DependencyGraph.AcyclicSettles | pipeline/pipeline.go:262-296 | without cycles and unknown dependencies every stage is settled within as many rounds as there are stages |
| DependencyGraph.SelfEdgeIsCycle | agent/composed.go:216-218 | a stage that depends on itself is a cycle |
| Pipeline.Validate | pipeline/pipeline.go:133-150 | accepts exactly the valid pipelines; every error reported is a fact about the pipeline |
| Pipeline.ValidateStages | pipeline/pipeline.go:154-190 | accepts exactly the lists of named, unique, well-formed stages |
| Pipeline.ValidateDependencies | pipeline/pipeline.go:192-205 | accepts exactly if every dependency is known and there is no cycle |
| Pipeline.ValidateGates | pipeline/pipeline.go:207-218 | accepts exactly if every gate follows a known stage and is well-formed |
| Pipeline.GatesAfter | pipeline/pipeline.go:311-319 | the gates of one stage, in the order of the manifest |
| Pipeline.GatesInOrder | pipeline/pipeline.go:311-319 | the gates of a stage are those that name it, as often as in the manifest and in its order, and no other |
| Pipeline.TopologicalOrder | pipeline/pipeline.go:262-296 | terminates on every list; with unique names tier k holds exactly the stages settled in round k + 1, each once |
| Pipeline.SettlesKeepsWaiting | pipeline/pipeline.go:287-292 | settling a stage leaves exactly the unsettled stages waiting, each with its number of open dependencies; no deleted key is inserted again, also with repeated dependencies |
| Pipeline.IndexStages | pipeline/pipeline.go:263-273 | the maps of the algorithm: every stage is listed under each dependency as often as it names it |
| Pipeline.TierIsChainLength | pipeline/pipeline.go:262-296 | a stage is in tier k if and only if its longest dependency chain has length k |
| Pipeline.OmittedIff | pipeline/pipeline.go:262-296 | a stage is left out if and only if it reaches a cycle or an unknown dependency |
| Pipeline.EmittedOnce | pipeline/pipeline.go:262-296 | no stage is emitted in two tiers |
| Pipeline.DependenciesInEarlierTiers | pipeline/pipeline.go:260-296 | every dependency of an emitted stage lies in an earlier tier |
| Pipeline.ValidPipelineIsComplete | pipeline/pipeline.go:133-296 | the tiers of a valid pipeline hold exactly its stages |
| ComposedAgent.ValidateComposed | agent/composed.go:127-149 | accepts exactly the valid composed manifests |
| ComposedAgent.ValidateComposedStages | agent/composed.go:151-208 | accepts exactly the lists of named, unique, well-formed stages |
| ComposedAgent.ValidateComposedDeps | agent/composed.go:210-262 | accepts exactly if dependencies are known and acyclic |
| ComposedAgent.ManifestToPipeline | runner/composed.go:24-103 | fails only on manifests that are not composed or invalid, yields a valid pipeline, and cannot fail on a valid composed manifest |
| ComposedAgent.ConversionPreserves | runner/composed.go:24-103 | order, names, dependency graph and agent lists survive conversion, so both cycle checks agree |
| ComposedAgent.ConversionKeepsValidity | runner/composed.go:24-103 | whatever the composed check accepts, the pipeline check accepts after conversion |
| PipelineRun.RunPreGates | pipeline/runner.go:167-221 | an error exactly if a pre-gate marked skip or stop failed |
| PipelineRun.RunStage | pipeline/runner.go:225-306 | the status of a stage from what its pre-gates, partition and agents did; never reverted |
| PipelineRun.StatusIff | pipeline/runner.go:225-306 | a stage fails if and only if no pre-gate blocked it and its partition or an agent failed; it passes if and only if it was not blocked, had work and no agent failed; otherwise it is skipped |
| PipelineRun.PreGateStopOnlySkips | pipeline/runner.go:199-246 | after a failing pre-gate marked stop, in every continuation of the run, the stage is recorded as skipped and never as failed, and the run fails only if something else broke |
| PipelineRun.RunGates | pipeline/runner.go:561-604 | the outcome of the gates of a stage, decided by the first that fails |
| PipelineRun.GatesPassIff | pipeline/runner.go:561-604 | gates pass if and only if nothing changed or every command succeeded |
| PipelineRun.FirstFailingGate | pipeline/runner.go:574-603 | the first failing gate alone decides between stop and revert |
| PipelineRun.StagesStartAfterDependencies | pipeline/runner.go:90-163 | in every run what starts is a stage of the pipeline, and it starts only after each of its dependencies finished as passed or skipped and its gates returned no error |
| PipelineRun.FinishedHasStarted | pipeline/runner.go:149-163 | in every run a stage has a result only after it has started |
| PipelineRun.FailureStopsLaterTiers | pipeline/runner.go:117-135 | after a failed stage or gate no stage of a later tier starts |
| PipelineRun.OutcomeIsHonest | pipeline/runner.go:90-146 | a run ends as passed if and only if every stage was cleared, and otherwise as failed |
| PipelineRun.ResultIsObserved | pipeline/runner.go:149-163 | in every run each recorded result is what the agents, partition and pre-gates of that stage gave in the step that finished it |
| PipelineRun.PassedMeansAgentsPassed | pipeline/runner.go:269-303 | a stage is recorded as passed only if none of its agents failed |
| PipelineRun.PassesIff | pipeline/runner.go:109-146 | a run that ends has passed if and only if no partition or agent of an unblocked stage failed and no gate ended it |
| PipelineRun.ReviewMeaning | pipeline/runner.go:112-135 | what reviewing one result does to report, trace, outcome and completed stages |
| PipelineRun.ReportIsOrdered | pipeline/runner.go:112-135 | a passed run reports every stage once in tier order; no report shows a reverted stage; only its last entry can be a failure |
| PipelineRun.RunsAreFinite | pipeline/runner.go:90-163 | no run is longer than a bound fixed by the pipeline |
| PipelineRun.NoDeadlock | pipeline/runner.go:149-163 | a run that has not ended can take a step |
| CostBudget.Ledger.RunAgent | pipeline/runner.go:381-446 | one agent with no other in flight never takes the budget over its limit |
| CostBudget.CapWithinBudgetIff | pipeline/runner.go:361-428 | the cap stays within what is left if and only if something is left when it is read |
| CostBudget.StageCapRules | pipeline/runner.go:396-428 | the cap is the smaller of what is left and the stage's own; without a pipeline budget it is the stage's own; it never exceeds the stage's own |
| CostBudget.RefusedIff | pipeline/runner.go:381-395 | an agent is refused if and only if there is a budget and it is used up when checked |
| CostBudget.NoBudgetRefusesNone | pipeline/runner.go:355-395 | without a budget no agent of any run is refused |
| CostBudget.SpendingBound | pipeline/runner.go:355-446 | with at most k agents in flight and fresh caps, spent plus outstanding caps stays within k budgets, over every interleaving |
| CostBudget.AtomicSpendingBound | pipeline/runner.go:355-446 | the same bound, k times the budget, when check and cap read are one step |
| CostBudget.SequentialSpendingBound | pipeline/runner.go:355-446 | one agent at a time never exceeds the budget, with no atomicity assumed |
| CostBudget.StaleCheckLosesTheCap | pipeline/runner.go:396-428 | with two agents and a stale check the excess is unbounded |
| CostBudget.UnboundedIff | pipeline/runner.go:396-446 | at every moment of every run, nothing bounds what an agent spends next if and only if one was launched without a cap |
| CostBudget.SpendingIsBoundedIff | pipeline/runner.go:355-446 | with a positive budget, some bound holds for what is spent over all runs, if and only if for every stage without a cap all other stages have one and these add up to less than the budget |
| CostBudget.CappedSpendingBound | pipeline/runner.go:355-446 | with at most k agents in flight and every stage capped within the budget, spent plus outstanding caps stays within k + 1 budgets, however stale the checks |
| ShardPool.ParallelismBound | runner/shard.go:93-123 | never more than MaxParallel shards are past the semaphore |
| ShardPool.NoDeadlockIff | runner/shard.go:93-127 | an unfinished pool can take a step if and only if it has a slot |
| ShardPool.RunsAreFinite | runner/shard.go:105-127 | a run has at most five steps per shard, and one more if the parent context is cancelled |
| ShardPool.EveryShardHasItsOutcome | runner/shard.go:105-140 | at the end every index holds an outcome about exactly its own files |
| ShardPool.OutcomesAreFinal | runner/shard.go:105-127 | a stored outcome never changes and the stop is never taken back |
| ShardPool.OutcomeIsObserved | runner/shard.go:155-176 | in every run a stored outcome is that of a skipped shard, or tells what building, running and reporting gave in the step that ran the shard |
| ShardPool.ErredItselfIff | runner/shard.go:155-193 | a shard has erred on its own if and only if its build or its model run failed, or it reports files that no edit touched where that matters |
| ShardPool.RunErrsIff | runner/shard.go:130-150 | a finished run errs if and only if some shard was skipped or erred on its own |
| ShardPool.SkippedIff | runner/shard.go:112-115 | a shard is skipped if and only if the stop was fired or the parent context cancelled when it reached the check |
| ShardPool.ContinueSkipsNone | runner/shard.go:97-102 | in continue mode with a live parent context no shard is skipped |
| ShardPool.StopHasACulprit | runner/shard.go:97-123 | the stop is fired only by a shard that failed on its own |
| ShardPool.StopBoundsFailures | runner/shard.go:97-123 | in stop mode at most MaxParallel shards fail on their own, in every interleaving |
| ShardPool.Summarize | runner/shard.go:129-151 | the counts partition the shards, and the run errs if and only if some shard did, with the first one's error |
| WorkLists.GroupByPackage | runner/shard.go:257-273 | one shard per directory, in directory order, with all its files in order |
| WorkLists.DirIs | runner/shard.go:261 | the directory of a path is what stands before its last slash |
| WorkLists.FilesInOrder | runner/shard.go:257-273 | the files of a directory are those of the list that are in it, each as often and in that order |
| WorkLists.BatchFiles | runner/shard.go:276-289 | batches of the given size that concatenate to the list |
| WorkLists.ShardFiles | runner/shard.go:243-248 | the shards hold every file as often as the list, and none is empty |
| WorkLists.ShardsAreDisjoint | runner/shard.go:88-92 | a file in two shards occurs twice in the work-list |
| WorkLists.SplitIntoPartitions | pipeline/partition.go:99-119 | at most ten groups of the given size that tile the input, only the last of another size; the appends into the input's own array leave it unchanged |
| WorkLists.AppendInPlace | pipeline/partition.go:111-113 | an append within capacity writes through to the backing array, harmlessly if the slices adjoin |
| WorkLists.TilesConcatenate | pipeline/partition.go:99-119 | adjoining groups concatenate to the input |
| RoutineStore.EntryKeyInjective | routine/storage.go:337-339 | keys identify references, because a root holds no NUL |
| RoutineStore.StringMapEqual | routine/storage.go:300-310 | computes the comparison that reads a missing key as empty |
| RoutineStore.LooksEqualIsEqualityIff | routine/storage.go:300-310 | that comparison is equality, against every map, if and only if no value on its left is empty |
| RoutineStore.RoutineChanged | routine/storage.go:278-298 | true exactly if some field the comparison looks at differs |
| RoutineStore.UnchangedIff | routine/storage.go:277-300 | a routine without empty variables counts as unchanged if and only if nothing differs but its id, its base URL, and how the default policy is written |
| RoutineStore.UnseenChanges | routine/storage.go:278-310 | two changes of a routine that are not seen |
| RoutineStore.DiffAndEmit | routine/storage_watch.go:144-186 | the events tried are exactly the difference of two snapshots, each once; in that order, those are sent for which the channel had room at their attempt, and the others are dropped |
| RoutineScheduler.Scheduler.Sync | routine/scheduler.go:96-138 | afterwards the keyed jobs are exactly the enabled entries whose schedule is accepted, each with its entry; live jobs correspond one-to-one to keys, but for leaked ones, exactly those that would not be removed |
| RoutineScheduler.Scheduler.ApplyEvent | routine/scheduler.go:152-173 | the job table and the leaked jobs after one event |
| RoutineScheduler.Scheduler.Drop | routine/scheduler.go:109-116 | one key and its job go, all other jobs stay |
| RoutineScheduler.Scheduler.Add | routine/scheduler.go:175-192 | one job is added if the schedule is accepted, and nothing else changes |
| RoutineConvergence.DaemonConverges | routine/storage_watch.go:99-178 | over any number of reloads, none begun before the last was through, with their events sent one by one in any order among the steps of the consumer, a daemon with nothing left to do is in sync with the store |
| RoutineConvergence.OverlapLosesTheJob | routine/storage_watch.go:131-142 | two overlapping reloads after which nothing is left to do and an enabled, accepted routine of the store has no job |
| RoutineConvergence.ConvergesIff | routine/storage_watch.go:99-178 | with at most b reloads under way at a time, every run from sync that comes to rest is in sync, if and only if b is at most one |
| RoutineConvergence.OneEventHealsAllDrops | routine/scheduler.go:164-172 | one addition or update that gets through reconciles everything, whatever else was dropped |
| RoutineConvergence.QuietDeliveryIff | routine/storage_watch.go:180-186 | if none gets through, the daemon is in sync if and only if every dropped event was harmless |
| RoutineConvergence.ListingHasSameTarget | routine/storage.go:138-159 | any listing of the store yields the same target |
| Catchup.LatestBefore | routine/catchup.go:47-62 | walks forward to the last fire before now, and terminates |
| Catchup.FindMissedFires | routine/catchup.go:25-68 | one result for exactly the entries that missed a fire, in order |
| Catchup.LatestIsMostRecent | routine/catchup.go:47-62 | the fire found is the greatest before now |
| Catchup.MissedIff | routine/catchup.go:27-50 | an entry is reported if and only if some fire lies between its anchor and now |
| Reviewer.SignOffRuntime.ReviewPlan | tools/signoff.go:174-198 | the first non-blank line decides, and by those words; the text of a feedback and the input left for the next review follow from the input; approval latches and nothing else changes it |
| Reviewer.SignOffRuntime.PromptSignOff | tools/signoff.go:218-250 | re-prompts on blank lines and consumes exactly up to the answer |
| Reviewer.SignOffRuntime.ReadFeedbackBody | tools/signoff.go:255-274 | collects lines up to an empty one at rest or the end of input, and leaves exactly what follows |
| Reviewer.AnswerIsUnique | tools/signoff.go:174-198 | the input determines the verdict, the text of a feedback and the input left |
| Reviewer.AnswerMeans | tools/signoff.go:104-107 | yes, y, approve and approved approve, no, n, reject, rejected, abort, quit and q reject, in any case of their letters, and everything else is feedback |
| Reviewer.BodyIs | tools/signoff.go:255-274 | a feedback is its first line and those behind it, put together with newlines and trimmed |
| Reviewer.TrimLineEndIs | tools/signoff.go:260 | what is cut off a line of feedback are line-end characters, and none is left |
| WhiteSpace.TrimSpaceIs | tools/signoff.go:238 | what trimming drops on either side is white space, and none is left at either end |
| LiveSession.ClaudeSignOffGate.CanUseTool | runner/signoff_claude.go:57-98 | the decision, whether the reviewer was asked, and both latches afterwards |
| LiveSession.Live.HandleEvent | agenticcli/claude_live.go:268-309 | one event changes the session as the step function says |
| LiveSession.Live.HandleRequest | agenticcli/claude_live.go:315-347 | a control request is answered and counted as the step function says |
| LiveSession.Live.AccumulateMessage | agenticcli/claude_live.go:362-383 | folds one message into the plan text |
| LiveSession.Live.Loop | agenticcli/claude_live.go:197-225 | the fields follow the step function over the whole of stdout; success exactly if nothing was fatal, the context was not cancelled, and a result arrived that reports no error |
| SignOffRuns.AllowNeedsApproval | runner/signoff_claude.go:57-98 | in every run a mutating tool is allowed only after an approval |
| SignOffRuns.RequestAnswered | runner/signoff_claude.go:57-98 | after any run: when a permission request is allowed, denied, shown for review, followed by an interrupt, and when the session dies of it |
| SignOffRuns.RejectionLocks | runner/signoff_claude.go:69-90 | after a rejection no plan is shown again, and a mutation needs an approval elsewhere after it |
| SignOffRuns.RejectedSessionDenies | runner/signoff_claude.go:65-71 | while rejected, a mutating request is denied with no new prompt, or the session dies because it cannot be answered |
| SignOffRuns.FailedReviewEndsSession | agenticcli/claude_live.go:325-334 | a failed review ends the session with an error, and at most its denial follows |
| SignOffRuns.FailedReviewIsDenied | agenticcli/claude_live.go:325-334 | that denial is sent whenever stdin still takes it |
| SignOffRuns.OneResponsePerRequest | agenticcli/claude_live.go:315-347 | every well-formed request gets one response with its id, in order; only the last can lack it, when stdin is gone |
| SignOffRuns.DiesOfTheSecondError | agenticcli/claude_live.go:351-358 | a living session has at most one protocol error since the last reset; one that died of them has just had the second |
| SignOffRuns.SecondErrorIsFatalIff | agenticcli/claude_live.go:319-358 | the next event kills the session as a protocol failure if and only if it is that second error and its reply, if any, can be written |
| SignOffRuns.ErrorsNeedNotBeConsecutive | agenticcli/claude_live.go:304-358 | two errors with an ignored event between them are fatal |
| SignOffRuns.ResultsTell | agenticcli/claude_live.go:287-300 | a living session has closed stdin and knows a result if and only if one came, and keeps whether the last one reported an error; one that cannot be decoded kills it |
| SignOffRuns.SucceedsIff | agenticcli/claude_live.go:209-225 | a session succeeds if and only if nothing killed it and its last result reports no error |
| SignOffRuns.TextTracksHistory | agenticcli/claude_live.go:362-383 | the incremental text fields are functions of the message history |
| SignOffRuns.PlanIsLatestText | agenticcli/claude_live.go:388-393 | the plan shown is the trimmed text of the last run of same-id messages that has any |
| BackgroundTasks.SlotsAreBounded | tools/task.go:43-80 | in every run no registry has more tasks in its slots than its limit, and no run is nested deeper than the depth limit |
| BackgroundTasks.SourceRuns | tools/task.go:22-49 | in the source: four slots per registry without a limit, and no run nested deeper than three |
| BackgroundTasks.ResultsAreFinal | tools/task.go:65-136 | a written result never changes, over every interleaving |
| BackgroundTasks.CollectGetsResult | tools/task.go:142-153 | waiting for a task ends only when it is done, with its result written and its slot returned |
| BackgroundTasks.NoDeadlock | tools/task.go:56-153 | as long as some task is not done, some task can progress, however the nested runs wait for each other |
| BackgroundTasks.LimitIsPerRun | runner/model.go:848-860 | as many background tasks can run at the same time as the first run can start tasks that may start tasks, whatever the limit |
| BackgroundTasks.LimitIsGlobalIff | tools/task.go:43-80 | for any assignment of the Task tool to runs: in every run the background tasks of the whole tree stay within the limit, if and only if no task may start tasks |
| BackgroundTasks.LimitIsExceeded | tools/task.go:22-80 | with the depth limit of the source, some run exceeds the documented maximum, for every limit, as soon as the first run and one of its tasks have the Task tool |
| Responses.ExtractFunctionCalls | responses/responses.go:424-440 | the function calls of a response, in order |
| Responses.CallsInOrder | responses/responses.go:424-440 | the calls of a response are its function-call items, each once, in the order of the items |
| Responses.ToolRun.ExecuteAndBuildOutputs | responses/responses.go:501-630 | outputs and gates follow the specification of running or refusing each call |
| Responses.ToolRun.ToolLoop | responses/responses.go:210-292 | the loop stops at the first iteration that has a reason to, with exactly the follow-ups before it |
| Responses.ToolRun.ResolvePendingCalls | responses/responses.go:355-397 | pending calls are answered by one request of placeholders |
| Responses.ToolRun.RequestFinal | responses/responses.go:312-350 | at most one final request, and the outcome from its reply |
| Responses.ToolRun.RunWithTools | responses/responses.go:100-186 | outcome and conversation of a run, from whatever skills it starts with; each request answers the response before it, and there are at most three requests more than iterations |
| Responses.OutcomeIff | responses/responses.go:154-186 | a run succeeds with the text of its last response if and only if there is one and no limit had stopped the loop on it, and then the text is partial |
| Responses.FollowUpSentIff | responses/responses.go:210-292 | the loop answers a response if and only if it and all before it have calls, an iteration left, no tool called too often, no edit overdue, and a budget and token count that allow it |
| Responses.FinalRequestIff | responses/responses.go:312-350 | a last request for text is sent if and only if neither the loop nor the answers to pending calls gave any, the budget allows it, and there is a response with an id to chain it to |
| Responses.OneOutputPerCall | responses/responses.go:501-630 | one output per call, same id, same order, whichever gate refused it |
| Responses.RunWellChained | responses/responses.go:100-397 | every request chained to a response with calls answers each once, in order; the final request meets calls only if the server ignored tool_choice none |
| Responses.MutationNeedsApproval | responses/responses.go:531-577 | a mutating tool runs only outside readonly mode and, under sign-off, only after an approval |
| Responses.ToolRunsIff | responses/responses.go:501-630 | in every run each call runs if and only if it is known, the skills on the stack at that moment allow it, and, if it changes files, the run is not readonly and a plan was approved where required; otherwise it is refused for the first of these that fails |
| Responses.ForbiddenNeverRuns | responses/responses.go:532-544 | once the loaded skills forbid a tool, it never runs for the rest of the run, and every call of it is refused |
| Responses.SkillDenialLasts | responses/responses.go:531-544 | a tool denied by loaded skills, those of earlier runs included, stays denied for the rest of the run |
| Responses.ResumeMeetsPendingIff | responses/responses.go:644-659 | over any session, with the tasks that record into it: no first request meets unanswered calls if and only if, whenever a process begins, the last run to record had left its loop because there were no calls, or was stopped by a limit on a response without any |
| Responses.SuccessLeavesCallsPending | responses/responses.go:154-177 | a run that succeeds, and whatever run continues its session meets unanswered calls |
| Responses.TaskTakesTheSession | runner/run.go:803-805 | where a task records after its run, a resume continues the conversation of the task |
| Utf8.SeamReads | tools/asciiguard.go:77-84 | how two byte strings in a row read: as both alone, but for at most one rune that forms where they meet |
| Utf8.ValidSplits | tools/asciiguard.go:77-84 | valid UTF-8 splits at every byte that does not continue a sequence |
| Utf8.IndexIsFirst | tools/multiedit.go:101-123 | the search that every replacement uses finds the first occurrence, if there is one |
| Utf8.EncodedReads | tools/asciiguard.go:77-84 | every encoded character reads as itself, whatever follows |
| Utf8.ReadIsEncoded | tools/asciiguard.go:77-84 | whatever reads as a character is its UTF-8 encoding |
| AsciiGuard.NonAsciiCounts | tools/asciiguard.go:77-84 | how often each non-ASCII rune occurs |
| AsciiGuard.ValidateAsciiOnly | tools/asciiguard.go:32-57 | accepts exactly if no non-ASCII rune occurs more often |
| AsciiGuard.ReplacementLawIff | tools/asciiguard.go:24-57 | for any bytes around the edit, the law holds on the whole file if and only if the edit is no deletion or forms no new rune |
| CommentGuard.CountCodeLines | tools/commentguard.go:74-90 | the multiset of code lines |
| CodeOfLine.CodeCounts | tools/commentguard.go:74-117 | a line of white space, code and white space counts as the code, which begins and ends with none, holds no two slashes in a row, and begins with no comment marker |
| CodeOfLine.CommentIsCutOff | tools/commentguard.go:112-117 | a line counts as what stands before its first two slashes in a row |
| CodeOfLine.CommentLinesDoNotCount | tools/commentguard.go:92-106 | a line whose text begins with one of the six markers counts for nothing |
| CodeOfLine.StartsBlankIff | tools/commentguard.go:78 | in bytes: a text begins with white space if and only if it begins with one of the listed encodings |
| CommentGuard.CodeLineDiff | tools/commentguard.go:53-70 | added and removed lines are the two multiset differences |
| CommentGuard.ValidateCommentsOnly | tools/commentguard.go:32-48 | accepts exactly if the multisets of code lines are equal |
| CommentGuard.CodeLinesConcat | tools/commentguard.go:74-90 | counting is additive over texts joined by a newline |
| CommentGuard.ReplacementLawIff | tools/commentguard.go:23-48 | replacing one occurrence keeps the file's code lines if and only if the guard accepts the touched lines in full |
| CommentGuard.AlignedReplacement | tools/commentguard.go:23-48 | so an accepted replacement of whole lines keeps them |
| CommentGuard.UncommentingIsAccepted | tools/commentguard.go:32-48 | an accepted edit inside a line that turns a comment into code |
| MultiEdit.Run | tools/multiedit.go:93-134 | applied and failed edits add up, each failure has its reason, and the file is written only if some edit applied, with the edits applied in order |
| MultiEdit.GuardError | tools/asciiguard.go:62-74 | the comments guard is asked before the ASCII guard |
| MultiEdit.EditReplaces | tools/multiedit.go:119-123 | an edit splits the file at the leftmost occurrences that do not overlap, none left over, and replaces all of them or the first |
| MultiEdit.RefusedIff | tools/multiedit.go:101-118 | an edit is refused if and only if its text is empty, does not occur, changes code in comments-only mode, or adds characters in ascii-only mode |
| MultiEdit.AsciiLaw | tools/multiedit.go:93-124 | in ascii-only mode, over any list of single and global replacements, no non-ASCII rune occurs more often and a valid file stays valid |
| MultiEdit.DeletionFormsQuote | tools/multiedit.go:119-123 | a deletion in an invalid file that forms a quotation mark |
| MultiEdit.CommentsLaw | tools/multiedit.go:93-124 | in comments-only mode, edits of whole lines keep the file's multiset of code lines |
| MultiEdit.AdjacentOccurrencesFuse | tools/multiedit.go:119-121 | global replacement of aligned occurrences that share a line end fuses two code lines |
| SkillCatalog.Catalog.ResolveCollisions | skill/catalog.go:237-254 | marks as shadowed exactly the entries that are not of lowest scope and earliest discovery |
| SkillCatalog.UniqueWinner | skill/catalog.go:237-254 | every name has exactly one winner |
| SkillCatalog.Catalog.SortStable | skill/catalog.go:257-265 | the same entries in order of name, then scope; those of one name and scope keep their order |
| SkillCatalog.EntryOrder | skill/catalog.go:257-265 | the order of the list: by name, character by character, then the hiding scope first |
| SkillCatalog.Catalog.Find | skill/catalog.go:296-306 | the first visible entry of a name |
| SkillCatalog.Catalog.Filter | skill/catalog.go:327-355 | the visible entries the options select, in order |
| SkillCatalog.Catalog.Visible | skill/catalog.go:269-277 | the unshadowed entries |
| SkillCatalog.FilteredInOrder | skill/catalog.go:327-355 | the filtered list holds the selected visible entries, each as often and in the order of the catalog |
| SkillCatalog.OneVisiblePerName | skill/catalog.go:150-306 | in a catalog each name has exactly one visible entry, its winner, so Find returns it |
| SkillCatalog.FilterSelectsWinners | skill/catalog.go:320-355 | a filtered list holds exactly the selected winners, under unique names |
| SkillCatalog.DeniedIsShownIff | skill/catalog.go:308-355 | a denied skill is shown if and only if it is a winner that the allow list names |
| SkillCatalog.AllowedAndDenied | skill/catalog.go:314-355 | a catalog whose one skill is both allowed and denied shows it |
| SkillStack.Stack.Push | skill/stack.go:40-53 | adds an entry once, unless it has no directory |
| SkillStack.SkillRuntime.AllowsTool | tools/skill.go:50-66 | allowed exactly if every restricted skill on the stack permits the tool, and Skill always |
| SkillStack.SkillRuntime.Find | tools/skill.go:71-81 | the first entry of a name |
| SkillStack.SkillRuntime.Load | tools/skill.go:164-205 | stack and log after a load, with every refusal |
| SkillStack.LoadMeans | tools/skill.go:164-205 | a load takes the first entry of the name if its body is at most 64 KiB; when it is refused, and what it stacks and logs otherwise |
| SkillStack.SkillRuntime.Rehydrate | runner/model.go:138-176 | a fresh stack becomes the replay of the log |
| SkillStack.LastIs | runner/model.go:146-149 | a resume takes the last entry of a name |
| SkillStack.StackIsReplayIff | runner/model.go:116-176 | over all histories of loads, loads by other runs on the same log, and resumes, the stack equals the replay of the log, if and only if no loadable name is ambiguous and the run can stack nothing that the others load |
| SkillStack.CatalogStackIsReplayIff | runner/model.go:116-176 | for what a catalog shows an agent: exactly if no skill shown that has a directory can be loaded by another run |
| SkillStack.SessionIsSeen | runner/model.go:116-176 | each run of a session of any number of runs behaves as a single run with the loads of the others as foreign ones |
| SkillStack.SessionStacksIff | runner/model.go:116-176 | in every session of every number of runs each live stack equals the replay of the shared log, if and only if no names are ambiguous and no run can load what another can stack |
| SkillStack.TaskSharesTheLog | runner/model.go:862-886 | one skill and a task: what the task loads is on the stack of the resumed run and not of the live one, and what the run loaded is on the stack of the fresh task |
| SkillStack.StackDistinct | skill/stack.go:34-53 | the stack holds distinct, non-empty directories |
| SkillStack.StackGrowsIff | skill/stack.go:17-20 | over all such histories nothing loaded is lost, if and only if loads and replays stack the same skills and no unseen load puts another skill in the directory of a loaded one |
| SkillStack.ResumeReorders | runner/model.go:138-176 | a resume puts what another run loaded first before what the run has on its stack |
| SkillStack.CatalogIsSteady | skill/catalog.go:174-233 | what a catalog shows meets that condition, whatever other runs load, as one directory has one manifest |
| SkillStack.SessionGrows | skill/stack.go:17-20 | in every session of any number of runs no run loses a skill, and its tools only shrink, under that condition |
| SkillStack.ToolsOnlyShrink | tools/skill.go:44-66 | under that condition the allowed tools only shrink over loads, loads by others and resumes, with Skill always allowed |
| Tailer.EventTailer.RefreshEvents | watch/tailer.go:105-143 | one refresh folds the unseen lines into the state and moves the offset |
| Tailer.EventTailer.ApplyEvent | watch/tailer.go:147-187 | one event updates counters, last tool, last error and the capped list |
| Tailer.RefreshEqualsOnePass | watch/tailer.go:105-143 | after any interleaving of whole-line appends and refreshes, a refresh leaves what one pass over the file gives, with the offset at its end |
| Tailer.KeptEvents | watch/tailer.go:182-186 | the cap changes nothing but how many events are kept |
| Tailer.LastAreKept | watch/tailer.go:182-186 | the events kept are all of them without a cap, and otherwise the last of them, as many as the cap |
| Tailer.CountsAreTotals | watch/tailer.go:147-176 | each counter is the number of events of its kind |
| Tailer.LatestIsShown | watch/tailer.go:147-187 | the tool and the error shown are those of the latest events that tell one, the time is that of the latest event |
| Tailer.OffsetDrift | watch/tailer.go:122-141 | how far the offset moves, on any file of lines that are not too long |
| Tailer.LongLineBlocks | watch/tailer.go:120-139 | a line of four megabytes or more is never read, nor is anything behind it |
| Tailer.PartialLineIsSplit | watch/tailer.go:102-143 | what becomes of a line that is read before it is complete |
| Tailer.PartialLineSurvivesIff | watch/tailer.go:102-143 | that is harmless if and only if only the newline was missing |
| Frontmatter.SplitFrontmatter | skill/manifest.go:315-331 | computes the split |
| Frontmatter.IndexClosingFence | skill/manifest.go:348-366 | finds the first fence line |
| Frontmatter.FenceIff | skill/manifest.go:357 | a fence is three dashes with nothing behind them but carriage returns |
| Frontmatter.SplitUndoesPrint | skill/manifest.go:312-376 | splitting a printed file returns frontmatter and body exactly |
| Frontmatter.SplitComesFromPrint | skill/manifest.go:312-376 | every file that splits is laid out as a printed one, closed by its first fence line |
| Frontmatter.SplitIff | skill/manifest.go:312-376 | a file splits into two parts if and only if it is those two, printed |
| Transcript.EncodeParts | tools/transcript.go:112-141 | the stored form of each part that has one |
| Transcript.DecodeParts | tools/transcript.go:144-165 | the parts a stored form stands for |
| Transcript.DecodeUndoesEncode | tools/transcript.go:112-165 | decoding undoes encoding, up to the plain form of each part |
| Transcript.SaveTranscript | tools/transcript.go:58-83 | what is stored; a conversation without turns leaves the file as it was |
| Transcript.LoadTranscript | tools/transcript.go:88-108 | the stored conversation |
| Transcript.LoadUndoesSave | tools/transcript.go:58-108 | loading undoes saving, up to plain form and without system messages |
| Transcript.SplicePriorMessages | tools/transcript.go:170-184 | by position: everything but the last initial message, then all prior messages, then that last one; nothing is lost or added, and either list may be empty |
| Transcript.ResumesAccumulate | tools/transcript.go:58-184 | where one run saves per process: over any number of resumes every turn of every run is kept once, in order, and each resume sends its own system prompt, all turns and the new prompt |
| Transcript.SaveReplaces | tools/tools.go:395-402 | a save replaces the file by what the run had replayed and what it added |
| Transcript.MainsAccumulate | tools/tools.go:395-402 | the same with tasks that save to the file, as long as the main run of every process saves last |
| Transcript.MainsAccumulateIff | tools/tools.go:395-402 | whatever the conversations, a session keeps exactly the turns of its main runs, once and in order, if and only if the main run of every process is the last of it to save |

## Left out

- Provider clients, MCP transports, executors, browser, telemetry, terminal UI and CLI commands: I/O around the modelled logic. A model call is an oracle that returns calls, text and cost.
- YAML, JSON and regular expressions: the model starts from decoded records; which log lines decode to which events is an arbitrary function.
- Git, worktrees and applying diffs: their meaning lies in git.
- The LangChain tool loop with its compaction, repeat and edit-deadline trackers: in `Responses` they are arbitrary booleans, in `Transcript` a run's loop appends arbitrary messages.
- Token and price accounting, and the roll-up of child costs: costs are given reals.
- Cron parsing, timers and file watching: a function for the next fire, an abstract set of live jobs, and reloads at arbitrary moments.
- Creating, updating and deleting routines from inside the process: the store changes only from outside, between reloads.
- Lazy initialisation of the spent value: it is initialised before the first tier.
- Checks settled by one branch: name syntax, option words, prompt and report texts, truncation of long outputs, spilling of large results.
- CostBudget.Ledger.RunAgent: states what one agent does with no other in flight; concurrent agents are the step system of the same module. The cap is not rounded to four decimals.
- CostBudget.AtomicSpendingBound: needs check and cap read to be one step, which they are not in the source; `CostBudget.StaleCheckLosesTheCap` shows why.
- MultiEdit.CommentsLaw: one direction only for lists of edits; for a single replacement `CommentGuard.ReplacementLawIff` is exact.
- MultiEdit.AsciiLaw: the text to find and its replacement are valid UTF-8, as JSON decoding makes them.
- RoutineConvergence.DaemonConverges: no event is dropped; what a dropped one does is `RoutineConvergence.QuietDeliveryIff`.
- Responses.ResumeMeetsPendingIff: response ids are non-empty and distinct.
- WorkLists.AppendInPlace: does not model growth beyond capacity, because the merged partition always ends at or before the end of the shared array.
- SkillStack.StackIsReplayIff: every successful load is taken to reach the log, and no agent's entries change between resumes.
- CostBudget.SpendingIsBoundedIff: all agents may be in flight together, as those of one tier.
- Transcript.ResumesAccumulate: a run's loop only appends; with compaction only `Transcript.LoadUndoesSave` applies.
- Transcript.MainsAccumulateIff: every process has one main run; the shards of a sharded run, which has none, are not part.
- Tailer.RefreshEqualsOnePass: one-line summaries of events are display text and not part of the state.
