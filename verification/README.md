# Caesium in Dafny

A Dafny 4.11 model of the parts of Caesium, a DAG scheduler, whose correctness is not visible
from any single function: the run-owner dispatch protocol, the freshness substrate, DAG
layering, incremental execution, the incident machinery, blame, contract enforcement and the
event outbox. `dafny verify dfyconfig.toml` checks the whole project.

## How it is organised

- `TaskRuns`, `DispatchProtocol`, `DispatchSafety`, `DispatchTheorems`, `DispatchClaims`,
  `DispatchHandler`: the dispatch protocol as a transition system over leases, rows and
  messages. Any number of nodes and handlers take part. Messages are never taken out of the
  network, so they may be lost, duplicated and reordered. The handlers themselves are classes
  proved against the steps of that system. `DispatchRows` says what the steps do to rows and
  leases, column by column.
- `Watermark`, `WatermarkCases`, `WatermarkOrder`, `WatermarkStore`: the watermark contract of a
  dataset, case by case, when the order of its observations matters, and concurrent advances.
- `CycleDetection`, `DatasetGraph`: the three-colour search and the cross-job graph checks.
- `Layering`, `DagAnalysis`: longest-path depths, and Kahn's algorithm layer by layer.
- `HashPreimage`, `HashIdentity`, `HashTheorems`, `HashAgreement`, `HashFormat`, `HashCompute`,
  `HashSeparators`: the stream that identifies an execution, its text, and what can be read back
  from it.
- `ShortCircuit`, `CacheTable`, `CacheMeaning`: the substitution of equivalent hashes and the
  result cache.
- `Executions`, `CachedExecution`, `TaskInputs`, `CachingLimits`: what a cache key says about an
  execution, any number of runs over one cache against plain execution, what a task is given, and
  where that ends. An execution may depend on predecessors without output, through what those
  depended on in turn.
- `Redaction`, `Scrubber`, `ScrubTokens`, `SecretOverlap`: left-to-right redaction, the log
  scrubber, what it does to tokens, and which secrets come back through the placeholder.
- `RunAdmission`, `AdmissionCases`: admission of a run under its job's concurrency policy.
- `Freshness`: when a dataset is stale and whether its inputs have moved on.
- `Downstream`, `Derivations`, `OneRunPerKey`, `RunSlots`, `DoubleRuns`, `EvaluatorLoop`: the
  freshness evaluator beside dequeuers, retries, policy changes and everything else that writes
  runs and queue rows.
- `ContractGraph`, `ContractPairs`, `ContractEnforcement`, `PairEnforcement`, `Acknowledgements`:
  findings, edges, the pairs of steps behind declared edges, groups, the decision, what it means
  for the pairs, and how long an allowance lasts.
- `EventOutbox`, `OutboxRuns`, `OutboxRepeats`: the outbox, what undisturbed transactions and
  dispatches leave, and how often an event is published.
- `SnoozeTimers`, `TimerChains`: durable timers, and when the next retry of a chain is due.
- `Blame`, `BlameMeaning`, `PeerRotation`: attribution to snapshots, and the choice of peers.
- `Options`, `Strings`, `TextLemmas`, `Permutations`: shared definitions.

Clocks, answers of other services, hashing, number parsing and similar outside functions are
parameters, so every theorem holds for all of them. A step that is not enabled leaves the state
as it is; a history is any finite sequence of steps.

## What the proofs say about the code

Most of the promised laws hold as they stand. These are the places where the code does less,
each with the exact condition.

- A reported failure overwrites a row that already succeeded, because the failure write looks
  at the claimant only. A completion changes a row that nobody reset exactly when the row names
  the worker and is running, or is terminal but not failed and the report is a failure.
- A reset between the claim and the load of a dispatch can lead to two work items of one claim.
  Every claim has exactly one handler or item throughout a run if and only if no load of the run
  finds another live claim than the handler's own.
- A dropped observation of a watermark may be verified, and among values of different kinds even
  advance, when it is decided again, although a comment says it would still be dropped. A
  regression stays dropped if values are compared by size. Among incomparable values a drop for
  being out of order turns into a verification if and only if the observation's own value has
  been stored meanwhile, and is a drop otherwise. No drop ever turns into an advance, in any
  stream over a set of values, if and only if displacing is transitive on the set.
- Streams that mix integers and decimals end with a value that depends on the order. Two values
  end alike in both orders if and only if exactly one of them displaces the other; all streams
  over a set of values are free of the order if and only if displacing is a linear order on it.
- The stream identifies an input if no field contains a separator. For each separator (newline,
  `=` in keys, `:` in mounts and predecessor names, NUL in command words) there are different
  inputs with the same stream. The stream does not tell the command `[]` from `[""]`.
- A cache key stands for one execution if and only if every predecessor without output has
  published its hash. A predecessor that does not cache publishes none, and a restart forgets
  the hashes of finished tasks, so a caching task behind a silent predecessor can be served the
  result of an older version. If every task caches, tasks run after successes and no process
  restarts, this cannot happen.
- A task that ran again with the old output spares its successors only once. The successor's key
  stays as it was if and only if no newer live entry of the task has that output, and the first
  such run leaves one.
- The evaluator reads runs and queue one after the other. Its request finds a run for the key
  under way if and only if one was started from the queue or retried after the first read and is
  still running. A dequeuer that starts its run between the reads, one whose row was taken away
  and one that dies before it deletes its row each give the key a second run if and only if the
  job has two free slots. Without such steps and retries no key ever has two runs.
- The number of a job's active runs exceeds its policy's limit if and only if a person retries a
  run while the job is full. So under a limit of one, no key ever has two runs, whatever races,
  unless a person retries a run beside another. With the policies as they are and no retries by
  persons, a key can come to have two runs if and only if its job has a policy that allows two.
- A secret that is part of the placeholder `[REDACTED]` survives scrubbing. Among lists of
  secrets that are part of it or cannot overlap it (bracket-free secrets are one or the other) these are
  the only ones that survive, and scrubbing is idempotent if and only if no secret is a proper
  part of it. A secret with a bracket, such as `abcdef[`, can survive its own replacement if and
  only if it overlaps the placeholder in one of four ways.
- A run that the evaluator queues costs no budget: one evaluation can queue any number of runs,
  for jobs that are full.
- The id of a contract edge joins job and dataset names without escaping them, and an edge keeps
  the names of the pair of steps that took up its id first. A breaking finding of a pair can be
  lost, for some schemas and some incoming jobs, if and only if that first pair does not have both
  of its jobs: if job `a` produces `d:/e` for `b` and `e` for `b:/d`, a break of the second pair
  does not block when only `b:/d` comes in. Every breaking finding is enforced as its pair's own
  if and only if no two pairs share an id or a group without sharing what these stand for. This is
  so if no alias contains a colon or a NUL, whatever the datasets are called.
- An event is published as often as a delivery takes it up and gets to it. A crash between
  publishing and marking leaves it pending, and it is published again.
- The key of a consumed dataset joins namespace and name with a dot, so that the inputs `a`/`b` and
  `a.b` share one watermark in the snapshot, although a comment says they do not. Without dots in
  namespaces and in names without a namespace, keys are different.
- A node whose own address carries white space can be benched by itself. Every tick lists the node
  if and only if its address is usable, and needs no trimming or is the only usable one.

## Model

| member | source | states |
|---|---|---|
| `TaskRuns.TerminalRowChangesExactlyOnFailure` | internal/run/store.go:3174-3244 | a completion changes a terminal row exactly when it reports a failure for the row's claimant and the row does not say failed |
| `TaskRuns.ReleaseUndoesClaim` | internal/run/store.go:1783-1804 | releasing a fresh claim leaves nothing but the counter and the stamp, and the row can be claimed again |
| `DispatchSafety.StepKeepsInv` | internal/dispatch/dispatch.go:260-587 | every step of the protocol keeps the invariant over leases, rows, calls, items and messages |
| `DispatchTheorems.RunKeepsInv` | internal/dispatch/dispatch.go:260-587 | the invariant holds in every state of every run |
| `DispatchTheorems.NoClaimIsOrphaned` | internal/dispatch/dispatch.go:308-397 | in every reachable state a running dispatch claim has a handler in its call or a submitted item of the same claim, worker and generation |
| `DispatchClaims.OneAnswersExactlyWhen` | internal/dispatch/dispatch.go:308-397 | in a run every live claim has exactly one handler or item at all times if and only if no load finds a live claim other than the handler's own |
| `DispatchClaims.ForeignLoadDoubles` | internal/run/store.go:1756-1769 | a load that finds another handler's live claim gives that claim two |
| `DispatchTheorems.RefusedCallLeavesNoClaim` | internal/dispatch/dispatch.go:385-397 | a call that rolls back leaves its claim running nowhere and submits nothing |
| `DispatchTheorems.AcceptedCallSubmitsItsClaim` | internal/dispatch/dispatch.go:308-383 | a call that is accepted submits one item, with its own key, generation and worker, and the claim that still runs |
| `DispatchTheorems.CallInFlightWasChecked` | internal/dispatch/dispatch.go:412-520 | a completion call in flight passed the lease fences at an earlier step |
| `DispatchTheorems.AppliedCompletionWasFenced` | internal/dispatch/dispatch.go:412-587 | a completion that changes a row names the claimant, stems from a submitted item, and passed a check in which the handling node was the unexpired owner at exactly the envelope's generation |
| `DispatchTheorems.GenerationsGrow` | internal/run/lease.go:39-104 | a run's generation never goes back |
| `DispatchTheorems.NoStaleEnvelopePasses` | internal/dispatch/loop.go:228-245 | once a takeover moved the generation on, no check of an older envelope passes, on any node |
| `DispatchTheorems.StampsGrow` | internal/run/store.go:1665-1723 | the generation stamp of a row never goes back |
| `DispatchTheorems.FinishedStep` | internal/run/store.go:3174-3244 | a terminal row changes its status only to failed, and only when a failure of that very task is reported in the name of its claimant, or by local execution, which names none |
| `DispatchTheorems.FinishedStaysFinished` | internal/dispatch/dispatch.go:519-587 | without a retry a terminal row stays terminal for the rest of the run |
| `DispatchTheorems.TurnsTerminalAtMostOnce` | internal/dispatch/dispatch.go:412-587 | without a retry a row turns terminal at most once in any run |
| `DispatchTheorems.CompletionFindsTaskRunning` | internal/dispatch/dispatch.go:519-587 | the exact condition under which a completion changes a row that nobody reset |
| `DispatchTheorems.DispatchCallSucceeds` | internal/dispatch/dispatch.go:260-383 | the state after an undisturbed dispatch call |
| `DispatchTheorems.ReportIsApplied` | internal/dispatch/dispatch.go:412-587 | the state after an undisturbed report, check and apply |
| `DispatchTheorems.SuccessCanBeOverwrittenByFailure` | internal/run/store.go:3174-3244 | from any state with a claimable row and a live lease, a success can be overwritten by a failure of the same worker |
| `DispatchTheorems.ResetCanDuplicateAClaim` | internal/run/store.go:3692-3710 | a reset between claim and load leads to two items of one claim |
| `DispatchRows.DispatchesExactlyTheReady` | internal/run/store.go:1665-1723 | a delivered envelope makes a call if and only if its node has a worker and the row is pending, unclaimed, has no open predecessor unless the owner vouches for that, is not held back beyond the clock and not stamped by a newer owner; otherwise nothing moves |
| `DispatchRows.DispatchWrites` | internal/run/store.go:1665-1723 | the columns that a claim writes, in this row only |
| `DispatchRows.EveryCallWasReady` | internal/dispatch/dispatch.go:308-397 | in every run, every call in flight began with a task that was ready in that sense |
| `DispatchRows.EveryItemWasReady` | internal/dispatch/dispatch.go:308-397 | in every run, no worker is ever given a task that was not ready when it was claimed for it |
| `DispatchRows.CompletionWritesTheReport` | internal/dispatch/dispatch.go:519-587 | in every run, a completion of a running task writes cached, succeeded or failed as the report and the result say, into this row and no other column; one of another claimant writes nothing |
| `DispatchRows.LateCompletionWritesFailuresOnly` | internal/run/store.go:3174-3244 | a finished task keeps its status, except that a failure of its claimant fails it |
| `DispatchRows.LeasesMove` | internal/run/lease.go:39-150 | a lease begins at generation one, is renewed by its owner, and taken over, by one generation, by another node once it has expired |
| `DispatchRows.SendsExactlyWhen` | internal/dispatch/loop.go:337-358 | envelopes name a worker and a generation that the run's lease has had |
| `DispatchRows.ChecksExactlyWhen` | internal/dispatch/dispatch.go:412-520 | a completion gets through if and only if its report is known, the node holds the run's unexpired lease and the envelope is of its generation |
| `DispatchRows.CallsGoOn` | internal/dispatch/dispatch.go:308-397 | what load, submit and rollback do to the call, the items and the row |
| `DispatchRows.OutsideWrites` | internal/run/store.go:3166-3290 | what each other writer makes of a row |
| `DispatchRows.CancelWrites` | internal/run/store.go:3531-3600 | cancelling a run deletes its lease and cancels its unfinished tasks |
| `DispatchHandler.RunStore.ClaimTaskForDispatch` | internal/run/store.go:1665-1723 | claims exactly a claimable row, atomically |
| `DispatchHandler.RunStore.LoadDispatchedTaskRun` | internal/run/store.go:1756-1769 | finds exactly a running row of the claimant |
| `DispatchHandler.RunStore.ReleaseTaskClaim` | internal/run/store.go:1783-1804 | takes back exactly a running claim of that worker and generation |
| `DispatchHandler.RunStore.ApplyClaimed` | internal/run/store.go:2621-2895 | applies a report to the claimant's row and to no other |
| `DispatchHandler.CallEnds` | internal/dispatch/dispatch.go:308-397 | an undisturbed run of a call's steps, if the task may be claimed, ends with the claimed row queued or the claim given back |
| `DispatchHandler.IdleCallEnds` | internal/dispatch/dispatch.go:300-334 | otherwise it changes nothing |
| `DispatchHandler.Handler.QueueClaimed` | internal/dispatch/dispatch.go:336-397 | a claimed row is queued if it can be read and there is room; otherwise the claim is given back |
| `DispatchHandler.Handler.HandleDispatch` | internal/dispatch/dispatch.go:260-397 | accepts exactly what it can claim, load and queue; otherwise queues nothing and leaves no claim; equals the protocol's steps |
| `DispatchHandler.Handler.HandleComplete` | internal/dispatch/dispatch.go:412-587 | answers 200 exactly when the fences pass, the write is uncontended and the claimant matches; every other answer changes nothing |
| `Watermark.ColumnsComeFromAcceptedObservations` | internal/freshness/state.go:304-365 | every column of the row comes from the last accepted observation of its kind |
| `Watermark.DroppedObservationsLeaveNoTrace` | internal/freshness/state.go:304-348 | replaying the accepted observations alone gives the same row |
| `Watermark.ReplayHoldsMaximum` | internal/freshness/state.go:304-348 | for values compared by size the row holds the maximum of all observations that count |
| `Watermark.IntegerStreamKeepsMaximum` | internal/freshness/state.go:382-410 | an all-integer stream stores its maximum in every processing order |
| `Watermark.InstantStreamKeepsMaximum` | internal/freshness/state.go:382-410 | the same for date-times |
| `Watermark.UnsignedStreamKeepsMaximum` | internal/freshness/state.go:378-413 | the same for integers beyond the signed range |
| `Watermark.DecimalStreamKeepsMaximum` | internal/freshness/state.go:378-413 | the same for decimals |
| `WatermarkCases.BackfillsDoNotCount` | internal/freshness/state.go:304-310 | a stream and the stream without its backfills give one row |
| `WatermarkCases.BackfillIsAnswered` | internal/freshness/state.go:304-310 | backfills, and only they, are answered as dropped backfills |
| `WatermarkCases.VerifiedExactlyWhen` | internal/freshness/state.go:304-348 | an observation verifies if and only if it has no value or the stored one, and then moves exactly the verification time, the last run and a snapshot if it has one |
| `WatermarkCases.AdvancesExactlyWhen` | internal/freshness/state.go:304-348 | a value advances if and only if it is the first, or larger in the kind that the stored one is of first, or of another kind and of a later run; and what it writes |
| `WatermarkCases.DroppedExactlyWhen` | internal/freshness/state.go:304-348 | everything else is dropped, as out of order or as a regression, and writes nothing |
| `Watermark.ProcessingOrderDoesNotMatter` | internal/freshness/state.go:304-348 | two orders of the same comparable observations store values of the same size |
| `Watermark.OpaqueStreamKeepsLatest` | internal/freshness/state.go:304-348 | incomparable, different values with different run orders end with the latest run order |
| `Watermark.MixedStreamDependsOnOrder` | internal/freshness/state.go:382-410 | an integer and a larger decimal end differently in the two orders |
| `Watermark.DropCanTurnIntoVerify` | internal/freshness/state.go:190-284 | an out-of-order value may be verified when decided again |
| `Watermark.RegressionStaysDropped` | internal/freshness/state.go:190-284 | a regression stays one, whatever comparable observations come between |
| `Watermark.RegressionBySize` | internal/freshness/state.go:304-348 | an observation regresses exactly when it is not larger than the stored value and not that value itself |
| `WatermarkOrder.TwoEndAlikeExactlyWhen` | internal/freshness/state.go:304-410 | two different values end alike in both orders if and only if exactly one of them displaces the other |
| `WatermarkOrder.OrderFreeExactlyWhenLinear` | internal/freshness/state.go:304-410 | all streams over a set of values end alike in every order if and only if displacing is a linear order on the set |
| `WatermarkOrder.TopIsStored` | internal/freshness/state.go:304-348 | then the row stores the value that displaces all others of the stream |
| `WatermarkOrder.OutOfOrderDropTurnsExactlyWhen` | internal/freshness/state.go:190-348 | among incomparable values a drop for being out of order is later a verification if the row stores the observation's own value, and the same drop if not |
| `WatermarkOrder.DropCanTurnIntoAdvance` | internal/freshness/state.go:190-348 | a regression advances when it is decided again after an incomparable value took the larger one's place |
| `WatermarkOrder.DropsStandExactlyWhenTransitive` | internal/freshness/state.go:190-348 | in no stream over a set of values a dropped observation advances later if and only if displacing is transitive on the set |
| `WatermarkStore.StepKeepsInv` | internal/freshness/state.go:190-284 | each step of an interleaved advance keeps the row explained by the log of effects |
| `WatermarkStore.AdvancesAreLinearizable` | internal/freshness/state.go:190-284 | in every interleaving the row and all outcomes are those of running the contract one call after another |
| `WatermarkStore.CallTakesEffectOnce` | internal/freshness/state.go:190-284 | every entry of the log was written by one step of its own call, after the entries before it, and no other entry is of that call |
| `WatermarkStore.CallAlone` | internal/freshness/state.go:190-284 | a call that nobody disturbs is answered and logged once, and writes the row if the observation is accepted |
| `WatermarkStore.AttemptsEnd` | internal/freshness/state.go:126-166 | a busy attempt leaves nothing but the call that may read again |
| `WatermarkStore.ConcurrentIntegersKeepMaximum` | internal/freshness/state.go:190-410 | concurrent integer advances store the maximum |
| `WatermarkStore.DatasetState.Advance` | internal/freshness/state.go:351-358 | the fields an advance writes |
| `WatermarkStore.DatasetState.VerifyOnly` | internal/freshness/state.go:361-365 | the fields a verification writes |
| `WatermarkStore.DatasetState.ApplyContract` | internal/freshness/state.go:304-348 | decides and writes as the contract says |
| `WatermarkStore.StateTable.AdvanceTx` | internal/freshness/state.go:190-284 | one advance on a table without competitors |
| `WatermarkStore.StateTable.Advance` | internal/freshness/state.go:126-166 | retries while busy; gives up, without effect, after five attempts |
| `CycleDetection.CyclePath` | internal/freshness/graph.go:180-191 | the stack from the first occurrence on, closed |
| `CycleDetection.Visit` | internal/freshness/graph.go:134-178 | ends, and returns a real cycle or leaves the node and everything below it finished |
| `CycleDetection.DetectGraphCycle` | internal/freshness/graph.go:134-178 | returns a simple closed walk if and only if there is a cycle, and nothing if and only if a strict ranking exists |
| `DatasetGraph.ValidateGraph` | internal/freshness/graph.go:36-111 | accepts if and only if every dataset has one producer at most, every consumed dataset is produced or a source, and the jobs can be ranked along every cross-job edge; each rejection names a real violation |
| `DatasetGraph.TwoProducersExactlyWhen` | internal/freshness/graph.go:36-111 | a dataset has two producers if and only if two declarations of different aliases say so, white space aside |
| `DatasetGraph.UnresolvedExactlyWhen` | internal/freshness/graph.go:36-111 | a consumed dataset is unresolved if and only if no declaration produces it or names it a source |
| `DatasetGraph.FeedsExactlyWhen` | internal/freshness/graph.go:36-111 | a job feeds another if and only if it produces something that the other one consumes |
| `Layering.DepthIsLongestPath` | internal/dag/analysis.go:59-77 | a depth is the length of the longest path from a root, and such a path exists |
| `Layering.NoPathWithinLayer` | internal/dag/analysis.go:59-77 | no path joins two steps of one depth |
| `Layering.NoDepthExactlyBelowCycles` | internal/dag/analysis.go:59-77 | a step has no depth exactly when it lies on or below a cycle |
| `Layering.AcyclicGivesAllDepths` | internal/dag/analysis.go:59-77 | on an acyclic graph every step has a depth |
| `DagAnalysis.BuildPredecessors` | internal/dag/analysis.go:35-44 | the predecessor lists are the inverse of the successor lists, without repetition |
| `DagAnalysis.CountPredecessors` | internal/dag/analysis.go:46-50 | the in-degree is the number of predecessors |
| `DagAnalysis.PeelLayers` | internal/dag/analysis.go:59-77 | layered peeling ends and yields longest-path depths |
| `DagAnalysis.MaxParallelism` | internal/dag/analysis.go:79-84 | the size of the largest layer |
| `DagAnalysis.Analyze` | internal/dag/analysis.go:29-114 | layers, depths, roots, leaves and step details, all as described |
| `DagAnalysis.AnalysisMeans` | internal/dag/analysis.go:29-114 | roots, leaves, step details, depths and the widest layer, each in terms of the successor lists, in definition order |
| `DagAnalysis.LayersGoByLongestPath` | internal/dag/analysis.go:29-114 | a step is in exactly one layer, that of its longest path, unless a cycle is at or above it, and then in none |
| `DagAnalysis.PathsLeaveTheirLayer` | internal/dag/analysis.go:29-114 | every path climbs strictly through the layers |
| `HashIdentity.StreamUnique` | internal/cache/hash.go:290-405 | a stream of clean lines splits into its lines in one way |
| `HashIdentity.MountKeyUnique` | internal/cache/hash.go:225-227 | the sort key of a clean mount determines the mount |
| `HashIdentity.PairsUnique` | internal/cache/hash.go:306-314 | sorted `key=value` lines determine the map |
| `HashIdentity.OutputsUnique` | internal/cache/hash.go:352-384 | predecessor output lines determine the outputs, less empty predecessors |
| `HashTheorems.StreamDeterminesIdentity` | internal/cache/hash.go:290-399 | clean inputs with the same stream have the same identity |
| `HashTheorems.IdentityDeterminesStream` | internal/cache/hash.go:237-261 | reordering mounts, volume mounts or predecessor hashes, changing the queue name or adding predecessors without outputs does not change the stream, for all inputs |
| `HashTheorems.StreamIsIdentity` | internal/cache/hash.go:290-399 | for clean inputs: same stream if and only if same identity |
| `HashTheorems.KubernetesUnique` | internal/cache/hash.go:426-433 | the Kubernetes lines determine exactly the hashable part of the specification |
| `HashAgreement.SameStreamExactlyWhen` | internal/cache/hash.go:290-401 | clean inputs have one stream if and only if they agree in every field that is hashed, spelled out field by field |
| `HashAgreement.SpecificationDecides` | internal/cache/hash.go:329-350 | inputs that differ in the Kubernetes part only have one stream if and only if account, annotations and automount agree, an absent part counting as one that sets nothing |
| `HashFormat.StreamIsItsBlocks` | internal/cache/hash.go:290-401 | the stream of every input is the text of its sixteen blocks, with their names, order and payloads |
| `HashFormat.PairsAreEntries` | internal/cache/hash.go:303-318 | an entry of a map is written as its key, an equals sign and its value |
| `HashFormat.MountsAreWritten` | internal/cache/hash.go:225-227 | a mount is written as source, target, kind and read-only flag |
| `HashFormat.OutputsAreWritten` | internal/cache/hash.go:360-388 | an output is written behind its predecessor's name and a colon |
| `HashCompute.SortedMounts` | internal/cache/hash.go:237-247 | a reordering of the mounts whose keys are the sorted keys |
| `HashCompute.SortedPairs` | internal/cache/hash.go:306-314 | the entries of a map in key order |
| `HashCompute.SortedOutputs` | internal/cache/hash.go:352-384 | all predecessor outputs in name and key order |
| `HashCompute.WriteKubernetes` | internal/cache/hash.go:329-350 | the Kubernetes block, present only with identity fields |
| `HashCompute.Compute` | internal/cache/hash.go:290-399 | writes exactly the specified stream |
| `HashSeparators.NewlineForgesALine` | internal/cache/hash.go:306-314 | a newline in a value makes one variable hash like two, for all names and values |
| `HashSeparators.EqualsSignMovesTheBorder` | internal/cache/hash.go:306-314 | an equals sign in a key moves the border between key and value |
| `HashSeparators.ColonMovesTheMountBorder` | internal/cache/hash.go:225-227 | a colon in a mount moves the border between its fields, whatever other mounts there are |
| `HashSeparators.ColonMovesTheNameBorder` | internal/cache/hash.go:352-384 | a colon in the name of a predecessor moves the border between name and key |
| `HashSeparators.SeparatorSplitsAWord` | internal/cache/hash.go:290-305 | a NUL in a command word makes one word hash like two |
| `ShortCircuit.MapsEqual` | internal/cache/shortcircuit.go:116-127 | true exactly for equal maps |
| `ShortCircuit.EquivalentPriorHash` | internal/cache/shortcircuit.go:56-106 | the hash of the most recent eligible prior, the last among equally recent ones; otherwise the task's own |
| `ShortCircuit.PresentedUnique` | internal/cache/shortcircuit.go:56-106 | that specification admits one answer |
| `CacheTable.Store.Get` | internal/cache/store.go:47-67 | serves an entry exactly until its expiry |
| `CacheTable.Store.PriorEntriesByTask` | internal/cache/store.go:102-139 | the newest live entries of the task, newest first, at most 64, and none left out that is newer |
| `CacheTable.PruningIsInvisible` | internal/cache/store.go:173-181 | a pruning changes no later lookup and no later list of priors; at its own instant it takes away exactly the hits that expire then |
| `CacheTable.SubstituteIsNewestEqual` | internal/cache/shortcircuit.go:20-106 | a substituted hash belongs to the most recent live entry of that task with the very same output |
| `CacheTable.OwnHashMeansNoneEqual` | internal/cache/store.go:82-139 | with fewer than 64 priors, keeping the own hash means that no live entry has that output |
| `CacheTable.PresentsExactlyTheNewest` | internal/cache/shortcircuit.go:20-106 | a task is presented under the hash of a given equal entry if and only if that entry is the newest equal one |
| `CacheTable.SecondChangePresentsAnother` | internal/cache/shortcircuit.go:29-37 | of two executions in a row that gave the old output, the second is not presented under the hash of the first's substitute |
| `CacheMeaning.PriorsExactlyWhen` | internal/cache/store.go:102-140 | the query gives live entries of the job's task under other hashes, newest first and once each, at most 64, and one that it leaves out is not newer than any of 64 |
| `CacheMeaning.PresentedExactlyWhen` | internal/cache/shortcircuit.go:56-106 | the hash is that of the newest prior with the very same output, of equally new ones the last, and the task's own if there is none, no output or no hash |
| `CacheMeaning.DeletionsLeave` | internal/cache/store.go:142-181 | what invalidations and pruning leave |
| `Executions.DigestOfStream` | internal/cache/hash.go:290-399 | a collision-free digest of the stream gives a hash that is collision-free and a function of the identity |
| `Executions.KeyDeterminesTrace` | internal/cache/hash.go:290-399 | two executions with the same key depended on the same things, all the way down through predecessors without output |
| `Executions.KeyTellsExactlyWhenCovered` | internal/cache/shortcircuit.go:56-106 | a key stands for one execution if and only if every silent predecessor has published its hash |
| `CachedExecution.HitIsExec` | internal/job/job.go:1021-1058 | a cache hit serves what execution would give, from an execution that depended on the same |
| `CachedExecution.LookupKeeps` | internal/job/job.go:902-1062 | a ready task is given its plain outcome, or handed to the plain execution |
| `CachedExecution.PresentedStands` | internal/cache/shortcircuit.go:56-106 | what the short-circuit presents stands for the task: a silent task keeps its own key, and a substitute is the key of an execution with the very same output |
| `CachedExecution.CompleteStepKeeps` | internal/job/job.go:1085-1160 | completing an execution, with the hash that the short-circuit presents, keeps cache and runs sound |
| `CachedExecution.StoreKeeps` | internal/job/job.go:1138-1155 | what is stored under a key is what every execution with that key gives |
| `CachedExecution.StepKeepsInv` | internal/job/job.go:902-1160 | every step of every run keeps cache and runs sound, unless it looks up a caching task before its silent predecessors published |
| `CachedExecution.CachedIsPlain` | internal/job/job.go:902-1160 | in every interleaved history of any number of runs over one cache, with restarts, pruning and lost writes, every finished task has the outcome of executing every task, as long as no caching task is looked up before its silent predecessors published |
| `TaskInputs.GivenTheOutputs` | internal/job/job.go:908-924 | a task is given, under each name, what the finished predecessor of that name printed, and nothing else |
| `TaskInputs.GivenTheVariables` | internal/job/job.go:955-963 | its variables are its own and those made of the outputs, and the latter win; all else is as the task says |
| `TaskInputs.GivenTheRest` | internal/job/job.go:965-973 | the key covers the hash of every predecessor that has one, and the execution depends on every predecessor that ran without printing, each as often as there are such |
| `TaskInputs.SeesExactlyWhen` | internal/job/job.go:987-1003 | a container can tell two inputs apart if and only if they differ in more than predecessor hashes |
| `TaskInputs.PlainRunMeans` | internal/job/job.go:724-742 | in plain execution a task runs if and only if its rule holds for what its predecessors came to in the same run |
| `TaskInputs.ServedExactlyWhen` | internal/job/job.go:1021-1050 | a ready task is served from the cache if and only if it may be cached, its rule holds, the lookup works and its key has an entry that has not expired; otherwise it is skipped or handed to execution, with its key if it may be cached |
| `TaskInputs.StoredExactlyWhen` | internal/job/job.go:1087-1180 | an execution leaves an entry, under its own key and with its own result, if and only if it may be cached and succeeds |
| `CachingLimits.SteadyIsCovered` | internal/job/job.go:902-1160 | every lookup is covered if every task caches, tasks run only after successes and no process restarts |
| `CachingLimits.UncoveredGoesStale` | internal/job/job.go:665-685 | a caching task behind a changed silent predecessor that does not cache, or whose hash a restart forgot, is served the old result |
| `CachingLimits.KeyFollowsPresentedHash` | internal/cache/shortcircuit.go:29-37 | a successor's key changes exactly with the hash that a predecessor is presented under |
| `CachingLimits.SuccessorIsSparedExactlyWhen` | internal/cache/shortcircuit.go:29-37 | a successor's key stays as it was if and only if no newer live entry of the predecessor has the same output |
| `Redaction.NothingNew` | internal/incident/scrubber.go:135-160 | no pass brings about a text that cannot overlap the placeholder, not even across its borders |
| `Redaction.BracketFreeIsApart` | internal/incident/scrubber.go:135-160 | a text without brackets cannot overlap the placeholder if and only if it is not part of the word REDACTED |
| `Redaction.UnchangedExactlyWhen` | internal/incident/scrubber.go:135-160 | a pass leaves a text alone exactly when it has nothing to take out |
| `Scrubber.Scrubber.constructor` | internal/incident/scrubber.go:64-81 | keeps exactly the scrubbable values, once each, longest first, and in first order among equals |
| `Scrubber.Scrubber.Scrub` | internal/incident/scrubber.go:135-145 | replaces each secret in turn and then the suspicious tokens |
| `Scrubber.NoSecretSurvives` | internal/incident/scrubber.go:135-160 | a kept secret that cannot overlap the placeholder occurs nowhere in any output |
| `Scrubber.PartOfPlaceholderLeaks` | internal/incident/scrubber.go:135-145 | a kept secret that is part of the placeholder occurs in the scrubbed form of itself |
| `Scrubber.ScrubbingIsSafeExactlyWhen` | internal/incident/scrubber.go:64-160 | for secrets that are part of the placeholder or cannot overlap it, which includes all without brackets: no secret ever survives if and only if none is part of it |
| `Scrubber.IdempotentExactlyWhen` | internal/incident/scrubber.go:64-160 | for the same secrets: scrubbing twice is scrubbing once, for all texts, if and only if no secret is a proper part of the placeholder |
| `Scrubber.TokensDecide` | internal/incident/scrubber.go:150-160 | the entropy pass changes a text exactly if it has a long suspicious token |
| `Scrubber.UnchangedExactlyWhenNothingToHide` | internal/incident/scrubber.go:135-160 | for the same secrets: a text passes unchanged exactly if it has no kept secret, other than the placeholder itself, and no suspicious token |
| `SecretOverlap.LeaksExactlyWhen` | internal/incident/scrubber.go:135-145 | for every secret: some text still contains it after its own replacement if and only if it is part of the placeholder, contains it, begins like an end of it, or ends like a beginning of it and is not found earlier behind its own start |
| `SecretOverlap.TrailingBracketLeaks` | internal/incident/scrubber.go:135-145 | the secret `abcdef[` comes back in the text `abcdefabcdef[` |
| `SecretOverlap.ReplacesFirst` | internal/incident/scrubber.go:135-145 | replacing goes on behind the first occurrence |
| `ScrubTokens.KeptExactlyWhen` | internal/incident/scrubber.go:64-133 | a value is removed if and only if it has six bytes or more, is no common word and no plain number; each once, longer ones first |
| `ScrubTokens.TokenIsReplacedExactlyWhen` | internal/incident/scrubber.go:147-160 | a whole token is replaced if and only if it has twenty characters or more and looks like a secret; the text around it is scrubbed as if it stood alone |
| `ScrubTokens.LooksLikeSecretToken` | internal/incident/scrubber.go:162-197 | long, not hexadecimal, of two kinds of characters and of high entropy |
| `Downstream.NewSnapshot` | internal/freshness/evaluator.go:743-772 | the lookup tables say exactly what the declarations say |
| `Downstream.DownstreamOf` | internal/freshness/evaluator.go:774-800 | ends on every set of declarations, cyclic or not, and returns without duplicates exactly what is reachable, less the start |
| `Downstream.FeedsExactlyWhen` | internal/freshness/evaluator.go:743-772 | a dataset feeds another if and only if some job declares that it consumes the one and produces the other |
| `Derivations.DerivationsWithinBudget` | internal/freshness/evaluator.go:264-281 | in every history no evaluation derives more runs than its budget |
| `RunAdmission.AdmissionRespectsSlots` | internal/run/store.go:718-833 | after an admission, whoever asks and whatever the strategy, the job is within its limit or has no more runs than before |
| `RunAdmission.AdmissionLeavesOthers` | internal/run/store.go:718-833 | the runs of other jobs are left alone |
| `RunAdmission.EnqueueKeepsDepth` | internal/run/store.go:3720-3759 | queuing trims the unclaimed rows of the job to the queue's depth and no further |
| `AdmissionCases.AdmittedWithRoom` | internal/run/store.go:718-833 | with room the run is created, except that the evaluator creates none without a policy |
| `AdmissionCases.AdmittedWithoutRoom` | internal/run/store.go:718-833 | what each strategy does without room |
| `AdmissionCases.QueuedExactly` | internal/run/store.go:3720-3759 | queuing adds one row and lets as many free rows of the job go as are too many; other rows stay |
| `AdmissionCases.OverflowExactlyWhen` | internal/run/store.go:3742-3759 | which choices of rows to let go are possible |
| `AdmissionCases.RunningExactlyWhen` | internal/freshness/evaluator.go:579-593 | which runs count as running for a key |
| `AdmissionCases.AsksExactlyWhen` | internal/freshness/evaluator.go:533-560 | a run is asked for if and only if there is budget, the chain is not too long and neither look finds a run |
| `AdmissionCases.RequestCosts` | internal/freshness/evaluator.go:560-577 | a created run costs one derivation and lies one level deeper than its cause |
| `AdmissionCases.EvaluationBegins` | internal/freshness/evaluator.go:169-222 | ticks begin at depth zero, events at the depth of their run |
| `AdmissionCases.RunsMove` | internal/run/store.go:4731-4808 | which runs end, are cancelled and are retried |
| `AdmissionCases.ClaimTakes` | internal/run/store.go:3760-3792 | a free row is claimed with a copy of what it says |
| `AdmissionCases.DequeuerStarts` | internal/runqueue/dequeuer.go:143-170 | a dequeuer starts its copy if there is room |
| `AdmissionCases.DequeuerEnds` | internal/runqueue/dequeuer.go:163-198 | it deletes its row, or gives it back if it is still its own |
| `AdmissionCases.DequeuerRests` | internal/runqueue/dequeuer.go:143-198 | a dequeuer that has started has only its row left to delete, and one that is gone does nothing more |
| `Freshness.FreshAt` | internal/freshness/state.go:492-504 | the later of the two marks |
| `Freshness.WantsRunExactlyWhen` | internal/freshness/evaluator.go:322-392 | a dataset asks for a run if and only if it is not quarantined, more time has passed than its freshness allows, and its inputs are ready |
| `Freshness.StandsExactlyWhen` | internal/freshness/evaluator.go:348-392 | the other standings, each exactly |
| `Freshness.AcceptedMakesFresh` | internal/freshness/state.go:350-365 | an accepted observation makes the dataset fresh for as long as its freshness says |
| `Freshness.UpstreamReady` | internal/freshness/evaluator.go:426-477 | inputs are ready if and only if each named one has moved past what was last consumed, or has a value or was seen if none was; and the snapshot of their watermarks |
| `Freshness.SnapshotExactly` | internal/freshness/evaluator.go:426-477 | the snapshot has the keys of the named inputs, each with a watermark of such an input |
| `Freshness.AdvancedPastExactlyWhen` | internal/freshness/evaluator.go:478-494 | an input has moved on if it has a value and had none, or has another one that is larger or of another kind |
| `Freshness.MovedOnExactlyWhen` | internal/freshness/evaluator.go:433-470 | an input that was consumed before has to have a new value, one that was not a value or a mark that it was made |
| `Freshness.ReplacedIsAdvancedPast` | internal/freshness/evaluator.go:478-494 | whenever the watermark contract replaces a value, the dataset has moved past it |
| `Freshness.NothingNewNotReady` | internal/freshness/evaluator.go:426-477 | a dataset made of its inputs as they are now does not ask again before one of them has moved |
| `Freshness.ParamNamesDiffer` | internal/freshness/evaluator.go:839-845 | keys tell datasets apart if namespaces, and names without one, have no dots |
| `Freshness.DotMovesTheNamespace` | internal/freshness/evaluator.go:839-845 | two inputs with one key, of which the snapshot remembers one |
| `Derivations.StepKeepsDepths` | internal/freshness/evaluator.go:533-577 | a derived run is one deeper than its cause, and never deeper than allowed |
| `Derivations.ChainsAreBounded` | internal/freshness/evaluator.go:533-729 | a causal chain of derived runs is no longer than the trigger depth, whatever the datasets feed |
| `OneRunPerKey.RequestFindsKeyBusyExactlyWhen` | internal/freshness/evaluator.go:552-610 | in every history a request finds a run for its key running or queued if and only if one was started from the queue or retried after the first read and is still running |
| `OneRunPerKey.TwoRunsExactlyWhen` | internal/freshness/evaluator.go:533-577 | a key has two runs at some time if and only if one is created, started or retried while another runs on |
| `RunSlots.SlotsExceededExactlyWhen` | internal/run/store.go:718-833 | in every history in which the job's policy allows at most m runs, more than m are active at some time if and only if a person retries a run while m are active |
| `RunSlots.OneSlotOneRun` | internal/run/store.go:788-833 | if the policy allows one run, no key of the job ever has two, whatever dequeuers, reclaims, deaths, policy changes of other jobs and admitted retries do, unless a person retries a run beside another |
| `RunSlots.TwoRunsPossibleExactlyWhen` | internal/run/store.go:718-833 | with the policies as they are and no retries by persons, some history gives a key two runs if and only if its job has a policy that allows two |
| `DoubleRuns.StartBetweenTheReads` | internal/freshness/evaluator.go:579-610 | a dequeuer that starts its run and deletes its row between the two reads is seen by neither, and a second run is admitted if and only if the job had two free slots |
| `DoubleRuns.RaceIsReachable` | internal/runqueue/dequeuer.go:143-198 | a state in which that happens is reached from the beginning, for every key of a job that queues and allows two runs |
| `DoubleRuns.SlowDequeuerDoubles` | internal/run/store.go:1094-1105 | a dequeuer whose row was reclaimed starts its run beside that of the new claimant if and only if the job had two free slots |
| `DoubleRuns.DeadDequeuerDoubles` | internal/runqueue/dequeuer.go:125-198 | a row left by a dequeuer that died after its start is started again if and only if the job had two free slots |
| `DoubleRuns.RetryDoubles` | internal/run/store.go:4731-4808 | a person's retry of an ended run makes it run beside another one for its key; a retry by the incident machinery does if and only if the job has a slot |
| `DoubleRuns.QueuedRunsAreUnbounded` | internal/freshness/evaluator.go:559-575 | from every state in which the jobs of the keys are full, one evaluation queues a run for each of them, however many, and its budget stays whole |
| `DoubleRuns.FullJobsAreReachable` | internal/run/store.go:718-833 | such states are reached, for any number of jobs |
| `OneRunPerKey.OneRunForEachKey` | internal/runqueue/dequeuer.go:143-198 | without those steps and retries of derived runs no key ever has two runs or two queue rows, a look is still true when the run is asked for, and a dequeuer at work holds its row |
| `EvaluatorLoop.Evaluator.HasActiveOrQueuedRun` | internal/freshness/evaluator.go:579-610 | true exactly if a run for the key was running at the first read or waits at the second, whatever others do in between |
| `EvaluatorLoop.Evaluator.CountActive` | internal/run/store.go:3712-3718 | the number of runs that take a slot of the job |
| `EvaluatorLoop.Evaluator.ReplaceOldest` | internal/run/store.go:764-783 | cancels the oldest run and inserts if that freed a slot; else the run stays cancelled and nothing is inserted |
| `EvaluatorLoop.Evaluator.AdmitRun` | internal/run/store.go:718-787 | equals the admission of the system for every policy and strategy, and says whether the transaction failed and whether a run was created |
| `EvaluatorLoop.Evaluator.Derive` | internal/freshness/evaluator.go:533-577 | equals the two reads and the request of the system among any steps of others, says what it cost, and fails exactly if the transaction does |
| `EvaluatorLoop.DeriveIsARun` | internal/freshness/evaluator.go:533-577 | a derivation is a run of the system: look at the runs, then at the queue, then the request, each only if the one before finds nothing, with the steps of others in between |
| `EvaluatorLoop.FailsExactlyWhen` | internal/freshness/evaluator.go:560-570 | it fails if and only if it comes to the request and that transaction cannot go through |
| `EvaluatorLoop.ReadableExactlyWhen` | internal/freshness/evaluator.go:806-823 | durations can be read if and only if the freshness is a positive one, and the staleness limit too if there is one |
| `EvaluatorLoop.TurnExactlyWhen` | internal/freshness/evaluator.go:264-346 | a dataset ends the evaluation if and only if it has its turn and a duration cannot be read, or it is due and its derivation fails; it changes the tables exactly by its derivation |
| `EvaluatorLoop.AsksExactlyWhen` | internal/freshness/evaluator.go:283-346 | a dataset asks for a run if and only if it is overdue, not quarantined, its inputs have moved on and its job is triggered by freshness |
| `EvaluatorLoop.Evaluator.EvaluateProduced` | internal/freshness/evaluator.go:283-346 | fails if a duration cannot be read or the transaction fails; otherwise derives for exactly such a dataset and records one decision that fits it |
| `EvaluatorLoop.Evaluator.EvaluateWithSnapshot` | internal/freshness/evaluator.go:264-281 | derives at most its budget, leaves the tables as the system's steps do, whatever others do between its statements, stops exactly at the first error, and records one fitting decision for each dataset that has a freshness and is among the targets, in order |
| `EvaluatorLoop.OnlyTheDueAreDerived` | internal/freshness/evaluator.go:264-346 | a run is derived, or found under way, only for datasets that are overdue, ready, triggered, not quarantined, with a freshness and among the targets |
| `EvaluatorLoop.EveryDueIsDecided` | internal/freshness/evaluator.go:264-346 | every such dataset before the first error is decided on, and not as fresh or waiting |
| `ContractGraph.VerdictForFindings` | internal/contract/derive.go:1340-1351 | the worst finding's verdict |
| `ContractGraph.MergeJoins` | internal/contract/derive.go:1452-1475 | merging joins the verdicts |
| `ContractGraph.GraphBuilder.AddEdge` | internal/contract/derive.go:1405-1418 | merges into the edge of the same id, or adds it |
| `ContractGraph.AddsExactlyWhen` | internal/contract/derive.go:1405-1418 | which edges are taken, under which id and with which ends, and that all others stay as they are |
| `ContractGraph.GraphHoldsFindings` | internal/contract/derive.go:1405-1475 | an edge holds exactly the findings of everything added under its id |
| `ContractGraph.GraphHoldsVerdict` | internal/contract/derive.go:1405-1475 | and the worst of their verdicts |
| `ContractGraph.MergeOrderDoesNotMatter` | internal/contract/derive.go:1452-1475 | neither depends on the order of merging |
| `ContractGraph.BreakingStays` | internal/contract/derive.go:1405-1475 | a breaking finding that was added stays in the graph, on an edge that is breaking |
| `ContractGraph.EdgeKeepsFirst` | internal/contract/derive.go:1405-1475 | an edge keeps the ends and the dataset of what took up its id first |
| `ContractPairs.PairsAreTheMeeting` | internal/contract/derive.go:720-804 | the pairs are exactly the producer and consumer steps of different jobs that share a dataset |
| `ContractPairs.DeriveDeclaredEdges` | internal/contract/derive.go:720-804 | the edges of exactly those pairs are merged, in the code's order, into whatever the builder holds |
| `ContractPairs.EdgeOfTaker` | internal/contract/derive.go:1499-1505 | there is an edge exactly for each id of a pair, with the names of the first pair that has it |
| `ContractPairs.EdgeHoldsFound` | internal/contract/derive.go:1452-1475 | the edge holds exactly what is found for any pair of that id, and is breaking if one of these findings is |
| `ContractEnforcement.InAllBreaking` | internal/contract/enforce.go:293-355 | what counts: breaking findings of breaking edges in scope |
| `ContractEnforcement.BreakingGroups` | internal/contract/enforce.go:293-342 | the groups partition the breaking findings in scope |
| `ContractEnforcement.PresentedSubjects` | internal/contract/enforce.go:357-424 | findings that are hashed alike belong to one group, although the subject is hashed once only |
| `ContractEnforcement.DigestsAreDistinct` | internal/contract/enforce.go:408-453 | a digest without collisions on what is hashed, which leaves out a finding's kind, tells groups apart |
| `ContractEnforcement.EvaluateFailMode` | internal/contract/enforce.go:233-291 | blocks the groups that are neither acknowledged nor allowed, and reports an allowance that matches nothing |
| `ContractEnforcement.BlockedExactly` | internal/contract/enforce.go:233-291 | a finding is blocked as often as it occurs if its group is not excused, and otherwise not at all |
| `ContractEnforcement.EvaluateGraph` | internal/contract/enforce.go:193-291 | fail mode blocks exactly the unexcused breaking findings in scope; the other modes never block |
| `ContractEnforcement.GrantedAll` | internal/contract/enforce.go:256-271 | the acknowledgements afterwards are those before and one, for the length of the window, for each group that was allowed and had no live one |
| `Acknowledgements.ExcusedExactlyWhen` | internal/contract/enforce.go:233-275 | a group is excused by an unexpired acknowledgement of its digest, or by an allowance that names its subject or its dataset, with or without the leading slash |
| `Acknowledgements.ShownWithNamespace` | internal/contract/enforce.go:641-656 | a dataset is shown with its namespace if it has one |
| `Acknowledgements.FindingShows` | internal/contract/enforce.go:357-391 | under which producer, consumer, dataset, output key and subject a finding is shown |
| `Acknowledgements.AllowanceLasts` | internal/contract/enforce.go:455-498 | an allowance excuses its group, though it is not repeated, until the end of the window and no longer |
| `Acknowledgements.AcknowledgedGetsNoMore` | internal/contract/enforce.go:233-254 | a group that has a live acknowledgement is not granted another |
| `PairEnforcement.CountsExactlyWhen` | internal/contract/enforce.go:293-355 | what counts: exactly the breaking findings of all pairs, each under the names of the first pair of its id, if that pair is in scope |
| `PairEnforcement.CanBeLostExactlyWhen` | internal/contract/enforce.go:293-355 | a breaking finding of a pair can be lost, for some comparison and incoming jobs, if and only if the first pair of its id does not have both of its jobs |
| `PairEnforcement.AllDecidedExactlyWhenClear` | internal/contract/enforce.go:233-355 | every breaking finding of every pair is decided as the pair's own, for all comparisons, incoming jobs, acknowledgements and allowances, if and only if no two pairs share an id or a group without sharing what these stand for |
| `PairEnforcement.PlainNamesAreClear` | internal/contract/derive.go:1499-1505 | that holds if no alias contains a colon or a NUL, whatever the datasets are called |
| `PairEnforcement.ColonMovesTheConsumer` | internal/contract/derive.go:1499-1505 | a colon in an alias gives two pairs of different jobs and datasets one id |
| `PairEnforcement.CollisionLosesAFinding` | internal/contract/derive.go:720-804 | three jobs, from the steps on, of which one has a breaking finding that is lost |
| `PairEnforcement.EnforceDeclared` | internal/contract/enforce.go:193-291 | from the steps to the decision, in fail mode: exactly what counts and is not excused is blocked; if names are clear in that sense, each breaking finding of each pair is blocked, under the pair's own names, exactly if one of its jobs is incoming and the pair is not excused |
| `Blame.RangeIndexes` | internal/blame/query.go:238-260 | from the first snapshot of the one commit to the last of the other, with the error cases |
| `Blame.Walk` | internal/blame/query.go:97-145 | one pass records exactly the introductions inside the range |
| `Blame.BlameElements` | internal/blame/query.go:72-180 | the report, the error cases and the empty history |
| `Blame.StartIsTheBeginning` | internal/blame/query.go:97-145 | the last uninterrupted presence began at exactly one snapshot |
| `Blame.TaskReportedExactlyWhen` | internal/blame/query.go:147-160 | a task is reported if and only if its last uninterrupted presence began inside the range, with the snapshot where it began |
| `Blame.EdgeReportedExactlyWhen` | internal/blame/query.go:162-177 | the same for edges, with the provenance recorded there |
| `Blame.WholeHistoryAttributesAll` | internal/blame/query.go:97-160 | without a range the report of tasks is the list of current tasks, each attributed once and in order |
| `Blame.WholeHistoryAttributesAllEdges` | internal/blame/query.go:97-177 | the same for edges |
| `BlameMeaning.RangeExactlyWhen` | internal/blame/query.go:238-260 | the range goes from the first snapshot of the one commit to the last of the other |
| `BlameMeaning.NotFoundExactlyWhen` | internal/blame/query.go:238-260 | a commit is not found if and only if it is named and does not occur |
| `BlameMeaning.EmptyRangeExactlyWhen` | internal/blame/query.go:238-260 | the range is invalid if and only if all snapshots of the end come before all of the beginning |
| `BlameMeaning.TaskBlamedExactlyWhen` | internal/blame/query.go:97-160 | a task is blamed on a snapshot of the range if and only if it is asked for and has been there without a gap from that snapshot to the end of the range |
| `BlameMeaning.EdgeBlamedExactlyWhen` | internal/blame/query.go:97-177 | the same for edges, with what that snapshot says last about the edge |
| `SnoozeTimers.SnoozeRearmBackoff` | internal/incident/executor.go:345-354 | the n-th wait is min(2^(n-1), 60) minutes |
| `SnoozeTimers.StepKeepsInv` | internal/incident/timer.go:93-128 | every step of snoozes, sweepers and closings keeps the timer invariant |
| `SnoozeTimers.RetriesAreBounded` | internal/incident/executor.go:308-393 | a chain calls the retry at most 13 times |
| `SnoozeTimers.BackoffIsBounded` | internal/incident/executor.go:336-393 | a chain's backoff is the sum of its waits and at most 423 minutes |
| `SnoozeTimers.HandledAtMostOnce` | internal/incident/store.go:340-354 | no timer is handled twice, although sweepers race and die |
| `SnoozeTimers.OneLiveTimer` | internal/incident/executor.go:360-393 | at most one timer of a chain is pending or being handled |
| `SnoozeTimers.HandlersLookedUpOpen` | internal/incident/timer.go:93-110 | a sweeper that claims or handles a timer found it due and saw its incident open in the lookup of this very sweep |
| `SnoozeTimers.TimerSupervisor.Fire` | internal/incident/timer.go:93-128 | equals look-up, claim and handling of the system |
| `SnoozeTimers.TimerSupervisor.ClaimTimer` | internal/incident/store.go:340-354 | claims exactly a pending timer |
| `SnoozeTimers.TimerSupervisor.RearmSnooze` | internal/incident/executor.go:360-393 | re-arms with the next wait until twelve re-arms are used up |
| `TimerChains.SnoozeSchedules` | internal/incident/store.go:287-307 | a snooze schedules one timer, for the time it says |
| `TimerChains.ClosingCancels` | internal/incident/store.go:309-321 | closing or taking over an incident cancels its pending timers and no others |
| `TimerChains.SweepFires` | internal/incident/timer.go:93-128 | an undisturbed sweep calls the retry of a due, pending timer of an open incident once, and schedules a deferred one again after its wait unless twelve re-arms are used up |
| `TimerChains.SweepSpares` | internal/incident/timer.go:93-110 | it calls nothing for a timer that is not due, not pending or of a closed incident |
| `TimerChains.LosersRest` | internal/incident/timer.go:107-116 | a sweeper that loses its timer to another, or dies, is free again and calls nothing |
| `TimerChains.EveryRearmIsScheduled` | internal/incident/executor.go:360-393 | in every history, every timer but the first of a chain was scheduled when the one before it was put off, for the time after its wait |
| `TimerChains.NoRetryBeforeItsTime` | internal/incident/timer.go:66-128 | whoever handles a re-armed timer found it due no sooner than its wait after the handling that put the retry off |
| `EventOutbox.CommittedEventsAreNeverLost` | internal/event/bus_dispatch.go:78-124 | with crashes anywhere, every event of a committed transaction is a row, and is still pending or was published |
| `EventOutbox.RolledBackIsNeverPublished` | internal/event/deferred.go:7-27 | an event of a deferred transaction is published only if that transaction committed |
| `EventOutbox.HistoryKeepsOnce` | internal/event/bus_dispatch.go:78-95 | with one crash-free dispatcher and deferred appends, what a dispatch has sent is the ascending start of its batch and the end of what was published |
| `EventOutbox.PublishedExactlyOnce` | internal/event/bus_dispatch.go:78-95 | under the same conditions a dispatched event was published exactly once, and no event more often |
| `OutboxRepeats.PublishedOncePerDelivery` | internal/event/bus_dispatch.go:78-124 | in every history, with crashes and rival dispatchers, an event is published exactly as often as a delivery that took it up gets to it |
| `OutboxRepeats.TakenUpWhilePending` | internal/event/bus_dispatch.go:97-146 | an event is taken up while it is pending, or by the publisher of its own transaction |
| `OutboxRepeats.RepeatedExactlyWhen` | internal/event/bus_dispatch.go:78-124 | an event is published more than once if and only if two deliveries each take it up and get to it |
| `OutboxRepeats.CrashPublishesAgain` | internal/event/bus_dispatch.go:78-95 | in every history, a crash between publishing and marking lets the next dispatch publish an event a second time |
| `EventOutbox.Dispatcher.ListPending` | internal/event/bus_dispatch.go:126-146 | the first pending events in sequence order |
| `EventOutbox.Dispatcher.MarkBusDispatched` | internal/event/bus_dispatch.go:148-177 | clears exactly the given pending rows |
| `EventOutbox.Dispatcher.DispatchOnce` | internal/event/bus_dispatch.go:78-95 | publishes the first pending events in order and marks exactly those |
| `OutboxRuns.CommitAdds` | internal/event/store.go:25-101 | a transaction that commits adds its events, numbered from the next number on and pending, and nothing else |
| `OutboxRuns.RollbackLeavesNothing` | internal/event/deferred.go:7-27 | one that is rolled back adds nothing, then or later |
| `OutboxRuns.DispatchDelivers` | internal/event/bus_dispatch.go:78-95 | an undisturbed dispatch publishes its batch in order, and its events, no others, are pending no more |
| `OutboxRuns.ImmediateDelivers` | internal/event/bus_dispatch.go:97-124 | so does an immediate publisher, for the events of its transaction |
| `OutboxRuns.BatchExactlyWhen` | internal/event/bus_dispatch.go:126-146 | a list is a batch if and only if it is ascending and holds exactly the pending events that have fewer pending ones before them than the limit |
| `PeerRotation.BuildPeers` | internal/dispatch/loop.go:627-654 | every usable address once, the node itself included |
| `PeerRotation.Loop.BenchPeer` | internal/dispatch/loop.go:578-585 | benches for the cooldown, never the node's own address |
| `PeerRotation.Loop.HealthyPeers` | internal/dispatch/loop.go:591-622 | sweeps expired entries and leaves out benched peers, unless none would remain |
| `PeerRotation.Loop.Pick` | internal/dispatch/loop.go:337-340 | round robin over a 64-bit counter |
| `PeerRotation.TickKeepsSelf` | internal/dispatch/loop.go:246-266 | if the node's address is usable and trimmed: in every run of ticks the list has unique ids, contains the node itself, is the usable unbenched peers, and no expired entry survives |
| `PeerRotation.BenchedPeerIsSkipped` | internal/dispatch/loop.go:575-622 | a benched peer is in no list of a tick before its cooldown ends |
| `PeerRotation.UnusableSelfIsAbsent` | internal/dispatch/loop.go:627-654 | a node whose address is not usable is in no list |
| `PeerRotation.PaddedSelfCanBeDropped` | internal/dispatch/loop.go:578-585 | a node whose address carries white space can drop itself |
| `PeerRotation.AlwaysListedExactlyWhen` | internal/dispatch/loop.go:246-266 | every tick of every run lists the node if and only if its address is usable and needs no trimming, or is usable and no other address is |
| `PeerRotation.RotationIsFair` | internal/dispatch/loop.go:337-340 | k rounds over n positions hit each exactly k times |
| `PeerRotation.PickRounds` | internal/dispatch/loop.go:337-340 | k rounds of picks give each peer exactly k |

## Left out

- The in-memory owner path (`run.OwnerManager`): the model is the path over the store.
- HTTP, bearer tokens, mTLS, metrics, logging, audit rows and notification delivery.
- SQL: tables are maps with atomic conditional writes, and every statement is one step.
- `StartTask`: local execution starts a task without a claim; runs of that kind are not dispatched.
- `internal/worker` claiming: its writes appear as steps from outside on a row, and the guards that make them yield to a live lease are dropped, so the model allows more interleavings.
- `RecordConsumed`: nothing calls it.
- Float watermarks are reals without rounding or NaN.
- `DatasetGraph.ValidateGraph`: does not say which of several violations is reported first.
- `HashPreimage`: volume mounts are given by their sort keys; SHA-256 is any function.
- `CachedExecution.CachedIsPlain`: assumes that an execution is a function of what the hash covers and of the executions of its silent predecessors, so it is no claim about tasks that depend on other side effects, on the order of mounts or on the difference between the commands `[]` and `[""]`; names and outputs contain no separators.
- `CachedExecution`: quarantined executions, retries of one execution and digest resolution.
- `Scrubber.ScrubbingIsSafeExactlyWhen`: lists with a secret that overlaps the placeholder without being part of it are not covered; for such a secret the exact condition is that of one secret and its own replacement, `SecretOverlap.LeaksExactlyWhen`.
- `Scrubber`: Unicode lower-casing and what looks like a secret are parameters, the latter modelled up to the entropy; texts are byte strings.
- `OneRunPerKey.OneRunForEachKey`: runs that a person starts by hand with the parameters of a derived run are not modelled; the steps it leaves out need not give a key two runs. The exact conditions are `OneRunPerKey.TwoRunsExactlyWhen` over a history and `RunSlots.TwoRunsPossibleExactlyWhen` over the policies.
- `RunAdmission`: which active run is the oldest and which rows overflow are drawn freely, so that among rows of one age, the new one included, any may go; priorities and paused jobs are left out, and dequeuers may claim any row, where the code claims rows of jobs that queue and had a slot.
- `CachingLimits.SuccessorIsSparedExactlyWhen`: for fewer than 64 priors and no two equally new ones.
- `DispatchTheorems.GenerationsGrow`: a lease row is written once per run. `AcquireLease` would write generation 1 again after a cancel deleted the row; run ids are fresh, and it is called once, when a run or a replay starts.
- `ContractPairs.DeriveDeclaredEdges`: the schema comparison is a parameter.
- `ContractGraph`: inferred and evidence edges, the schema comparison itself (it is a parameter, and with it the rule that a consumer's own schema replaces the comparison with the previous producer schema), and the order in which findings are listed.
- `ContractEnforcement`: the digest is any function of the hashed subject and fields, without collisions up to their order; warnings, events and messages.
- `Blame.BlameElements`: snapshots come oldest first; sorting them and parsing them are not modelled.
- `SnoozeTimers`: the batch limit of a sweep, timers of other kinds, and failures to write the re-armed timer.
- `EventOutbox`: sequence numbers are never given out twice.
- `PeerRotation`: peer discovery, and turning addresses into base URLs.
- Rate limits, backfills, quarantine, `internal/imagecheck`, `internal/callback`, `internal/harness`, the command line and the user interface.
