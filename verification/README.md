# CausaLens: verified model

A Dafny model of the core of CausaLens: capturing events, ordering them into a
causal timeline, detecting a duplicate-effect failure, replaying it through a
leased run lifecycle, and comparing two replays.

## How it is built

* `Basics`, `Contracts`: shared vocabulary, events and graphs. Time is an integer
  number of nanoseconds, 0 being Go's zero instant.
* `CycleCheck`, `Emission`, `Ordering`, `RunTimeline`: graph validation (a
  three-colour search as a class over its colour map), the timeline policy, and
  `BuildNodes` and `Order` as loops proved against it.
* `Capture`, `Namespacing`, `Ledger`: ids, recorders, the replay sink and the
  ledger as classes over their fields, with their properties over whole
  histories of calls.
* `CheckoutRace`, `Schedules`, `Lineage`, `Oracle`, `GoldenComparison`: the
  checkout race as a step system over all interleavings, the parents its events
  name, the mutually recursive oracle, and what they say together.
* `Alignment`, `AlignmentLaws`, `Divergence`, `Diffs`, `DiffBuild`: matching two
  replays, its laws, the first divergence, and the assembled diff.
* `ReplayContract`, `RunStore`, `WorkerProtocol`, `RunProcessing`, `Executions`,
  `Stranded`, `Leases`, `Recovery`: the run record and its contract, the store's
  run methods as functions on values, the workers as a step system that interleaves
  at store calls, the worker's loop bodies as methods on the store, when a replay is
  executed and executed again, which runs are left behind, what a lease is worth,
  and the reclaim pass.
* `Incidents`, `Pagination`, `Stores`, `Detection`, `Convergence`, `Progress`,
  `Reporting`: the capture half of the store, cursor pagination, the store as a
  class, detection, concurrent request handlers, and exactly when an execution is
  reported.
* `EndToEnd`, `CheckoutTimeline`, `Collision`, `Replays`: the race, the handlers
  and the store composed. A successful checkout is reported if and only if it retried without
  deduplication; and what replays recorded under the same execution id change.

A method that changes state is proved against a function on values, and the
invariants and laws are proved about that function. In the step systems
(`CheckoutRace`, `WorkerProtocol`, `Convergence`) a history is a list of actions;
every list is allowed, and an action that is not enabled does nothing, so a
statement about all lists is a statement about all interleavings.

Map iteration in Go has no fixed order. Loops over maps choose the next key
freely, so what is proved holds for every order.

## What turned out not to hold

Each of these has a witness, and the exact condition under which the property
does hold.

* `BuildNodes` uses Go's zero time as "not yet set" (internal/graph/graph.go:111).
  With an eligible event at that instant some map order makes it pick outside
  the 5 ms window (`Emission.QuirkPicksWrongly`, at two concrete events
  `Emission.QuirkOccurs`); a round is canonical exactly when it is free of that
  quirk (`Emission.RoundExact`, `Emission.RunExact`).
* A run is not executed at most once, contrary to the comment at
  cmd/replay-worker/main.go:11-14. One restarted `-run-id` process executes a
  baseline or what-if run any number of times (`Executions.ManyExecutions`,
  `Executions.ManyWhatIfExecutions`), and so do two pollers with one list
  (`Executions.TwoPollers`). A stored run can be executed again if and only if it
  is not terminal, or some worker has started it, or read it RUNNING, and not yet
  executed it (`Executions.ExecutedAgainExactly`); what the first read finds
  decides whether a worker left alone executes (`Executions.ExecutesExactly`). One
  polling worker process at a time executes at most once
  (`WorkerProtocol.PollerExecutesOnce`).
* The reclaim pass never recovers a run stranded in VALIDATING
  (`RunStore.StrandedValidatingStays`, `ReplayContract.OrphanExact`), so with
  pollers and reclaimers alone it stays there for good
  (`Stranded.StrandedStays`). A worker process started for the run does recover
  it (`Stranded.StrandedRecoverable`).
* The unsafe-replay and teardown errors are mapped to a record the contract
  refuses; the run stays RUNNING (`WorkerProtocol.ExecuteErrorExact`,
  `RunProcessing.FreshRunOutcome`) until a reclaim pass ends it
  (`Stranded.ErrorRecovered`).
* A checkout that did nothing wrong can be reported: every replay carries the
  execution id of checkout 8271 (cmd/replay-worker/runner.go:93), and detection
  does not look at `replay_run_id` (internal/core/store.go:85-98). At 8271 a clean
  checkout is reported after its baseline replay retried (`Replays.CleanReported`).
  For any number of replays it can be exactly when one of them retried, or it
  retried itself under deduplication and there is a replay
  (`Replays.CollisionExactly`). A failing one is still reported, because the worker
  records parents before children: a failing execution can be missed exactly when
  some recorded event does not fit in (`Reporting.MissedExactly`), and these all do
  (`Collision.ReplayFitsIn`); in another order they would not
  (`Collision.OrderMatters`). For any execution and any recordings:
  `Reporting.RecordingsMatterExactly`.
* A page that ends on an incident detected at the zero instant hands out a cursor
  that is refused (`Pagination.NextAccepted`, `Pagination.CursorRefused`).
* Event ids are documented as unique for the life of the process; `Reset` makes
  them repeat (`Capture.ResetRepeats`, `Capture.RepeatsExactly`).
* `Reset` keeps the leases (internal/core/store.go:49-63); the model does so too.

## Model

| member | source | states |
|---|---|---|
| CycleCheck.Search.Visit | internal/contracts/contracts.go:602-618 | The recursive closure over its captured colour map: it reports a cycle only with a walk that closes on itself, and otherwise finishes the node after everything it leads to. |
| CycleCheck.Search.VisitAll | internal/contracts/contracts.go:619-623 | Whatever order the node map is iterated in, a cycle is found exactly when one is reachable, and otherwise the finishing order of all nodes is a topological ranking. |
| CycleCheck.CheckNodes | internal/contracts/contracts.go:584-590 | Accepts exactly non-empty, distinct node ids with distinct non-negative indices. |
| CycleCheck.CheckEdges | internal/contracts/contracts.go:591-600 | Accepts exactly edges with distinct non-empty ids between two different known nodes; the adjacency lists represent exactly the non-TEMPORAL edges. |
| CycleCheck.Validate | internal/contracts/contracts.go:580-625 | Accepts a graph exactly when it is well-formed and its non-TEMPORAL edges have no directed cycle; on acceptance the finishing order ranks all nodes. |
| CycleCheck.HasHardCycle | internal/graph/graph.go:152-183 | True exactly when a listed node reaches a cycle of hard edges other than self-loops, on any input. |
| CycleCheck.CycleChecksAgree | internal/graph/graph.go:152-183 | On well-formed graphs the validator's cycle check and hasHardCycle agree. |
| CycleCheck.FinishingExcludesCycles | internal/contracts/contracts.go:601-623 | A depth-first finishing order rules out every cycle its nodes reach. |
| CycleCheck.WalkDescends | internal/contracts/contracts.go:601-623 | Along any walk the finishing position strictly falls. |
| Emission.TieLessTotal | internal/graph/graph.go:139-150 | The tie-break order is asymmetric and decides between any two different ids. |
| Emission.TieLessTransitive | internal/graph/graph.go:139-150 | Incomparability under the tie-break order is transitive, as sorting needs. |
| Emission.EmitsEnumerates | internal/graph/graph.go:101-137 | What a timeline emits is what disappears from the live events, each exactly once. |
| Emission.TimelineForward | internal/graph/graph.go:101-137 | In any timeline every hard constraint points strictly forward. |
| Emission.CanonicalUnique | internal/graph/graph.go:101-150 | A set of events and hard constraints has only one canonical timeline. |
| Emission.CanonicalExists | internal/graph/graph.go:101-150 | Acyclic constraints always have a canonical timeline. |
| Emission.ReadyExists | internal/graph/graph.go:116-118 | While events remain, acyclic constraints leave one eligible: the empty-eligible branch is dead. |
| Emission.CanonicalOnFields | internal/graph/graph.go:119-150 | Written out on fields: the pick lies within 5 ms of every eligible event, and of those that do it has the least component, then the least instance, then the smallest sequence number, then the least id. |
| Emission.SequenceFirst | internal/graph/graph.go:139-150 | Of two events of one instance that wait for nothing different, the one with the smaller sequence number stands first in the canonical timeline, unless the clock put it later. |
| Emission.PossibleIsCanonical | internal/graph/graph.go:103-129 | Unless the earliest eligible event sits at Go's zero instant and costs the tie-break winner its place, the pick is the tie-break-least event within 5 ms of the earliest, for every map iteration order. |
| Emission.QuirkPicksWrongly | internal/graph/graph.go:111-112 | Otherwise some iteration order of the map makes the code pick outside the window. |
| Emission.QuirkOccurs | internal/graph/graph.go:111-112 | Two valid events without constraints form such a round: a witness of a wrong pick. |
| Emission.RoundExact | internal/graph/graph.go:103-129 | One round is canonical for all iteration orders if and only if it is free of the zero-instant quirk. |
| Emission.RunExact | internal/graph/graph.go:101-137 | All runs of the loop yield the canonical timeline if and only if every round along it is free of the quirk. |
| Emission.NoZeroInstantNoQuirk | internal/graph/graph.go:111-112 | Without an event at the zero instant no round has the quirk. |
| Emission.CanonicalTimelineIsPossible | internal/graph/graph.go:101-137 | The canonical timeline is always among the code's possible outputs. |
| Ordering.IndexEdges | internal/graph/graph.go:88-99 | The in-degree map counts hard predecessors with multiplicity; the adjacency lists hold every hard successor, repeated as often as it occurs. |
| Ordering.GatherEligible | internal/graph/graph.go:103-115 | Collects exactly the events with in-degree zero, each once, and the earliest timestamp as the zero-time scan computes it. |
| Ordering.Select | internal/graph/graph.go:120-129 | Picks the tie-break-least event up to 5 ms after the scanned timestamp. |
| Ordering.Release | internal/graph/graph.go:131-134 | Lowers each successor by its multiplicity and never brings a deleted key back. |
| Ordering.Round | internal/graph/graph.go:102-135 | One round emits one ready event and keeps the in-degree of every other one. |
| Ordering.RoundStep | internal/graph/graph.go:102-135 | The loop state (in-degree counts unemitted hard predecessors, keys are the unemitted ids) is re-established by a round. |
| Ordering.EmitAll | internal/graph/graph.go:101-137 | The loop takes exactly one round per event and produces a complete timeline with indices 0..n-1. |
| Ordering.CheckConstraints | internal/graph/graph.go:77-86 | The provisional graph is accepted exactly when the constraints can be ordered, and the cycle error is told apart from other errors. |
| Ordering.BuildNodes | internal/graph/graph.go:63-137 | Succeeds exactly on distinct valid events with valid acyclic edges; reports the cycle error exactly when a cycle of proper hard edges is reachable; the nodes number a timeline of the events. |
| Ordering.EmittedIsCanonical | internal/graph/graph.go:101-150 | Away from the zero instant every timeline the code can emit is the canonical one. |
| Ordering.BuildNodesDeterministic | internal/graph/graph.go:63-150 | The result depends only on the set of events and the set of hard constraints, not on input order, edge repetition or map iteration. |
| RunTimeline.IndicesArePermutation | internal/graph/graph.go:37-49 | Pigeonhole: distinct indices below the node count are exactly 0..n-1. |
| RunTimeline.PlaceEvents | internal/graph/graph.go:37-49 | Fills every slot with the event of the node that names it, and fails exactly on an unknown event or an index out of range. |
| RunTimeline.CheckForward | internal/graph/graph.go:50-54 | Accepts exactly when every hard edge raises the index. |
| RunTimeline.Order | internal/graph/graph.go:15-60 | Succeeds exactly when graph, events, node-event correspondence and hard edges fit; the result is the events by index, and the final sort changes nothing. |
| RunTimeline.BuildThenOrderAccepts | internal/graph/graph.go:15-137 | Order never refuses the graph made of BuildNodes' result. |
| RunTimeline.BuildThenOrderReturns | internal/graph/graph.go:15-137 | Order on that graph reproduces the emitted sequence. |
| RunTimeline.EdgeListExact | internal/core/store.go:411-425 | The edges named by position have distinct ids, and as constraints they are exactly the parent references. |
| RunTimeline.ParentChildEdges | internal/core/store.go:411-425 | The loop produces that list of edges. |
| RunTimeline.ParentEdgesBuildable | cmd/core-api/detect.go:84-102 | Parent edges can be ordered exactly when all parents are present, no event is its own parent, and parents form no cycle: a property of the set of events. |
| RunTimeline.BuildRunGraph | internal/core/store.go:395-409 | Succeeds exactly when the run's parents are settled; nodes and edges are the run's own timeline and parent references. |
| RunTimeline.LoadOrderedEvents | internal/differential/differential.go:257-271 | Building a run's graph and ordering its events by it succeeds exactly when the parents are settled, and returns the emitted timeline. |
| Namespacing.ReplaySink.Emit | cmd/replay-worker/runner.go:35-49 | Appends the stamped event when it is valid, records the failure otherwise; ids and parent ids move into the run's namespace. |
| Namespacing.CollisionExact | cmd/replay-worker/runner.go:39-41 | Two ids collide inside a run exactly when equal up to a missing prefix. |
| Namespacing.NamespacesDisjoint | cmd/replay-worker/runner.go:39-41 | Ids generated for dash-free components never collide across runs or inside one. |
| Namespacing.StampedTimeline | cmd/replay-worker/runner.go:35-49 | Stamping maps every canonical timeline to a canonical timeline of the stamped events. |
| Namespacing.StampingCommutes | cmd/replay-worker/runner.go:35-49 | Namespacing commutes with ordering: the canonical timeline of the stamped events is the stamped canonical timeline. |
| Capture.IdGenerator.NextEventId | internal/capture/ids.go:64-69 | The number advances modulo 2^64 and the id names component and number. |
| Capture.GeneratedIdExact | internal/capture/ids.go:64-69 | An id determines component and number, whatever the component is called. |
| Capture.RepeatsExactly | internal/capture/ids.go:37-69 | Over any history of calls and resets two ids coincide exactly when component and distance from the last reset (modulo 2^64) coincide. |
| Capture.UniqueBetweenResets | internal/capture/ids.go:61-69 | Without a reset in between, and short of 2^64 calls, ids never repeat. |
| Capture.ResetRepeats | internal/capture/ids.go:34-42 | After a reset the first id repeats: the documented uniqueness for the life of the process does not survive Reset. |
| Capture.Recorder.NextSequence | internal/capture/recorder.go:53-60 | Hands out the next number of the execution and advances only that execution's counter. |
| Capture.Recorder.Record | internal/capture/recorder.go:65-100 | Keeps sequence numbers strictly rising within one execution; an event that is invalid or that the sink refuses uses up id and number and is an error, an attempt below 1 uses up nothing; without a sink the event is returned and goes nowhere. |
| Ledger.Service.Commit | cmd/demo-ledger/service/service.go:94-139 | Refused below attempt 1, deduplicated per checkout when enabled, appended otherwise; then the effect event is recorded with the commit's answer, and if that fails the caller sees an error although the effect stays on the books. |
| Ledger.OncePerCheckout | cmd/demo-ledger/service/service.go:94-112 | With deduplication a request commits exactly when it is the first proper one for its checkout, over any history. |
| Ledger.OneEffectEach | cmd/demo-ledger/service/service.go:94-112 | With deduplication there are as many effects as checkouts. |
| Ledger.AllCommitted | cmd/demo-ledger/service/service.go:94-112 | Without deduplication every proper request commits, in order. |
| Ledger.CommitsExactly | cmd/demo-ledger/service/service.go:54-112 | In any history of commits, policy changes and resets a proper request commits exactly unless deduplication is on and was on for an earlier request of its checkout since the last reset: effects committed while it was off are not remembered. |
| Ledger.OnePolicy | cmd/demo-ledger/service/service.go:54-112 | The histories under one policy are those in which the policy is set first. |
| Ledger.EffectKeyExact | cmd/demo-ledger/service/service.go:87-89 | An effect key determines checkout and attempt. |
| Ledger.RaceCommits | cmd/demo-ledger/service/service.go:94-112 | The race's commit step is the ledger's commit, seen from one checkout. |
| Ledger.RaceRecords | cmd/demo-ledger/service/service.go:114-136 | The effect event the race records is the one the ledger builds: SUCCESS and committed, or BLOCKED and not. |
| CheckoutRace.SendNeverBlocks | cmd/demo-checkout/service/service.go:110-137 | No send on the completion channel ever blocks, in any interleaving, also after the request has given up. |
| CheckoutRace.EveryAttemptReceived | cmd/demo-checkout/service/service.go:142-231 | A successful request has received every launched attempt exactly once and leaves the channel empty. |
| CheckoutRace.OneAttempt | cmd/demo-checkout/service/service.go:142-231 | With one allowed attempt the second is never launched. |
| CheckoutRace.StepLowersRank | cmd/demo-checkout/service/service.go:110-231 | Every step that does anything brings the checkout nearer to its end. |
| CheckoutRace.NoDeadlock | cmd/demo-checkout/service/service.go:110-231 | Until the request has responded or given up, some step can be taken. |
| CheckoutRace.FinishedTrace | cmd/demo-checkout/service/service.go:142-231 | Which events a successful checkout records and how often, in whatever order. |
| CheckoutRace.RecordedFields | cmd/demo-checkout/service/service.go:117-221 | Kind, status, operation and attempt of every recorded event follow from its component, its type and the attempt or count it is about; identifiers, time and sequence are the caller's and the recorder's. |
| CheckoutRace.EffectsWhenFinished | cmd/demo-ledger/service/service.go:94-139 | The ledger ends with one effect per attempt, or one in all under deduplication. |
| CheckoutRace.DuplicateExactly | cmd/demo-checkout/service/service.go:142-231 | Composed over checkout, payment, ledger and oracle: on every successful trace the oracle matches exactly when two attempts ran without deduplication, and counts (attempts, attempts) or (attempts, 1). |
| Schedules.CompletionWins | cmd/demo-checkout/service/service.go:142-231 | A schedule exists in which the completion beats the timer and one attempt succeeds. |
| Schedules.TimerWins | cmd/demo-checkout/service/service.go:142-231 | With at least two allowed attempts a schedule exists in which the timer wins and both attempts succeed. |
| Schedules.ProperTwin | cmd/demo-checkout/service/service.go:110-231 | Every schedule has a twin that takes the same course and captures valid events under distinct ids. |
| Lineage.CapturedSettled | cmd/demo-checkout/service/service.go:117-221 | For every schedule, distinct ids alone make all parents of the captured events present and acyclic: the services name start events that are there. |
| Lineage.CapturedLeveled | cmd/demo-checkout/service/service.go:117-221 | At any time a captured event's parent has been captured before it. |
| CheckoutTimeline.TimeoutBeforeRetry | cmd/demo-checkout/service/service.go:181-199 | In every timeline BuildNodes can produce for a successful checkout away from the zero instant, the timeout stands before the retry that follows it, however close the clock puts them. |
| Oracle.ScanGroup | internal/systempack/checkout/oracle.go:61-98 | The scan's flags, first ids, attempts and committed effects are those of the whole group. |
| Oracle.Evaluate | internal/systempack/checkout/oracle.go:43-122 | Fails exactly without evidence; otherwise judges the chosen operation's events. Terminates although it calls itself through the selection. |
| Oracle.SelectLogicalOperation | internal/systempack/checkout/oracle.go:145-165 | Selects the least matching logical operation, or the least of all. |
| Oracle.QuickMatches | internal/systempack/checkout/oracle.go:167-170 | On one operation's events the recursive evaluation decides whether they show a duplicate. |
| Oracle.VerdictExact | internal/systempack/checkout/oracle.go:43-122 | The verdict is positive exactly when some logical operation has a TIMEOUT, a RETRY, an attempt of at least 2 and two committed effects. |
| Oracle.VerdictOnFields | internal/systempack/checkout/oracle.go:61-110 | The same on the events' fields: positive exactly when for some operation there are events with TIMEOUT, RETRY, an attempt of at least 2, and at two positions committed effects. |
| Oracle.ChosenOnFields | internal/systempack/checkout/oracle.go:139-165 | The operation judged: the least name among those that show a duplicate, or among all when none does. |
| Oracle.CountsOnFields | internal/systempack/checkout/oracle.go:61-98 | The counts are the different attempts of started dependency calls and the committed effects of the operation. |
| Oracle.EvidenceInOrder | internal/systempack/checkout/oracle.go:99-121 | A positive verdict cites the first timeout, the first retry, then the committed effects by sequence number; a negative one every event by sequence number. |
| Oracle.VerdictPermutation | internal/systempack/checkout/oracle.go:43-192 | Permuting the events changes neither the operation judged nor verdict nor counts. |
| Oracle.VerdictMonotone | internal/systempack/checkout/oracle.go:43-122 | Added events never withdraw a positive verdict. |
| Oracle.EvidenceCited | internal/systempack/checkout/oracle.go:99-121 | Cited ids belong to the judged group; a positive verdict cites a timeout, a retry and every committed effect, a negative one the whole group. |
| Alignment.Align | internal/systempack/checkout/compare.go:31-70 | The k-th baseline occurrence of a key is paired with the k-th comparison occurrence, in baseline order; the rest is removed or added; changes are the pairs whose status differs. |
| Alignment.CorrespondsOneToOne | internal/systempack/checkout/compare.go:43-63 | The correspondence is one-to-one. |
| Alignment.CounterpartExists | internal/systempack/checkout/compare.go:43-63 | An event has a counterpart exactly when its occurrence number is below the other side's count of the key. |
| Alignment.CorrespondOnFields | internal/systempack/checkout/compare.go:31-63 | Matched events agree in component, operation, type, logical operation and attempt. |
| Alignment.UnmatchedDiffer | internal/systempack/checkout/compare.go:31-70 | A removed and an added event never agree in all five. |
| Alignment.ChangesOnFields | internal/systempack/checkout/compare.go:52-63 | The changes are the pairs whose status differs, each with its two ids, the field and the two texts, old before new. |
| AlignmentLaws.AlignmentDetermined | internal/systempack/checkout/compare.go:31-70 | The result is determined by the two streams. |
| AlignmentLaws.Partition | internal/systempack/checkout/compare.go:31-70 | With distinct ids matched and removed partition the baseline, matched and added the comparison. |
| AlignmentLaws.ConverseAlignment | internal/systempack/checkout/compare.go:31-70 | Swapping the streams swaps added and removed and reverses the matching. |
| AlignmentLaws.SelfAlignment | internal/systempack/checkout/compare.go:31-70 | Aligning a stream with itself matches every event with itself and reports no difference. |
| AlignmentLaws.MaximumMatching | internal/systempack/checkout/compare.go:31-70 | No one-to-one relation between events of equal keys is larger than the matching. |
| AlignmentLaws.CommitConservation | internal/systempack/checkout/compare.go:31-113 | Committed effects are conserved across the alignment: the difference of the counts is added minus removed plus the net difference over matched pairs. |
| AlignmentLaws.LedgerDeltaConservation | internal/systempack/checkout/compare.go:93-113 | For streams of one logical operation the reported ledger delta is exactly that difference. |
| AlignmentLaws.DeltaConservation | internal/systempack/checkout/compare.go:93-113 | So a valid diff's ledger-commit delta is that sum, for the streams its verdicts are about. |
| Divergence.IndexByEventId | internal/differential/differential.go:273-279 | Maps every id to its last position and nothing else. |
| Divergence.FirstDivergenceFrom | internal/differential/differential.go:166-211 | Reports the least resolvable change, or none exactly when none resolves. |
| Divergence.DivergenceExact | internal/differential/differential.go:166-211 | With distinct ids the report gives true timeline positions, and no change with resolvable ids lies lexicographically (baseline index, comparison index, field) before it. |
| Divergence.RemovedTimeout | internal/systempack/checkout/compare.go:147-172 | The structural rule: the first removed TIMEOUT, against the first completed payment of the comparison or position 0 without id. |
| Divergence.StructuralOnFields | internal/systempack/checkout/compare.go:147-172 | That report field by field: which timeout, which payment, positions, ids and texts. |
| Divergence.FirstMeaningfulDivergence | internal/systempack/checkout/compare.go:142-173 | The field-level divergence where there is one, otherwise the structural one. |
| GoldenComparison.NoStatusChange | internal/systempack/checkout/compare.go:56-62 | Two replays without deduplication never differ in the status of paired events, whatever their interleavings. |
| GoldenComparison.TimeoutShows | cmd/demo-checkout/service/service.go:142-231 | A replay contains a TIMEOUT exactly when its timer fired. |
| GoldenComparison.GoldenDivergence | internal/systempack/checkout/compare.go:134-173 | If the baseline retried and the comparison did not, the divergence is the documented PAYMENT_COMPLETES_BEFORE_TIMEOUT with the baseline's timeout and the comparison's first completed payment, for all interleavings and orders. |
| GoldenComparison.GoldenDelta | internal/systempack/checkout/compare.go:93-113 | In that case baseline matches with counts (2, 2), comparison does not, with (1, 1). |
| GoldenComparison.GoldenDiffDelta | internal/systempack/checkout/compare.go:110-113 | A valid diff with the verdicts of those replays has the effects (2, 2) and (1, 1) and the delta (-1, -1). |
| ReplayContract.IsolationChecksAgree | internal/replay/replay.go:235-262 | On evidence that satisfies its contract the default-deny check accepts exactly what carries a passing verdict. |
| ReplayContract.IsolationForExact | internal/replay/replay.go:209-229 | The built evidence is valid exactly with a namespace, and safe exactly after a clean teardown. |
| ReplayContract.NewRun | internal/replay/replay.go:35-72 | A new run is a valid CREATED record with the requested identity, or is refused. |
| ReplayContract.NewRunExactly | internal/replay/replay.go:35-72 | What a request must name for a run to be created, written out: identity, hash, trial, and baseline and intervention by run type. |
| ReplayContract.ClaimKeepsValid | internal/core/lease.go:32-37 | The record a claim writes without validating is valid. |
| ReplayContract.StartKeepsValid | internal/replay/replay.go:78-98 | A claimed run can always be started, with its provenance. |
| ReplayContract.CompletionExact | internal/replay/replay.go:105-154 | With safe isolation a completion is valid exactly when verdict and isolation evidence are well-formed. |
| ReplayContract.OrphanExact | internal/replay/executor.go:223-244 | FinalizeOrphan builds a valid record exactly for runs that had reached RUNNING; a VALIDATING orphan is always refused. |
| ReplayContract.TerminatedExact | cmd/replay-worker/main.go:215-231 | Without isolation evidence a terminal record is refused exactly when FAILED lacks a start or BLOCKED names an isolation-related code. |
| ReplayContract.TransitionRaisesRank | internal/contracts/contracts.go:927-937 | Legal transitions strictly raise the status rank and never leave a terminal status. |
| RunStore.PutKeepsInv | internal/core/store.go:255-278 | Creating a run keeps: every stored run valid, every what-if beside its COMPLETED, REPRODUCED, PASS baseline of the same capsule. |
| RunStore.ClaimKeepsInv | internal/core/lease.go:22-39 | So does a claim. |
| RunStore.TransitionKeepsInv | internal/core/store.go:310-328 | So does a transition. |
| RunStore.TransitionEvolves | internal/core/store.go:310-328 | A transition keeps provenance, never lowers a rank and never touches a terminal run. |
| RunStore.AdmittedStaysAuthorized | cmd/replay-worker/main.go:168-183 | An admitted what-if run passes the worker's own baseline check in every later store short of a reset. |
| RunStore.PutExactly | internal/core/store.go:255-278 | Which runs may be created, written out, and the error of each refusal. |
| RunStore.TransitionExactly | internal/core/store.go:310-328 | The seven legal transitions and the seven fields of provenance, written out, and the error of each refusal. |
| RunStore.AuthorizedExactly | cmd/replay-worker/main.go:168-183 | The worker's baseline check, written out. |
| RunStore.OrphanEndsTerminal | internal/replay/executor.go:223-244 | Failing an orphan that had reached RUNNING leaves the run terminal, whoever interfered. |
| RunStore.StrandedValidatingStays | internal/replay/executor.go:223-244 | The reclaim pass changes nothing about a run stranded in VALIDATING, whatever the store holds by then. |
| RunStore.RenewalProtects | internal/core/lease.go:42-53 | A renewal of a known run sets its lease and changes nothing else; up to its end the run is in no list of expired runs. |
| RunStore.ClaimProtects | internal/core/lease.go:22-39 | A claim succeeds exactly on a CREATED run, moves it to VALIDATING and grants its lease; up to its end the run is in no list of expired runs. |
| RunStore.ExpiredExactly | internal/core/lease.go:58-76 | Listed are exactly the VALIDATING and RUNNING runs with no lease or one that has run out. |
| Leases.LeaseProtects | cmd/replay-worker/main.go:111-113 | Over histories: once a worker has claimed a run or renewed its lease until u, no scan up to u lists it, whatever anyone does, until its lease is written again. |
| Leases.LapsedListed | internal/core/lease.go:58-76 | Once the lease has run out, or without one, every scan lists a VALIDATING or RUNNING run. |
| Leases.CreatedListExactly | internal/core/store.go:294-308 | The poll loop's list holds each CREATED run once, ascending by id. |
| Leases.ExpiredListExactly | internal/core/lease.go:58-76 | A reclaim pass's list holds each VALIDATING or RUNNING run without a live lease once. |
| Leases.LostClaim | cmd/replay-worker/main.go:83-92 | A worker that lost a claim starts its poll loop over exactly when the run is stored and no longer CREATED; otherwise it tries the next run. |
| WorkerProtocol.ReachableStore | cmd/replay-worker/main.go:71-289 | Every store reachable by workers, reclaimers, the API, crashes and resets satisfies the invariant. |
| WorkerProtocol.HistoryEvolves | internal/core/store.go:310-328 | Over any stretch of history without a reset ranks only rise, provenance is fixed and terminal runs are frozen. |
| WorkerProtocol.AuthorizationHolds | cmd/replay-worker/main.go:168-183 | A stored what-if run's authorization holds at every later point before a reset. |
| WorkerProtocol.AtMostOnce | internal/core/lease.go:22-39 | For any number of workers and reclaimers there is at most one claim, one start and one terminal write per created run. |
| WorkerProtocol.ExecutionsAccounted | cmd/replay-worker/main.go:78-113 | At most one execution per created run comes from workers that started it; all others come from workers whose first read was RUNNING. |
| WorkerProtocol.ReachableMatches | cmd/replay-worker/main.go:155-160 | In every reachable store a COMPLETED run's effect summary is the one of its verdict. |
| Executions.ExecutesExactly | cmd/replay-worker/main.go:71-144 | A worker sent to a run and left alone executes it exactly when the run is stored and not terminal, the capsule checks let it through and the runner is reached, counting as its starter unless it found it RUNNING; for both run types. |
| Executions.ExecutedAgainExactly | cmd/replay-worker/main.go:78-144 | In any history: a stored run can be executed again in some continuation without a reset if and only if it is not terminal, or some worker has started it, or read it RUNNING, and not yet executed it. |
| Executions.AfterTerminal | cmd/replay-worker/main.go:78-144 | Once a run is terminal, it is executed at most once more per worker that had started it, or read it RUNNING, and not yet executed it, over every continuation. |
| Executions.Restarted | cmd/replay-worker/main.go:78-144 | From any reachable state, a single worker process that crashes and is restarted with the id of a run that is not terminal, baseline or what-if, executes it any number of times. |
| Executions.TwoPollers | cmd/replay-worker/main.go:235-274 | Two pollers that both listed a run while it was CREATED execute it twice without a crash. |
| Executions.ManyExecutions | cmd/replay-worker/main.go:331-335 | Witness: a baseline run, created once, executed n times by one restarted process. |
| Executions.ManyWhatIfExecutions | cmd/replay-worker/main.go:331-335 | Witness: the same for a what-if run whose baseline a worker completed before. |
| Stranded.StrandedStays | cmd/replay-worker/main.go:235-289 | A VALIDATING run that no worker holds or has listed stays as it is over every continuation without a reset in which no worker process is started for it. |
| Stranded.StrandedRecoverable | cmd/replay-worker/main.go:95-113 | A worker process started for such a run does move it to RUNNING, from any reachable state. |
| Stranded.PassEndsTerminal | cmd/replay-worker/main.go:276-289 | A whole reclaim pass, however long it takes and whoever interferes: when it ends without a crash every RUNNING run it listed is terminal. |
| Stranded.ErrorRecovered | cmd/replay-worker/main.go:188-289 | A run left RUNNING by an unsafe replay or a failed teardown ends terminal after any pass that runs to its end once the lease has run out. |
| WorkerProtocol.PollerExecutesOnce | cmd/replay-worker/main.go:235-289 | With one polling worker process at a time, crashing and restarting anywhere, every created run is executed at most once over the whole history. |
| WorkerProtocol.ExecuteErrorExact | cmd/replay-worker/main.go:188-231 | An execution error reaches the store exactly when it is neither the unsafe-replay nor the teardown error; those leave the run RUNNING. |
| WorkerProtocol.ExecuteExactly | internal/replay/executor.go:89-134 | Which error an execution returns, each if and only if, and when the runner is reached. |
| WorkerProtocol.ReclaimerRecovers | cmd/replay-worker/main.go:276-289 | A reclaimer's step on a listed RUNNING run leaves it terminal, however stale its copy and whoever interfered. |
| RunProcessing.ProcessRun | cmd/replay-worker/main.go:71-163 | As a method on the store, processRun has exactly the effect of the step machine run undisturbed. |
| RunProcessing.FinalizeTerminal | cmd/replay-worker/main.go:215-231 | Refuses an invalid record, leaves a terminal run alone without an error, and otherwise writes the record exactly as the transition allows. |
| RunProcessing.ExecuteAndFinish | cmd/replay-worker/main.go:126-163 | Execution, its error mapping, and the result stage agree with the step machine. |
| RunProcessing.AuthorizeAndStart | cmd/replay-worker/main.go:95-109 | The baseline gate, the start and the renewal agree with the step machine. |
| RunProcessing.FreshRunOutcome | cmd/replay-worker/main.go:71-163 | An undisturbed worker leaves a fresh run COMPLETED with the derived outcome exactly when everything went well, RUNNING exactly when the last record is refused, and otherwise FAILED or BLOCKED with the record the environment's answers determine. |
| RunProcessing.EndsExactly | cmd/replay-worker/main.go:115-231 | Status and code of that record, each if and only if: FIXTURE_MISSING, INTERNAL (runner error, no events, events not stored), ORACLE_UNAVAILABLE; INTEGRITY_MISMATCH (digest, or events without the run's id), SANITIZATION_FAILED (pack validation), INTERVENTION_INVALID. |
| RunProcessing.CompletedExactly | cmd/replay-worker/main.go:153-160 | What a completed run carries, field by field: verdict, its effects, isolation, start and end, and the outcome by run type and verdict. |
| RunProcessing.GateBlocks | cmd/replay-worker/main.go:95-101 | A what-if run whose baseline fails the check is never started: it ends BLOCKED with INTERVENTION_INVALID. |
| Recovery.FinalizeOrphan | internal/replay/executor.go:223-244 | Refuses an invalid record before the store, otherwise transitions from the status the caller saw. |
| Recovery.ReclaimOrphans | cmd/replay-worker/main.go:276-289 | One undisturbed pass fails exactly the expired RUNNING runs and changes nothing else; the returned ids are exactly those runs. |
| Recovery.PassRecovers | cmd/replay-worker/main.go:276-289 | After a pass every expired RUNNING run is a valid FAILED record with code INTERNAL, completed now, of the same start and provenance; live-lease, terminal and VALIDATING runs are unchanged. |
| Recovery.PassLeavesLiveOnly | internal/core/lease.go:58-76 | After a pass a run is RUNNING only under a live lease. |
| Recovery.PassEvolves | cmd/replay-worker/main.go:276-289 | A pass keeps the store invariant and only advances runs. |
| Incidents.IngestKeepsInv | internal/core/store.go:65-79 | Ingesting keeps referential integrity and only adds. |
| Incidents.PutIncidentKeepsInv | internal/core/store.go:101-141 | Storing an incident keeps: every incident has its own graph, all nodes have stored events of its execution and trace, evidence is covered, the graph orders its events. |
| Incidents.StoredIncident | internal/core/store.go:101-141 | A stored incident field by field: its graph, the events of its nodes, their execution and trace, its evidence. |
| Incidents.PutIncidentAdds | internal/core/store.go:101-141 | A refused put changes nothing, an accepted one only adds the pair. |
| Incidents.DetailComplete | internal/core/store.go:197-224 | What a stored incident shows covers its evidence, belongs to its execution, and respects every hard edge. |
| Incidents.ReadsOk | internal/core/store.go:85-98 | Events read back are valid, each once, exactly the selected ones. |
| Stores.Store.IngestEvent | internal/core/store.go:65-79 | Contract, conflict, then insertion; the store invariant is kept. |
| Stores.Store.PutIncident | internal/core/store.go:101-141 | Form, conflicts, references, order, in this sequence; the pair is stored atomically and the invariant kept. |
| Stores.Store.EventsForExecution | internal/core/store.go:85-98 | Exactly the execution's events, each once, by time, sequence and id, whatever the map order; written out on fields. |
| Stores.Store.EventsForRun | internal/core/store.go:364-377 | Exactly the events stamped with the run's id, each once, in the same order. |
| Stores.Store.ListIncidents | internal/core/store.go:143-195 | The page of the unique listing past the cursor; newest first, at one instant the larger id first; with a cursor all lie past its two fields; bad limits and cursors are conflicts. |
| Stores.Store.GetIncidentDetail | internal/core/store.go:197-224 | Fails for unknown incidents only; otherwise returns the graph's events by timeline index. |
| Stores.Store.PutRun | internal/core/store.go:255-278 | Contract, conflict, baseline gate, then insertion; the invariant is kept. |
| Stores.Store.ListRuns | internal/core/store.go:294-308 | Exactly the runs in the status, strictly ascending by id. |
| Stores.Store.TransitionRun | internal/core/store.go:310-328 | Legality, contract, existence, status and provenance, then replacement; the invariant is kept. |
| Stores.Store.ClaimRun | internal/core/lease.go:22-39 | Moves a CREATED run to VALIDATING and sets its lease to the instant asked for, or changes nothing; the invariant is kept. |
| Stores.Store.RenewLease | internal/core/lease.go:42-53 | Sets the lease of a known run to the instant asked for and changes nothing else. |
| Stores.Store.ReclaimExpiredRuns | internal/core/lease.go:58-76 | Exactly the VALIDATING and RUNNING runs with no lease or an expired one, each once. |
| Stores.Store.Reset | internal/core/store.go:49-63 | Drops everything but the leases and counts incidents and runs. |
| Stores.Store.PutDiff | internal/core/store.go:330-344 | Contract, conflict, then insertion. |
| Pagination.ListingUnique | internal/core/store.go:155-183 | There is only one listing, whatever order the map is iterated in. |
| Pagination.ReadRows | internal/core/postgres.go:534-557 | The row loop returns the page of the slice version. |
| Pagination.OneRowMore | internal/core/postgres.go:526-557 | Limit plus one rows are enough for it. |
| Pagination.PageContents | internal/core/store.go:155-193 | A page is a strictly descending run of wanted incidents; what it leaves out is older than its cursor, which is its last key. |
| Pagination.PageNewestFirst | internal/core/store.go:155-193 | In a page the newest incident comes first, at one instant the larger id; with a cursor all lie past its two fields; every item is stored and has the status asked for. |
| Pagination.WalkComplete | internal/core/store.go:143-195 | Following cursors, with incidents stored in between, never repeats an incident, serves the newest first throughout, and at its end has served every matching incident present from the start. |
| Pagination.WalkServesStored | internal/core/store.go:143-195 | A walk serves only matching incidents stored at the time. |
| Pagination.CursorRefused | internal/core/postgres.go:489-499 | Two valid incidents at the zero instant, pages of one: the cursor handed out is always refused. |
| Pagination.NextAccepted | internal/core/postgres.go:489-499 | The next request is answered exactly when the page did not end on an incident at the zero instant. |
| Detection.PrepareIncident | cmd/core-api/detect.go:29-73 | Nothing exactly when the oracle does not fire; an error exactly when it fires and a parent is missing or cyclic; otherwise the draft named after the execution, detected now. |
| Detection.DetectAndPersist | cmd/core-api/detect.go:25-82 | Loads, prepares and puts; a conflict is no error, every other refusal is. |
| Detection.PreparedAccepted | cmd/core-api/detect.go:43-80 | The store accepts a draft exactly when its events share one trace, unless incident or graph is there already. |
| Convergence.SoundRun | cmd/core-api/detect.go:25-82 | Over any interleaving of handlers the archive keeps its invariant and its naming and only grows. |
| Convergence.DetectionConverges | cmd/core-api/detect.go:25-82 | For an execution that fails whichever recorded replay events are there, in every arrival order and interleaving of handlers and recordings, once all its own events are stored and its handlers are done there is exactly one incident of that execution, named after it, showable, and never rewritten or duplicated later. |
| Progress.SourceExists | internal/graph/graph.go:116-118 | Acyclic constraints on finitely many events always leave one without a live predecessor. |
| Progress.HandlerCanMove | cmd/core-api/detect.go:25-82 | A handler that has not finished can always take its next step, without disturbing any other. |
| Progress.FinishAll | cmd/core-api/detect.go:25-82 | From any state all handlers can run to their end without any new event. |
| Reporting.CanBeReportedExactly | cmd/core-api/detect.go:25-82 | Over all histories: the execution can come to be reported if and only if some of its events, an arrived one among them, fail together with a recorded part that can be there. |
| Reporting.AlwaysReportedExactly | cmd/core-api/detect.go:25-82 | Every history that stores all its own events and finishes its handlers reports the execution if and only if its own events fail together with every recorded part that can be there. |
| Reporting.NoFalseAlarm | cmd/core-api/detect.go:25-82 | Whatever is reported has been seen failing. |
| Reporting.RobustExactly | cmd/core-api/detect.go:84-102 | An execution that fails on its own stays failing whatever is recorded if and only if every recorded event is of its trace and finds its parent there when it is recorded. |
| Reporting.MissedExactly | cmd/core-api/detect.go:84-102 | An execution that fails on its own is reported in every complete history if and only if every recorded event fits in; otherwise recordings can make it go unreported. |
| Reporting.RecordingsMatterExactly | internal/core/store.go:85-98 | Events recorded by replay workers change whether the execution can or must be reported if and only if it fails on its own and one of them does not fit in, or it never fails on its own and can with them. |
| EndToEnd.RetriedCheckoutFails | cmd/demo-checkout/service/service.go:142-231 | The events of a retried checkout without deduplication form a failing execution; that no two share an id is all it takes. |
| EndToEnd.OtherCheckoutsClean | cmd/demo-checkout/service/service.go:142-231 | The events of every other successful checkout never make the oracle fire, not even in part. |
| EndToEnd.ReportedExactly | cmd/core-api/detect.go:25-82 | For every schedule of a successful checkout, every arrival order of its events, every interleaving of handlers and every recording that does not matter, in the end an incident exists if and only if two attempts ran without deduplication. |
| EndToEnd.ReportedWithoutReplays | cmd/core-api/detect.go:25-82 | The same when no replay event is recorded under the checkout's execution: distinct event ids are the only hypothesis on the capture. |
| EndToEnd.WholeRunExists | cmd/demo-checkout/service/service.go:142-231 | Schedules and histories that meet all hypotheses exist, with and without a retry. |
| Collision.ReplayFitsIn | cmd/replay-worker/main.go:147-151 | Whatever the worker has recorded of a replay of the checkout's identity fits in: one trace, every parent recorded before. |
| Replays.CollisionExactly | cmd/replay-worker/main.go:147-151 | Any number of replays recorded under a checkout's own execution id, each in its worker's order, interleaved as they may be: the checkout is surely reported exactly when it retried without deduplication, replays or not; it can be reported exactly when, besides, a replay retried, or it retried itself and there is a replay; and the recordings matter exactly when it can be and is clean on its own. |
| Replays.DistinctRunsCollide | cmd/replay-worker/runner.go:35-49 | Distinct run ids, with ids made by the generator for dash-free components, are all it takes for the events of checkout and replays to be storable beside each other. |
| Collision.OrderMatters | cmd/replay-worker/main.go:147-151 | Recorded in any other order, the replay's events could hide every failing checkout. |
| Replays.CleanReported | cmd/replay-worker/runner.go:93-94 | Witness at checkout 8271: a clean original is reported after its retried baseline replay and its comparison were recorded. |
| DiffBuild.Compare | internal/systempack/checkout/compare.go:75-123 | A diff it returns is valid, carries the System Pack's own verdicts, the alignment and the meaningful divergence; baseline effects plus delta are comparison effects; it succeeds on non-empty streams without blank ids. |
| DiffBuild.AssembledValid | internal/contracts/contracts.go:728-770 | An assembled diff is valid exactly when stored effects agree with stored verdicts and no added or removed id is blank. |
| DiffBuild.Build | internal/differential/differential.go:69-159 | Reaches the assembled diff exactly when the prerequisites hold and both runs can be ordered; never dereferences a missing field; a returned diff is valid and passes the database's gate; inconclusive comparisons report no divergence; baseline effects plus delta are comparison effects. |
| DiffBuild.GateStays | internal/core/postgres.go:264-266 | A diff that passed the gate passes it at any later time short of a reset. |
| DiffBuild.GateIsPrerequisite | internal/core/postgres.go:240-266 | The database's gate and the builder's prerequisites are one condition on stored runs. |
| DiffBuild.ReachableAssembledValid | internal/contracts/contracts.go:728-770 | For runs stored in any reachable state an assembled diff is invalid exactly when an added or removed id is blank, which is thus the only refusal of Build at its last check. |

## Left out

- HTTP handlers, clients, the web front end, environment and flag reading, logging, context cancellation: plumbing around the modelled calls.
- SQL text, transactions and payload codecs: every repository method is one atomic step, and the cursor's text encoding is taken to round-trip; of the database version the row loop and the diff gate are modelled.
- Timestamps as text: times are integers; that a timestamp parses is part of the `otherChecks` field of events and incidents.
- Fields the modelled logic never reads (schema versions, durations, attribute whitelists, labels, pack descriptors, summaries): their checks are one boolean per record.
- Capsule validation, digests, canonical JSON and fixtures: their results are inputs of the worker's environment. The load-order check of a capsule compares membership and length only, so "exactly once" is not enforced there; nothing modelled depends on it.
- The development pack of internal/packregistry: a stand-in whose aligner looks at baseline keys only.
- Payment latency and wall-clock accuracy: the timer races freely against the completion.
- Slices and maps handed to the store: value semantics, no aliasing with the caller.
- Go's fixed-width integers: counters are unbounded, except the 64-bit event counter of the id generator.
- Unicode white space beyond Latin-1 in `strings.TrimSpace`: blank means the ASCII and Latin-1 space characters.
- CheckoutRace: the goroutines of cmd/demo-checkout/service/service.go are a step system over an explicit state, because their interleavings are the point; ids, timestamps and sequence numbers of the recorded events are arbitrary there.
- WorkerProtocol: the worker of cmd/replay-worker/main.go is a step system for the same reason; `RunProcessing.ProcessRun` ties the sequential method to it. The poll loop's sleeping is not modelled.
- Convergence: handlers do not crash between ingesting and detecting; an event whose handler dies is detected when a later event of the execution arrives. A request that carries an event of the execution carries one of its own events: replay events arrive through workers only.
- EndToEnd.ReportedExactly: that no two captured events share an id is a hypothesis, because the race leaves the recorders' ids open; `Capture.UniqueBetweenResets` gives it, and `EndToEnd.WholeRunExists` that it can be met.
- Replays.CollisionExactly: a replay that fails records nothing and is not in the list; a replay executed again under one run id by a new process repeats its first event id, is refused there and records nothing more.
- Capture.Recorder.Record: a record is one step; two goroutines of one instance may in the code emit in the other order than they drew their numbers.
- Ledger.Service.Commit: one step; the interleaving of commit and recording is that of `CheckoutRace`.
- Recovery.ReclaimOrphans: one pass undisturbed by others; the disturbed pass is `Stranded.PassEndsTerminal`.
- Stores.Store.PutDiff: the in-memory version, which does not recheck the two runs; the database's recheck is `Diffs.Gate`.
- Texts of explanations and evidence summaries: only that they are not blank, where a contract asks for it.
