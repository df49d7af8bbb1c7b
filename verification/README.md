# FlowSession verification

A Dafny model of the durable core of godex, with proofs. It covers the FlowSession journal
protocol, the planner and runner of event regions, the pinning of Flow versions by live
sessions, and the repair of long tasks.

## What is modelled

**The journal protocol** (`SessionTypes`, `SessionDisk`, `SessionAtomic`, `SessionRuns`,
`SessionContracts`, `SessionHistory`, `SessionTheorems`, `SessionDrain`, `SessionLedger`,
`SessionStore`, `EventIdentity`).
A session is a snapshot, a journal and possibly a torn tail. Every operation is a plan of
durable writes that begins with loading and repairing the session; a fault stops a plan at any
write and may tear an append. `SessionAtomic` maps every consistent disk to a simple session
and proves that operations, whole or stopped, refine atomic operations on it. `SessionRuns`
puts any number of submitters, workers with old snapshots, signals and lifecycle calls around
one disk; the main results are about all its runs. `SessionStore` is the same store as a class
that updates its fields write by write, proved to follow the plans under any fault.
`SessionContracts` and `SessionLedger` say field by field what operations and the acts of a run do,
without the functions that define them.

**The journal file** (`Journal`). Bytes instead of events: backward search, tail repair and
paged reads. Its three kinds of tail are the ones the protocol assumes.

**Regions** (`RegionPlanner`, `RegionRun`, `RegionAcceptance`, `RegionThread`, `RegionOutputs`,
`RegionCourse`, `RegionRunner`, `SessionRegions`). The planner's loops take branches and routes in
any order; the result is shown not to depend on it, and `RegionAcceptance` says over the Flow itself
which triggers have a region. The runner is a class; a region that the planner accepts never stalls,
and in a finished run exactly the right nodes worked, each on what the nodes before it left.
`RegionCourse` says as a function what the runner does, and `SessionRegions` plugs that function
into the session protocol.

**Version pinning** (`VersionPinning`, `FlowVersions`). Operations under the Flow lock are
sequences of small steps that interleave with sessions changing status and may be cut off by a
crash; `FlowVersions` has the operations themselves and shows that each is such a sequence.

**Long-task repair** (`RepairNames`, `LongTaskRepair`). Names of repair nodes as text, the search
for the latest attempt, and the rewiring of references.

## Assumptions

- Counters are natural numbers; states and payloads are their canonical JSON text.
- Encoding an event yields a non-empty text without newline, decoding reads it back, and no
  proper prefix of it decodes (`Journal.Lawful`).
- The SHA-256 of an event is represented by the text that is hashed.
- Replacing a file is atomic; appending may leave any prefix of what was to be written.
- A region is a deterministic function of state and event for replay equivalence; what a node
  computes is a function that may fail, and each node runs at most once.
- A compiled Flow has distinct node ids, no dependency cycle, branches that depend on their source
  unless it is a loop, and route targets that are not nodes of the static graph
  (`RegionRun.WellCompiled`).
- Story ids, node ids and references do not have the form of a repair of a story
  (`LongTaskRepair.Fresh`), and appending a node to a workflow only adds it.

## What turned out not to hold

- Tail recovery switches on the event kind without looking at the source. An external event of
  kind `session.paused`, `session.resumed`, `session.completed` or `session.canceled` is stored
  as an ordinary event, but acts as a transition if a crash falls between its two writes.
  `AtomicUnlessAmbiguous` gives the exact condition, `ExternalEventEndsSession` an input.
- The text hashed to recognise a resubmission joins its parts with NUL. Over everything that can be
  submitted it identifies the content exactly when no other NUL splits kind and correlation into
  accepted ones (`IdentifiedUnlessSplittable`); `DifferentEventIsLost` has two events of which the
  second is lost as a duplicate of the first.
- `DeleteFlowVersion` compares the version name as given but removes the place that the trimmed name
  leads to, and saving compares names where places count. The guards protect all sessions in all runs
  exactly when the names in use have no aliases (`PinningHoldsIffUnaliased`). ` v1` removes a pinned
  `v1` (`DeleteAliasBreaksPinning`), the empty name all versions (`EmptyNameRemovesAll`).
- `PublishFlow` loads and saves outside the Flow lock. `PublishKeepsIff` says for each file it writes,
  at any moment, exactly when that disturbs nobody; `PublishBreaksPinning` is a run where it does.
- Loading a version returns what was saved exactly when a compiled form was saved or there was none
  before (`LoadedIsSavedIff`): a draft without nodes leaves the old compiled form in place, and a
  session opens on it (`SessionOpensOnStaleForm`).
- A repair node is created without dependencies. The repaired long task is the original with stories
  replaced by their latest attempts exactly when no repaired story depended on anything or took
  anything over (`ReplacedIffNothingLost`, `RepairLosesDependency`).
- A repair node is saved before the references move. A repair cut off in between leaves them in step
  exactly when nothing mentioned the failed attempt (`InterruptedFollowsIff`), and strands them for
  good otherwise (`InterruptedRepairStrands`).

## Model

| member | source | states |
|---|---|---|
| `SessionTypes.LifecycleRoundTrip` | internal/agent/flow_session_store.go:392-409 | tail recovery reads out of the event kind of a transition the status that the transition wrote, and never takes an output event for one |
| `SessionAtomic.CleanRoundTrip` | internal/agent/flow_session_store.go:310-356 | every sound session has a disk form that is consistent and stands for exactly that session |
| `SessionAtomic.AbsSound` | internal/agent/flow_session_store.go:334-349 | every consistent disk stands for a session whose journal is numbered 1..n and whose counters are in order (processed <= last <= state version) |
| `SessionAtomic.FlushPhase` | internal/agent/flow_session_store.go:852-879 | flushing an outbox writes exactly the staged events that the journal lacks, and at every point where it may stop the disk still stands for the same session |
| `SessionAtomic.RecoverPhase` | internal/agent/flow_session_store.go:358-411 | tail recovery turns a journal that is one event ahead into the snapshot of the session the disk already stood for; interrupted or not, the session is unchanged |
| `SessionAtomic.LoadIsStutter` | internal/agent/flow_session_store.go:310-356 | loading a consistent disk succeeds, ends in the clean form of the session it stands for, and changes that session at no point where it may stop |
| `SessionAtomic.StageThenFlush` | internal/agent/flow_session_store.go:654-707 | a commit with outputs: the session is the old one until the snapshot with the outbox is written and the committed one at every point after that, however the flush is interrupted |
| `SessionAtomic.TransitionRealized` | internal/agent/flow_session_store.go:443-509 | a transition, log first and snapshot second, is all or nothing at every interruption |
| `SessionAtomic.SubmitRealized` | internal/agent/flow_session_store.go:511-577 | a submission is all or nothing at every interruption, except that a lifecycle kind may be misread |
| `SessionAtomic.CommitRealized` | internal/agent/flow_session_store.go:654-707 | a commit, with or without outputs, is all or nothing at every interruption |
| `SessionAtomic.SignalRealized` | internal/agent/flow_session_store.go:709-758 | a signal replaces the snapshot once or does nothing |
| `SessionAtomic.CheckpointRealized` | internal/agent/flow_session_store.go:579-652 | checkpoints and cancellations replace the snapshot once or do nothing |
| `SessionAtomic.BodyRealized` | internal/agent/flow_session_store.go:443-758 | the same for all seven operations on a loaded session, with the reply of the atomic session |
| `SessionAtomic.OperationCompletes` | internal/agent/flow_session_store.go:310-758 | an uninterrupted operation on any consistent disk replies and acts as the atomic session does, and leaves the clean disk of the result |
| `SessionAtomic.CrashAtomicity` | internal/agent/flow_session_store.go:310-758 | an operation stopped at any durable write, with any torn append, leaves a consistent disk that stands for a possible outcome of the atomic operation |
| `SessionAtomic.AmbiguousIsMisread` | internal/agent/flow_session_store.go:358-411 | an accepted external event of a lifecycle kind, stopped between its two writes, is recovered as a transition |
| `SessionAtomic.MisreadDiffers` | internal/agent/flow_session_store.go:392-409 | that recovery is neither the session before the submission nor the one after it |
| `SessionAtomic.AtomicUnlessAmbiguous` | internal/agent/flow_session_store.go:358-411 | recovery equals completion: an operation is all or nothing under every fault if and only if it is not an accepted external event whose kind is one of the four lifecycle kinds |
| `SessionContracts.TransitionContract` | internal/agent/flow_session_store.go:452-508 | field by field: a transition succeeds exactly for the six moves or when the target is reached already, writes one event of the move's own kind and raises the counters; anything else is a conflict that changes nothing |
| `SessionContracts.PauseThenResume` | internal/agent/flow_session_store.go:457-466 | pausing and resuming any active session ends active, with state, cursors and processed cursor unchanged and two more journal events |
| `SessionContracts.SubmitContract` | internal/agent/flow_session_store.go:520-576 | field by field and in the order of the checks: how every submission is answered, and that an accepted one is stored exactly as given, with its cursor if it is numbered |
| `SessionContracts.SubmissionIsKept` | internal/agent/flow_session_store.go:538-576 | whatever fault stops a submission, numbered or not: nothing happened, or the last journal event is the input as it was given |
| `SessionContracts.CheckpointContract` | internal/agent/flow_session_store.go:591-607 | field by field: a cursor checkpoint that is on time moves the cursor and the generation only |
| `SessionContracts.CancelContract` | internal/agent/flow_session_store.go:624-651 | field by field: a cancellation that is on time skips the event and leaves state and journal alone |
| `SessionContracts.FitsIsSmall` | internal/agent/flow_session_store.go:790-811 | the size limits are 64 KiB for each output and 64 KiB for their sum |
| `SessionContracts.CommitContract` | internal/agent/flow_session_store.go:674-706 | field by field: a result that is on time and fits is installed, each of its outputs journaled in order with its own correlation and payload; any other is refused and changes nothing |
| `SessionContracts.SignalContract` | internal/agent/flow_session_store.go:726-757 | field by field: a signal is installed exactly on an active, quiescent session that is unchanged since, if its outputs fit |
| `SessionContracts.OldRecordIsLoaded` | internal/agent/flow_session_store.go:330-354 | a snapshot without generation or with counters out of order is loaded with generation 1, cursor at most last and state version at least last |
| `SessionRuns.After` | internal/agent/flow_session_store.go:310-758 | whatever fault an operation meets, the disk stays consistent and stands for a possible outcome of the operation |
| `SessionRuns.EveryOutcomeFollows` | internal/agent/flow_session_store.go:496-745 | no outcome of any operation rewrites the journal or lowers a counter, and every outcome that changes state, status or cursor raises the generation |
| `SessionRuns.ScanFindsNext` | internal/agent/flow_session_runtime.go:209-248 | the journal scan of a prepare finds exactly the event after the processed cursor, so its sequence-gap error is unreachable |
| `SessionRuns.WorkerExplains` | internal/agent/flow_session_runtime.go:287-341 | a settled worker result is a legal act on the current session, though the worker used an old snapshot |
| `SessionRuns.SignalExplains` | internal/agent/flow_session_runtime.go:391-446 | a signal that took effect ran on exactly the current session, though the second load of a signal checks no status |
| `SessionRuns.ActExplains` | internal/agent/flow_session_runtime.go:287-446 | whatever a step of a worker, submitter or signal changed is one legal act of the atomic session on its current state, though the worker used an old snapshot |
| `SessionRuns.StepKeepsInvariant` | internal/agent/flow_session_runtime.go:150-446 | every step keeps: the session is the replay of its history, and all snapshots and works that workers hold precede it |
| `SessionRuns.EveryRun` | internal/agent/flow_session_runtime.go:150-446 | that invariant holds after every run of submitters, lifecycle calls, workers, signals and faults |
| `SessionHistory.CountersCountActs` | internal/agent/flow_session_store.go:496-745 | state version minus last sequence, and generation minus one, count the acts of the history |
| `SessionHistory.StateIsFold` | internal/agent/flow_session_runtime.go:146-312 | the state of a replay is the fold of the processed journal prefix with one disposition per event |
| `SessionHistory.OutputsCounted` | internal/agent/flow_session_store.go:792-830 | the journal holds as many output events as the commitments of the history produced |
| `SessionHistory.WrittenStays` | internal/agent/flow_session_store.go:792-879 | what an act wrote to the journal stays where it was written, in one piece |
| `SessionHistory.SourcesOrderly` | internal/agent/flow_session_store.go:520-572 | the positive source sequences of each source rise in the journal, and its cursor is its latest event |
| `SessionHistory.BacklogBounded` | internal/agent/flow_session_store.go:533-535 | the unprocessed external events of a replay never exceed 256 |
| `SessionTheorems.JournalNeverGaps` | internal/agent/flow_session_store.go:334-365 | crash invariant of every reachable disk: journal sequences are 1..J; without an outbox J is last or last+1; an outbox of k events holds exactly the top k sequences and last-k <= J <= last; so no operation reports a sequence gap |
| `SessionTheorems.PrepareNeverGaps` | internal/agent/flow_session_runtime.go:209-235 | a prepare that read any earlier snapshot finds in the current journal exactly the event next to that snapshot's cursor; its sequence error is unreachable |
| `SessionTheorems.ReplayEquivalence` | internal/agent/flow_session_runtime.go:146-312 | after every run the durable session is the sequential replay of its history and its state the fold of the journal: each processed external event was committed, failed or cancelled exactly once, in order (events still pending when a session ends are not run), and runtime events contribute nothing |
| `SessionLedger.EveryActMeans` | internal/agent/flow_session_runtime.go:146-446 | after every run, every act of the history did to the session before it, field by field, what it stands for: submissions, misreadings, moves, results, failures, cancellations, passed runtime events and signals |
| `SessionLedger.InputsAreJournaled` | internal/agent/flow_session_store.go:538-576 | after every run, the input of every submission that took effect is in the journal as given |
| `SessionTheorems.CountersConserved` | internal/agent/flow_session_store.go:496-745 | conservation in every reachable session: state version = last sequence + commits + cancels + signals; generation = 1 + commits + cursor checkpoints + cancels + signals + transitions (and misread lifecycle kinds) |
| `SessionTheorems.OutputsExactlyOnce` | internal/agent/flow_session_store.go:654-879 | the outputs of every commitment are in the journal exactly once, contiguous and in order, whatever crashed |
| `SessionLedger.OutputsAreJournaled` | internal/agent/flow_session_store.go:811-829 | after every run, each output of each commitment is a session.output event of godex at its place, with its own correlation and payload and consecutive sequences and state versions |
| `SessionTheorems.RunsMoveForward` | internal/agent/flow_session_runtime.go:209-341 | the session after a prefix of a run precedes the session after the whole run |
| `SessionTheorems.NoLostUpdate` | internal/agent/flow_session_store.go:579-707 | a commit, checkpoint or cancel that takes effect finds the state, status and cursor its prepare read, and the event that comes next |
| `SessionTheorems.OneSettlementPerGeneration` | internal/agent/flow_session_store.go:591-690 | of all works prepared at one generation at most one is ever settled |
| `SessionTheorems.SignalsAreQuiescent` | internal/agent/flow_session_store.go:726-737 | a signal takes effect only on exactly the session it ran on, active and with nothing pending |
| `SessionTheorems.EndedIsFinal` | internal/agent/flow_session_store.go:452-474 | once a session is completed or canceled no step and no fault changes it |
| `SessionTheorems.EndedWritesNothing` | internal/agent/flow_session_store.go:443-758 | on the clean disk of an ended session no operation writes anything |
| `SessionTheorems.JournalOrderly` | internal/agent/flow_session_store.go:520-535 | in every reachable session source sequences rise per source and at most 256 external events wait, although outputs and transitions bypass the limit |
| `SessionTheorems.ResubmissionIsIdempotent` | internal/agent/flow_session_store.go:520-529 | after any run and in any status, resubmitting the latest numbered event of a source returns its original sequence and changes nothing |
| `SessionTheorems.ExternalEventEndsSession` | internal/agent/flow_session_store.go:392-409 | the concrete failure: an external `session.completed` event completes the session if a crash falls between the two writes, and not otherwise |
| `SessionDrain.TickShrinks` | internal/agent/flow_session_runtime.go:150-204 | advancing lowers the external backlog, or keeps it and lowers the number of pending events |
| `SessionDrain.DrainingCompletes` | internal/agent/flow_session_runtime.go:150-204 | advancing until nothing is pending ends, in the state the pending external events lead to, and appends only output events |
| `SessionDrain.PrepareNext` | internal/agent/flow_session_runtime.go:209-248 | from every active session with something pending, a look and a fetch put the next event in a worker's hands and change nothing |
| `SessionDrain.DrainsInSomeRun` | internal/agent/flow_session_runtime.go:150-204 | from every reachable active session there is a run of the system that ends in the drained session, if the region keeps its output limits |
| `SessionLedger.SubmissionTakesEffect` | internal/agent/flow_session_store.go:511-577 | after every run, every submission that the checks admit takes effect in one step |
| `SessionLedger.MoveTakesEffect` | internal/agent/flow_session_store.go:443-509 | after every run, each of the six moves takes effect in one step |
| `SessionLedger.CommitTakesEffect` | internal/agent/flow_session_runtime.go:287-312 | after every run, the next external event can be run, or fail in any way, and the result takes effect |
| `SessionLedger.CancelTakesEffect` | internal/agent/flow_session_runtime.go:316-341 | after every run, the next external event can be cancelled |
| `SessionLedger.SignalTakesEffect` | internal/agent/flow_session_runtime.go:391-446 | after every run that leaves an active session quiescent, a signal whose outputs fit takes effect |
| `SessionStore.Store.WriteSnapshot` | internal/agent/flow_session_store.go:600-607 | replaces the snapshot atomically or not at all |
| `SessionStore.Store.AppendEvent` | internal/agent/flow_session_store.go:990-1012 | appends a record or leaves one of the three tails of a stopped append |
| `SessionStore.Store.ReadLast` | internal/agent/flow_session_store.go:1014-1094 | repairs the tail and reports the last sequence |
| `SessionStore.Store.AppendPending` | internal/agent/flow_session_store.go:852-879 | the flush loop appends exactly the staged events that the journal lacks, in order, or reports a gap |
| `SessionStore.Store.FlushPending` | internal/agent/flow_session_store.go:852-879 | repair, flush and clearing of the outbox, followed as far as writes succeed |
| `SessionStore.Store.RecoverTail` | internal/agent/flow_session_store.go:358-411 | folds the one journal event that the snapshot lacks into it |
| `SessionStore.Store.LoadSession` | internal/agent/flow_session_store.go:310-356 | performs the plan of a load under any fault |
| `SessionStore.Store.TransitionSession` | internal/agent/flow_session_store.go:443-509 | performs the plan of a transition under any fault, with its reply |
| `SessionStore.Store.SubmitEvent` | internal/agent/flow_session_store.go:511-577 | performs the plan of a submission under any fault, with its reply |
| `SessionStore.Store.CheckpointCursor` | internal/agent/flow_session_store.go:579-608 | performs the plan of a cursor checkpoint under any fault, with its reply |
| `SessionStore.Store.CancelWork` | internal/agent/flow_session_store.go:610-652 | performs the plan of a cancellation under any fault, with its reply |
| `SessionStore.Store.StageOutputs` | internal/agent/flow_session_store.go:792-830 | stages outputs with consecutive sequences, exactly when they fit the size limits |
| `SessionStore.Store.SnapshotOutputs` | internal/agent/flow_session_store.go:760-790 | accepts the latest outputs of a signal exactly when each and their total fit |
| `SessionStore.Store.CommitProgress` | internal/agent/flow_session_store.go:654-707 | performs the plan of a commit under any fault, with its reply |
| `SessionStore.Store.CheckpointSignal` | internal/agent/flow_session_store.go:709-758 | performs the plan of a signal under any fault, with its reply |
| `EventIdentity.NulFreeIsIdentified` | internal/agent/flow_session_store.go:1096-1104 | accepted content without NUL in kind and correlation is identified by its hashed text |
| `EventIdentity.NormalizedIsAccepted` | internal/agent/flow_session_ops.go:217-235 | what normalisation returns is accepted content from a source that is not reserved, and normalising it again changes nothing |
| `EventIdentity.NormalizedIff` | internal/agent/flow_session_ops.go:217-249 | an input is normalised exactly when its trimmed source, kind and correlation and its payload are within bounds and the source is not godex |
| `EventIdentity.OnlyTheLabelIsOpen` | internal/agent/flow_session_store.go:1096-1104 | equal hashed texts have equal times and payloads; only the border between kind and correlation is open |
| `EventIdentity.SplitCollides` | internal/agent/flow_session_store.go:1096-1104 | every other NUL that leaves an accepted kind and an accepted correlation gives other accepted content with the same hashed text |
| `EventIdentity.CollisionSplits` | internal/agent/flow_session_store.go:1096-1104 | accepted content with the same hashed text always arises that way |
| `EventIdentity.IdentifiedUnlessSplittable` | internal/agent/flow_session_store.go:1096-1104 | over everything that can be submitted, the duplicate test identifies content if and only if no other NUL splits kind and correlation into accepted ones |
| `EventIdentity.LoneNulIsIdentified` | internal/agent/flow_session_store.go:1096-1104 | a NUL by itself does no harm: kind NUL with an empty correlation is accepted and identified |
| `EventIdentity.CollisionIsDuplicate` | internal/agent/flow_session_store.go:520-529 | after any accepted submission, different content with its hashed text and number is answered as its duplicate and not stored |
| `EventIdentity.DifferentEventIsLost` | internal/agent/flow_session_store.go:511-577 | the concrete failure: two accepted events that differ; the second one is answered with the sequence of the first and lost |
| `Journal.FindLineStart` | internal/agent/flow_session_store.go:1047-1066 | the backward search in chunks of 4096 bytes finds the true start of the last line |
| `Journal.JournalFile.Last` | internal/agent/flow_session_store.go:1014-1094 | terminates and returns exactly the last record and the repaired bytes that the specification gives, corruption included |
| `Journal.AppendTears` | internal/agent/flow_session_store.go:990-1012 | every prefix of an appended record and its newline is one of the three tails or the finished append |
| `Journal.WholeTailKept` | internal/agent/flow_session_store.go:1014-1094 | a record that lacks only its newline is kept and terminated |
| `Journal.PartialTailDropped` | internal/agent/flow_session_store.go:1014-1094 | a record that lacks more than its newline is cut off, and nothing else is |
| `Journal.UndecodableLast` | internal/agent/flow_session_store.go:1067-1082 | a terminated last line that does not decode is reported as corruption and nothing is cut; an unterminated one is cut off and what stands before it is read |
| `Journal.TornTailRepaired` | internal/agent/flow_session_store.go:1014-1094 | for every complete journal and every torn tail, repair leaves the bytes of the mended journal, newline-terminated, and returns its last record |
| `Journal.ReadPage` | internal/agent/flow_session_store.go:922-988 | from any byte offset the page is the scan of the lines from there on; negative offsets, offsets beyond the file and undecodable lines are refused |
| `Journal.ReadEvents` | internal/agent/flow_session_store.go:881-920 | the full read is the scan of the lines from the beginning |
| `Journal.UndecodableLineRefuses` | internal/agent/flow_session_store.go:898-903 | a line that does not decode ends a read with an error wherever it is met |
| `Journal.PageOfBytes` | internal/agent/flow_session_store.go:922-988 | in a complete journal a page from the offset of any record holds the first `limit` newer events and ends at the offset of a record |
| `Journal.PageSplits` | internal/agent/flow_session_store.go:922-988 | a page and what is newer after its end are together what is newer from its start |
| `Journal.PageRefinesScan` | internal/agent/flow_session_store.go:881-988 | over bytes: a page from a record before which nothing is newer equals the read of the whole file |
| `Journal.ChainDeliversAll` | internal/agent/flow_session_store.go:922-988 | chained pages deliver every newer event exactly once and in order, for any positive limit |
| `Journal.StreamDelivers` | internal/agent/flow_session_store.go:922-988 | over a journal that grows between pages: what was delivered is exactly the newer events up to where the stream stands, and everything once a page is not full |
| `Journal.OffsetsStay` | internal/agent/flow_session_store.go:922-988 | the offset of a record stays its offset when the journal grows |
| `RegionPlanner.ClosureIsClosed` | internal/agent/flow_session_runtime.go:899-912 | the closure contains its seed and everything that depends on a member |
| `RegionPlanner.ClosureIsLeast` | internal/agent/flow_session_runtime.go:899-912 | it is below every closed set that contains the seed |
| `RegionPlanner.ClosureIsReachable` | internal/agent/flow_session_runtime.go:899-909 | the region is exactly what can be reached from the entry along dependencies |
| `RegionPlanner.Close` | internal/agent/flow_session_runtime.go:887-950 | the planner's loop of passes terminates with the least closed set |
| `RegionPlanner.CloseRoute` | internal/agent/flow_session_runtime.go:1108-1140 | the same along a route; it refuses exactly the routes with a branch node downstream |
| `RegionPlanner.CollectCases` | internal/agent/flow_session_runtime.go:952-992 | the case loop of one branch succeeds exactly when its trimmed route names are distinct, none is the reserved default and no target belongs to another branch; it yields exactly the table of its routes |
| `RegionPlanner.CollectRoutes` | internal/agent/flow_session_runtime.go:952-992 | in any order of the branches: accepts exactly valid branches with unshared targets, and gives every target its branch |
| `RegionPlanner.OwnersUnique` | internal/agent/flow_session_runtime.go:952-992 | the owner of every route target is determined by the branches, not by an order |
| `RegionPlanner.IndexRoutes` | internal/agent/flow_session_runtime.go:994-1034 | the loop over the edges with its route counts succeeds exactly when the edges that leave the region are the routes of its branches, each once, and returns their targets and ids |
| `RegionPlanner.AllRoutesFound` | internal/agent/flow_session_runtime.go:1024-1032 | in any order: every expected route was counted exactly once |
| `RegionPlanner.CheckOwnership` | internal/agent/flow_session_runtime.go:1108-1185 | in any order of the routes: accepts exactly when routes of different branches share no node, and returns the union of the routes |
| `RegionPlanner.CollectChains` | internal/agent/flow_session_runtime.go:1108-1185 | in any order of the routes: closes every route and accepts exactly separate, branch-free routes |
| `RegionPlanner.CollectSkipped` | internal/agent/flow_session_runtime.go:1141-1183 | in any order of the siblings: the nodes that are on a sibling route only |
| `RegionPlanner.ValidateScopes` | internal/agent/flow_session_runtime.go:1036-1085 | in any order of the routes: accepts exactly when the base region and every route depend on their own scope only |
| `RegionPlanner.ValidateEdges` | internal/agent/flow_session_runtime.go:1087-1106 | accepts exactly when no other edge touches the region or a route |
| `RegionPlanner.BuildRegion` | internal/agent/flow_session_runtime.go:887-950 | succeeds exactly when the order-free acceptance condition holds, and returns the reachable nodes minus all routes, with each route and what it skips |
| `RegionAcceptance.AcceptedIffAcceptable` | internal/agent/flow_session_runtime.go:887-1260 | the planner accepts a trigger if and only if the Flow has what its region needs, said over nodes, kinds, dependencies, cases and edges: configured workers, steps with durable delivery and branches, distinct route names, each route one edge to a worker or step, separate routes, closed scopes |
| `RegionAcceptance.KindsMakeNoDifference` | internal/agent/flow_session_runtime.go:1197-1260 | with durable delivery acceptance does not depend on which nodes and route targets are workers and which are steps |
| `RegionAcceptance.PlanMeans` | internal/agent/flow_session_runtime.go:887-950 | the planned region part by part: base, targets, downstream and skipped nodes, said over the Flow |
| `RegionRun.TargetsCompiled` | internal/agent/flow_session_runtime.go:994-1034 | every target of an accepted branch has a compiled route |
| `RegionRun.PlannedApart` | internal/agent/flow_session_runtime.go:1108-1185 | routes of different branches neither meet nor skip each other's nodes |
| `RegionRun.AcceptedGeometry` | internal/agent/flow_session_runtime.go:887-950 | every accepted region of an acyclic Flow has the shape the runner relies on: base nodes depend on the base only, routes on the base, themselves and what they skip |
| `RegionRun.StartInv` | internal/agent/flow_session_region_runner.go:92-101 | the runner starts in the invariant |
| `RegionRun.SkippedNeverScheduled` | internal/agent/flow_session_region_runner.go:302-304 | a node marked done because it is skipped is never scheduled |
| `RegionRun.RouteNotScheduled` | internal/agent/flow_session_region_runner.go:295-317 | when a branch runs, no node of its route is scheduled yet: the already-scheduled errors are unreachable |
| `RegionRun.StepInv` | internal/agent/flow_session_region_runner.go:149-183 | running any ready node, whatever a branch chooses, keeps the invariant of the run |
| `RegionRun.RemainingCounts` | internal/agent/flow_session_region_runner.go:104-129 | nothing remains exactly when everything scheduled has run |
| `RegionRun.NoStall` | internal/agent/flow_session_region_runner.go:104-129 | while something remains, some scheduled node is ready: a stall would need a dependency cycle |
| `RegionRun.FinishedRun` | internal/agent/flow_session_region_runner.go:104-138 | a finished run executed each node once: the base region and, per branch, one route with all that is downstream of it; skipped nodes never ran |
| `RegionThread.ChooseFirst` | internal/agent/flow_session_runtime.go:1262-1284 | a branch takes its first matching case, and the default only when none matches; the target is one of its own |
| `RegionThread.RunNodeSound` | internal/agent/flow_session_region_runner.go:185-293 | in an accepted region a node fails only on its own account: missing branch configuration, missing source outputs, unavailable targets and unsupported kinds are unreachable |
| `RegionThread.ThreadStep` | internal/agent/flow_session_region_runner.go:167-183 | running a node extends the sequential thread of states, outputs and routes by exactly that node |
| `RegionThread.StateIsLastWritten` | internal/agent/flow_session_region_runner.go:336-369 | the session state after a run is the one output by the last node that output one, and the given state if none did |
| `RegionThread.EachWorked` | internal/agent/flow_session_region_runner.go:185-236 | in a sequential run every node's result is what its behaviour returns on the state and outputs left by the nodes before it, a branch puts out the route it picks on them, and the state and outputs at the end are what they left together |
| `RegionThread.RunNodeMeans` | internal/agent/flow_session_region_runner.go:185-293 | a node succeeds or fails exactly as its behaviour and the checks of its result on state and outputs so far say |
| `RegionThread.RunsFit` | internal/agent/flow_session_region_runner.go:104-129 | no run executes more nodes than the region and its routes have, which bounds the loop |
| `RegionThread.NeverStuck` | internal/agent/flow_session_region_runner.go:125-128 | no state of a run of an accepted region is one in which nodes are left and none can run |
| `RegionOutputs.HasSuccessor` | internal/agent/flow_session_runtime.go:507-525 | finds a scheduled dependent exactly when there is one |
| `RegionOutputs.LimitsOfPrefix` | internal/agent/flow_session_runtime.go:551-571 | outputs within the limits are within them at every earlier node, so stopping at the first excess is exact |
| `RegionOutputs.PublicationExact` | internal/agent/flow_session_runtime.go:506-537 | a node publishes an output exactly when nothing scheduled depends on the node and the output is declared, was returned and is not the session state |
| `RegionOutputs.EmittedExactly` | internal/agent/flow_session_runtime.go:506-573 | an output is among those of a run exactly when it carries the correlation and the encoded published values of a terminal node that ran and publishes something |
| `RegionOutputs.EmittedInOrder` | internal/agent/flow_session_runtime.go:505-573 | the outputs follow the order in which nodes ran, one for each node that publishes something and none for others |
| `RegionOutputs.CollectOutputs` | internal/agent/flow_session_runtime.go:490-575 | collects the outputs in execution order and fails exactly when a size limit is exceeded |
| `RegionRunner.Runner.constructor` | internal/agent/flow_session_region_runner.go:41-102 | starts with the base region scheduled, nothing done and the given state |
| `RegionRunner.Runner.IsReady` | internal/agent/flow_session_region_runner.go:140-147 | holds exactly when all dependencies are done |
| `RegionRunner.Runner.ScheduleBranch` | internal/agent/flow_session_region_runner.go:295-317 | splices a route in, or fails exactly when one of its nodes is scheduled already |
| `RegionRunner.Runner.RunAction` | internal/agent/flow_session_region_runner.go:185-293 | runs the action and checks its result; on success and on failure the only other effect is the route of a branch that could pick one |
| `RegionRunner.Runner.Record` | internal/agent/flow_session_region_runner.go:177-182 | marks the node done and schedules the chosen route; it cannot fail on a new route |
| `RegionRunner.Runner.ExecuteNode` | internal/agent/flow_session_region_runner.go:149-183 | a node that succeeds takes the run one step further and keeps its invariant; one that fails has not run, and left only the route of a branch on record |
| `RegionRunner.Runner.Execute` | internal/agent/flow_session_region_runner.go:104-138 | terminates within as many passes as there are nodes, follows the course of the run exactly, and reports lack of progress only in a stuck state |
| `RegionCourse.SettledStays` | internal/agent/flow_session_region_runner.go:104-129 | once a node failed or everything ran, further passes change nothing |
| `RegionCourse.PlanIs` | internal/agent/flow_session_runtime.go:887-950 | the plan of a trigger is determined by the Flow alone |
| `RegionRunner.FinishedIsAccomplished` | internal/agent/flow_session_region_runner.go:104-138 | a finished run has done exactly the base region and the routes that the outputs of the branch sources select, in dependency order, threading the session state |
| `RegionRunner.StopIsInterruption` | internal/agent/flow_session_region_runner.go:104-128 | where a run stopped, all nodes before worked on what the ones before them left, and the node that failed was next and failed on exactly what they left |
| `RegionRunner.RunRegion` | internal/agent/flow_session_runtime.go:448-488 | a region is refused exactly when the Flow lacks what it needs; it stops only for a node that fails on exactly what the nodes before it left, or for too large outputs; and otherwise every node of it worked on what the nodes before it left, and it has done exactly what it should |
| `SessionRegions.FlowsAreBounded` | internal/agent/flow_session_runtime.go:490-575 | whatever nodes do, the region function of every Flow keeps the output limits of a session |
| `SessionRegions.RegionMeans` | internal/agent/flow_session_runtime.go:448-488 | what a session runs for an event: nothing without a trigger, an error without a region or after a failure, otherwise the state and outputs of the region on the event's own behaviour and correlation |
| `SessionRegions.SessionsOfFlowsDrain` | internal/agent/flow_session_runtime.go:150-204 | every reachable active session of every Flow can be drained by a run, which ends in the state its pending events lead to |
| `VersionPinning.PlainPlace` | internal/agent/flow_store.go:118-150 | a plain version name stands for its own directory |
| `VersionPinning.PlainApart` | internal/agent/flow_store.go:118-174 | directories of different plain names do not contain each other |
| `VersionPinning.NestedPlace` | internal/agent/flow_store.go:118-136 | a name with a slash stands for the place of its second part below that of its first |
| `VersionPinning.DotPlaces` | internal/agent/flow_store.go:118-136 | one dot stands for the directory of versions, two dots for the one above |
| `VersionPinning.LoadedIff` | internal/agent/flow_store.go:154-174 | a version loads with a digest exactly when its definition, its metadata and a compiled form with that digest are there |
| `VersionPinning.MoveKeeps` | internal/agent/flow_session_store.go:443-509 | a session that changes status beside a running operation does not invalidate what the operation has checked |
| `VersionPinning.WriteKeeps` | internal/agent/flow_ops.go:128-150 | a save that has looked at every session keeps every pin, file by file |
| `VersionPinning.EraseKeeps` | internal/agent/flow_ops.go:229-300 | a deletion that has looked at every session keeps every pin, file by file |
| `VersionPinning.StepKeeps` | internal/agent/flow_ops.go:89-300 | every step of every locked operation over names without aliases, and a crash that releases the lock, keeps the pinning invariant |
| `VersionPinning.PinningHolds` | internal/agent/flow_ops.go:89-352 | in every interleaving over names without aliases, with files of published versions written in between where they disturb nobody, the version of every active or paused session exists with the digest the session recorded |
| `VersionPinning.PublishKeepsIff` | internal/agent/flow_ops.go:327-352 | writing one file of a published version at any moment keeps the invariant if and only if it is not the compiled form, or the sessions pinned there and the one about to start there have its digest |
| `VersionPinning.PinningHoldsIffUnaliased` | internal/agent/flow_ops.go:89-300 | all runs of locked operations over given names keep all sessions pinned if and only if no two saved names share a place and no deletion reaches a saved name other than its own |
| `VersionPinning.PlainIsUnaliased` | internal/agent/flow_store.go:118-174 | names that are single trimmed directory names have no aliases |
| `VersionPinning.SharedPlaceBreaks` | internal/agent/flow_ops.go:127-150 | two saved names with one place: a run on which a save replaces a pinned form |
| `VersionPinning.ReachingDeleteBreaks` | internal/agent/flow_ops.go:229-243 | a deletion whose place contains that of another saved name: a run on which it removes a pinned version |
| `VersionPinning.DeleteKeepsPinningIff` | internal/agent/flow_store.go:278-313 | deleting the place of a name keeps the pinning if and only if the version of no live session lies in that place |
| `VersionPinning.DeleteAliasBreaksPinning` | internal/agent/flow_ops.go:229-243 | the concrete failure: deleting ` v1` passes the guard of a live session pinned to `v1` and removes it |
| `VersionPinning.EmptyNameRemovesAll` | internal/agent/flow_store.go:278-288 | the empty name stands for the directory of all versions, and deleting it removes every plainly named version |
| `VersionPinning.SaveKeepsPinningIff` | internal/agent/flow_store.go:118-150 | saving a version keeps the pinning if and only if no compiled form is saved or every live session whose version lies there has its digest |
| `VersionPinning.PublishRun` | internal/agent/flow_ops.go:327-352 | publishing writes the three files of the version it loaded, without the lock |
| `VersionPinning.PublishBreaksPinning` | internal/agent/flow_ops.go:327-352 | the concrete failure: a version is replaced and a session starts on it while it is being published; the publication puts the old compiled form back |
| `VersionPinning.LoadedIsSavedIff` | internal/agent/flow_store.go:118-174 | what a load returns after a save is what was saved if and only if a compiled form was saved or the directory held none before |
| `VersionPinning.SessionOpensOnStaleForm` | internal/agent/flow_session_ops.go:17-56 | the concrete failure: a compiled version is replaced by a draft without nodes, and a session still opens on the old compiled form |
| `FlowVersions.FlowStore.Scan` | internal/agent/flow_ops.go:127-138 | looks at every session and stops exactly when one is in the way |
| `FlowVersions.FlowStore.ActiveRun` | internal/agent/flow_ops.go:276-287 | finds an active run of the version, or of any, exactly when there is one |
| `FlowVersions.FreeMeans` | internal/agent/flow_ops.go:127-138 | what stands in the way of saving, deleting a version and deleting the Flow, by status, name and digest |
| `FlowVersions.ResolvedInOrder` | internal/agent/flow_ops.go:356-373 | the version that runs is the one asked for, else the first lane that is set of published, gray and draft |
| `FlowVersions.FlowStore.SaveVersion` | internal/agent/flow_store.go:118-150 | stores the three files of a version unless its trimmed name is empty |
| `FlowVersions.FlowStore.SetStatusLane` | internal/agent/flow_store.go:240-256 | one lane points at the version and every other lane where it did; the published version is what runs when none is asked for |
| `FlowVersions.FlowStore.CreateFlow` | internal/agent/flow_ops.go:89-159 | stores exactly when the name is not empty and no live session pins another form; is a run of the step system over its name; keeps set lanes loadable |
| `FlowVersions.FlowStore.RemoveAll` | internal/agent/flow_store.go:278-290 | removes a directory with everything below it |
| `FlowVersions.FlowStore.DeleteFlowVersion` | internal/agent/flow_ops.go:229-243 | removes exactly when no active run and no live session carries that name; is a run of the step system over its name; clears lanes so that set lanes stay loadable |
| `FlowVersions.FlowStore.DeleteFlow` | internal/agent/flow_ops.go:247-273 | removes everything exactly when no run and no session is active; is a run of the step system |
| `FlowVersions.FlowStore.CreateFlowSession` | internal/agent/flow_session_ops.go:17-56 | starts exactly when the resolved version can be loaded and run and the id is new; the new session is pinned; is a run of the step system |
| `RepairNames.ScanDecimal` | internal/agent/longtask_view.go:91-94 | scanning reads back a printed attempt number, unless it does not fit in 64 bits |
| `RepairNames.ScanPrefixes` | internal/agent/longtask_view.go:91-94 | space and a sign before the number are scanned; a minus makes it negative |
| `RepairNames.OwnAttempt` | internal/agent/longtask_repair.go:126-128 | the name of a repair is recognised as that attempt at its story |
| `RepairNames.ForeignAttempt` | internal/agent/longtask_view.go:83-97 | the repair of one story is never taken for an attempt at another whose repair form the first does not have |
| `LongTaskRepair.LatestIsGreatest` | internal/agent/longtask_view.go:78-104 | the latest attempt is the greatest attempt that exists, and the base node only when there is none |
| `LongTaskRepair.LatestStoryNode` | internal/agent/longtask_view.go:78-104 | the loop finds that attempt and its node |
| `LongTaskRepair.ReplaceDep` | internal/agent/longtask_repair.go:115-124 | replaces every occurrence in place and reports whether there was one |
| `LongTaskRepair.RewireNode` | internal/agent/longtask_repair.go:52-95 | moves both kinds of references of a node and queues it again if it was running |
| `LongTaskRepair.RewiredExactly` | internal/agent/longtask_repair.go:53-95 | a rewired node refers to the repair where it referred to the failed attempt, waits again if it was running a job, and is otherwise the same |
| `LongTaskRepair.RepairIsFresh` | internal/agent/longtask_repair.go:33-42 | the new node waits, has no job and refers to nothing |
| `LongTaskRepair.LongTask.AppendRepair` | internal/agent/longtask_repair.go:10-104 | with the view it is given, current or old: declined exactly at the limit, refused exactly when there is no room or the id is taken, otherwise the repair exists and every other node's references have moved |
| `LongTaskRepair.FreshViewRepairs` | internal/agent/longtask_repair.go:10-104 | with the view of the current workflow that is the repair that requests are made of |
| `LongTaskRepair.OldViewChangesNothing` | internal/agent/longtask_repair.go:16-49 | with the view of an earlier attempt nothing changes, since its references have moved on |
| `LongTaskRepair.LatestIsCurrent` | internal/agent/longtask_view.go:78-104 | in a repaired task the attempt that is found is the last one made |
| `LongTaskRepair.RepairFollows` | internal/agent/longtask_repair.go:33-95 | one more repair of any story keeps the task equal to its original with references moved to the latest attempts |
| `LongTaskRepair.RepairsFollow` | internal/agent/longtask_repair.go:10-104 | after any sequence of requests that holds, and no story has more repairs than the limit |
| `LongTaskRepair.RepairsKeepAcyclic` | internal/agent/longtask_repair.go:49-95 | repairs introduce no dependency cycle |
| `LongTaskRepair.RepairKeepsRefsIff` | internal/agent/longtask_repair.go:33-42 | a repair has the dependencies of its story if and only if the story had none, and likewise what it takes over |
| `LongTaskRepair.ReplacedIffNothingLost` | internal/agent/longtask_repair.go:33-95 | the repaired long task is the original with each story replaced by its latest attempt if and only if no repaired story depended on anything or took anything over |
| `LongTaskRepair.RepairLosesDependency` | internal/agent/longtask_repair.go:33-42 | the concrete failure: of two stories the second depends on the first; its repair depends on nothing |
| `LongTaskRepair.InterruptedFollowsIff` | internal/agent/longtask_repair.go:33-49 | a repair that stops after its node is saved leaves references in step if and only if nothing mentions the failed attempt |
| `LongTaskRepair.InterruptedRepairStrands` | internal/agent/longtask_repair.go:33-49 | otherwise, for a repair of any attempt, what mentions that attempt still does after any number of further repairs |

## Left out

- Timestamps, execution summaries, processed-node lists and branch routes in the session record: they are stored and shown, never decided on.
- The JSON side of input normalisation (payloads arrive in canonical form) and the delivery mode of an event's trigger.
- SessionStore.Store.ReadLast: has no outcome for a last record that is newline-terminated and does not decode, which no fault of this model leaves; `Journal.JournalFile.Last` has it.
- SessionDrain.DrainsInSomeRun: claims a draining run with no other participant; that other participants stop is a matter of scheduling.
- Lanes, deadlines, overload policies and progress reports of workers: they choose which work is prepared and when, and the runs here allow every choice.
- What nodes compute: scripts, services, language models, subagents, retries and time limits are one function that may fail.
- RegionPlanner.BuildRegion: takes a node's own configuration checks (runtime, network, service, declared outputs) as one flag of the node.
- Journal.ReadPage: leaves out the scanner's limit of one megabyte per line; the limit of a page is positive, as both callers make it.
- FlowVersions.FlowStore.CreateFlowSession: takes as a parameter whether execution mode and inputs of the version accept a session.
- VersionPinning.PinningHolds: is about one Flow whose operations all take the same lock; two operations take the lock under the Flow id as given, untrimmed.
- Lock striping, directory layout beyond the version directories, symbolic links and file-system errors that are neither a failed write nor a crash.
- LongTaskRepair.LongTask.AppendRepair: leaves out prompts and agent jobs; ids are taken to be free of surrounding space.
- FlowRun and the workflow engine, compaction, human tasks, webhooks, the command line, the user interfaces and the adapters.
