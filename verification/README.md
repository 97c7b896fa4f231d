# PaneBind: a verified model

PaneBind makes one Explorer window follow another while the user drags it, without
ever resizing, drifting or reacting to its own moves. This project models the parts
of PaneBind that decide that, in Dafny, and proves what they promise.
`dafny verify dfyconfig.toml` checks all of it.

| component | files |
|---|---|
| checked 64-bit geometry, pure translations | `Geometry.dfy`, `Translation.dfy` |
| adjacency, graph building, reachability | `WindowAdjacency.dfy`, `AdjacencyGraph.dfy`, `Connectivity.dfy` |
| frozen topology and follower plans | `TranslationSession.dfy` |
| the glue-move coordinator | `GlueMove.dfy` (each entry point as a function), `GlueMoveCoordinator.dfy` (the object, proved equal to it), `GlueInvariants.dfy`, `GlueTheorems.dfy`, `GlueExact.dfy` (every answer of every entry point), `GlueDrag.dfy` (progress) |
| thinning of one batch of receipts | `GlueQuantum.dfy`, `GlueQuantumExact.dfy` (exactly when it is invisible), `GlueDelivery.dfy` (batches come in order) |
| the event source | `EventSource.dfy` (a FIFO), `EventSourceRing.dfy` (the ring in an array), `EventSourceExact.dfy` (what becomes of every callback and receipt) |
| the observer queue, any number of producers | `ObserverQueue.dfy` |
| companion process: ledger, handshake, frames, protocol, payloads | `CompanionLedger.dfy`, `CompanionHandshake.dfy`, `CompanionFrames.dfy`, `CompanionOptions.dfy`, `CompanionProtocol.dfy`, `CompanionPayloads.dfy`, `CompanionLoop.dfy` (the target's loop), `CompanionRuns.dfy`, `CompanionCalls.dfy` (the controller's calls) |
| companion layout | `CompanionLayout.dfy` |
| profiler and activation | `GlueProfiler.dfy`, `GlueActivation.dfy` |

How to read it:

- Code that changes an object is a class whose every method is proved equal to a
  function on the object's value; the theorems are about runs of those functions, so
  they speak about every sequence of calls.
- A C++ exception is the outcome `Threw`. State changed before the throw stays
  changed: a leader location is counted before its plan is made, so `FeedbackConserved`
  carries the number of locations whose planning threw. `NativeRunNeverThrows` shows
  that this number is zero when all coordinates are native 32-bit ones.
- Beside the theorems on runs, a lemma whose name ends in `Exactly` says of one operation
  when each of its answers is given and what the state is then, in terms of the arguments,
  the invariant and the history, and not of the operation's own cases.
- Native calls, clocks and the other process are parameters or steps of an
  environment that may answer anything the operating system can answer.
- Identifiers are compared character by character. Counters of 64 bits that decide a
  branch are bounded and their exhaustion is modelled; mere statistics are unbounded.

Results that are not what one might expect:

- Thinning a batch can be visible: it moves a follower receipt in front of a leader
  location that came before it. `ThinningInvisibleExactly` says for every batch in order
  when no reachable coordinator can tell, whatever the samples and the answers to
  commands: when no leader location is dropped right in front of a follower receipt while
  a session may still be alive. What may be alive is computed from the receipts alone,
  for a session that rests and, where the first sequence number leaves room for them,
  for one that has just started and one with commands behind it. For locations only, this
  means that no follower receipt lies between two leader locations
  (`LocationsInvisibleExactly`). With lifecycle receipts that condition is sufficient
  (`ThinningIsInvisible`) but not necessary: a follower's start, a second leader start or
  an early end aborts every session before the forms part. `InterleavedFeedbackWhole` and
  `InterleavedFeedbackThinned` show the difference in a state reached from a new
  coordinator (`AwaitingIsReached`): the full batch aborts on a full ledger, the thinned
  one goes on.
- The abort for feedback that matches two pending operations, the check for two
  different deltas in one translation, the later component and plan checks of `arm`, and
  the unknown-neighbour branch of the component search can never be taken.
- Feedback that never comes does not hold a session up: it is completed and the missing
  echo reconciled (`MissingFeedbackIsReconciled`). A drag that nothing disturbs always
  completes, for any places (`UndisturbedDragCompletes`), and an undisturbed call of the
  controller always succeeds (`UndisturbedCallSucceeds`).
- A failed post of the observer strands receipts (`FailedPostStrandsReceipt`), but not
  for good: the next producer posts again (`NextProducerPosts`), and from the moment a
  drain clears the flag no wake-up is lost while posts succeed (`DrainRestoresWakeup`).
- A valid profiler recording need not be nested: closing a span at a point that was read
  before its child ended leaves one that counts as valid (`EndingInThePast`). A valid
  recording is a forest exactly when every span was opened after the closed ones had
  ended and closed after the spans opened since (`ValidRunIsForest`); fresh readings, and
  older points that nothing has outlived, always come in time (`FreshReadingsGiveForest`).
- Against the repository's own target, the controller's checks for a mismatched
  response never fail; the session dies by time, exit or pipe failure only.

## Model

| member | source | states |
|---|---|---|
| `Geometry.CheckedDifference` | src/core/geometry/checked_arithmetic.h:10-21 | a value exactly when the exact difference fits in 64 bits, and then that difference; no intermediate step overflows |
| `Geometry.CheckedAdd` | src/core/geometry/checked_arithmetic.h:23-34 | a value exactly when the exact sum fits in 64 bits, and then that sum |
| `Geometry.DifferenceWithin` | src/core/geometry/checked_arithmetic.h:48-53 | agrees with the tolerance comparison over unbounded integers, also when the difference overflows |
| `Translation.ClassifyGeometryChange` | src/core/movement/translation.h:59-88 | for all pairs of 64-bit rectangles, exactly when each answer or overflow is given; the error for two different deltas never is |
| `Translation.ClassifyInvertsTranslate` | src/core/movement/translation.h:59-99 | classifying gives a delta exactly when translating by that nonzero delta gives the rectangle back and the extents fit |
| `Translation.NativeNeverOverflows` | src/core/geometry/geometry.h:13-15 | with native coordinates classification always answers and its delta can be applied to any native follower |
| `WindowAdjacency.IdLessTotal` | src/core/topology/window_adjacency.h:45-48 | identifiers are totally and strictly ordered |
| `WindowAdjacency.IdLessExactly` | src/core/topology/window_adjacency.h:45-48 | the order of identifiers is that of a dictionary |
| `WindowAdjacency.PositiveIntervalOverlap` | src/core/topology/window_adjacency.h:54-71 | the length of the common interval, or overflow exactly when it does not fit |
| `WindowAdjacency.PickContact` | src/core/topology/window_adjacency.h:96-168 | the candidate of the four edge pairs if exactly one holds, none if several do |
| `WindowAdjacency.FindAdjacency` | src/core/topology/window_adjacency.h:75-168 | answers what the specification of adjacency says: argument errors, empty windows, overflow, or the relation of the only contact |
| `WindowAdjacency.AdjacencyTells` | src/core/topology/window_adjacency.h:75-168 | for every tolerance and both orders of the arguments: a relation names the one edge of the window with the smaller identifier that is near its opposite, with their signed distance and common length; none means that not exactly one edge is near; and when the call throws |
| `WindowAdjacency.AdjacencySymmetric` | src/core/topology/window_adjacency.h:90-94 | the order of the two windows never matters |
| `WindowAdjacency.AdjacencyTranslationInvariant` | src/core/topology/window_adjacency.h:75-168 | moving both windows by one delta changes neither relation nor exception |
| `WindowAdjacency.TouchIsBordersMeet` | src/core/topology/window_adjacency.h:116-160 | touching along an edge, as a fact about points and unit squares, is meeting along one of four pairs of edges |
| `WindowAdjacency.ZeroToleranceExact` | src/core/topology/window_adjacency.h:75-168 | with zero tolerance a relation is found exactly when two nonempty rectangles touch along an edge; nothing is ambiguous |
| `AdjacencyGraph.SortByIdSorts` | src/core/topology/window_adjacency.h:178-181 | sorting gives a sorted permutation of the input |
| `AdjacencyGraph.FindTwins` | src/core/topology/window_adjacency.h:183-187 | finds a neighbouring pair of equal identifiers exactly when there is one |
| `AdjacencyGraph.CollectRelations` | src/core/topology/window_adjacency.h:189-197 | the relations of all pairs in order, or the exception of the first pair that throws |
| `AdjacencyGraph.Build` | src/core/topology/window_adjacency.h:172-200 | gives the graph, or the exception, of the specification |
| `AdjacencyGraph.BuiltExactly` | src/core/topology/window_adjacency.h:172-200 | the graph has the relations of exactly the related pairs, once each and in identifier order; an exception means a negative tolerance, a repeated identifier or a pair that overflows |
| `AdjacencyGraph.BuildIgnoresOrder` | src/core/topology/window_adjacency.h:172-200 | every permutation of the input gives the same graph or the same exception |
| `AdjacencyGraph.BuiltIffValid` | src/core/topology/window_adjacency.h:172-200 | a graph can be built exactly when it is strictly sorted and has the relations of some tolerance |
| `Connectivity.IndexOf` | src/core/topology/window_adjacency.h:260-271 | finds a known identifier and answers none only for an unknown one |
| `Connectivity.ValidRelationsKnown` | src/core/topology/window_adjacency.h:235-243 | in a built graph both ends of every relation are windows, so the unknown-neighbour branch is dead |
| `Connectivity.ConnectedComponent` | src/core/topology/window_adjacency.h:210-254 | for a known start the identifiers of the component, otherwise the argument error |
| `Connectivity.ComponentExact` | src/core/topology/window_adjacency.h:210-254 | the component lists exactly the windows reachable through relations, once each, in identifier order |
| `Connectivity.ComponentsPartition` | src/core/topology/window_adjacency.h:210-254 | two components are equal or disjoint |
| `TranslationSession.Create` | src/core/movement/move_plan.h:24-55 | freezes the leader's component; neither logic error is reached for a built graph |
| `TranslationSession.CreatedExactly` | src/core/movement/move_plan.h:24-55 | a session is created exactly for a known leader, and freezes its place and exactly the windows connected with it |
| `TranslationSession.Plan` | src/core/movement/move_plan.h:57-81 | one target for every other window of the component, none for a resize, or the exception |
| `TranslationSession.PlannedExactly` | src/core/movement/move_plan.h:57-81 | exactly which targets are planned: the followers as they are, or moved as the leader was; nothing exactly for a changed size |
| `TranslationSession.PlanMovesComponent` | src/core/movement/move_plan.h:57-81 | exactly the other windows connected with the leader get a target |
| `TranslationSession.PlanIsRigid` | src/core/movement/move_plan.h:57-81 | every planned target is its frozen rectangle moved exactly as the leader moved |
| `TranslationSession.PlanKeepsAdjacency` | src/core/movement/move_plan.h:57-81 | any two followers face each other after the plan as they did when frozen |
| `GlueMoveCoordinator.Coordinator.Make` | src/core/behavior/glue_move_coordinator.h:157-161 | an idle coordinator with no session, or the argument error for a ledger without room |
| `GlueMoveCoordinator.Coordinator.Arm` | src/core/behavior/glue_move_coordinator.h:179-242 | new state and decision are those of the state machine, for every graph and state |
| `GlueMoveCoordinator.Coordinator.OnEvent` | src/core/behavior/glue_move_coordinator.h:244-267 | the same for a receipt |
| `GlueMoveCoordinator.Coordinator.OnLeaderEvent` | src/core/behavior/glue_move_coordinator.h:442-485 | the same for a leader receipt |
| `GlueMoveCoordinator.Coordinator.PlanFollower` | src/core/behavior/glue_move_coordinator.h:538-585 | the same for planning, with every abort in the source's order |
| `GlueMoveCoordinator.Coordinator.OnFollowerEvent` | src/core/behavior/glue_move_coordinator.h:487-536 | the same for a follower receipt |
| `GlueMoveCoordinator.Coordinator.OnOperationResult` | src/core/behavior/glue_move_coordinator.h:269-319 | the same for the result of a command |
| `GlueMoveCoordinator.Coordinator.Complete` | src/core/behavior/glue_move_coordinator.h:321-361 | the same for the final snapshot |
| `GlueMoveCoordinator.Coordinator.OnReport` | src/core/behavior/glue_move_coordinator.h:363-392 | the same for the external reports, including the counter that moves in terminal states |
| `GlueMoveCoordinator.Coordinator.ResetSession` | src/core/behavior/glue_move_coordinator.h:428-440 | a new session keeps the operation generation |
| `GlueInvariants.StepKeepsLedger` | src/core/behavior/glue_move_coordinator.h:487-585 | every call keeps the ledger in capacity, with increasing generations, different expected rectangles, no finished entry, and only its last entry without a result |
| `GlueInvariants.FollowerTargetIsPairTarget` | src/core/behavior/glue_move_coordinator.h:587-599 | the planned target depends only on the armed pair and the present leader |
| `GlueInvariants.ReachableInv` | src/core/behavior/glue_move_coordinator.h:157-599 | ledger, armed pair and final geometry are consistent in every state that any calls can reach |
| `GlueInvariants.FeedbackConserved` | src/core/behavior/glue_move_coordinator.h:356-360 | in every reachable session: operations = suppressed - duplicates + unobserved + reconciled, reconciled = missing, feedback = suppressed, locations = operations + no-ops + throws |
| `GlueTheorems.ArmSucceedsExactly` | src/core/behavior/glue_move_coordinator.h:179-242 | arming from rest succeeds exactly for a graph of just the two distinct windows with one relation, and otherwise aborts with that reason |
| `GlueTheorems.CompletedIsRigid` | src/core/behavior/glue_move_coordinator.h:321-361 | a completed state shows leader and follower moved by one nonzero displacement |
| `GlueTheorems.CompletedKeepsAdjacency` | src/core/behavior/glue_move_coordinator.h:321-361 | in every reachable completed state and for every tolerance the final pair is as adjacent as the armed one: same edges, gap and overlap |
| `GlueTheorems.CompletedRunKeepsRelation` | src/core/behavior/glue_move_coordinator.h:321-361 | over every run from arming to completion the final pair has exactly the relation the armed graph recorded |
| `GlueTheorems.FeedbackNeverAmbiguous` | src/core/behavior/glue_move_coordinator.h:503-505 | no reachable state aborts a follower receipt as ambiguous |
| `GlueTheorems.CommandsComeFromTheLeader` | src/core/behavior/glue_move_coordinator.h:442-485 | a command answers a leader location in an active session and moves the follower to a different rectangle, the one the armed pair and that location give |
| `GlueTheorems.CommandsIncrease` | src/core/behavior/glue_move_coordinator.h:428-440 | operation generations strictly increase over all sessions of one coordinator |
| `GlueTheorems.LocationSettles` | src/core/behavior/glue_move_coordinator.h:538-585 | after a leader location and its exact result the follower is where the armed pair and this location put it, whatever path led there |
| `GlueTheorems.NativeRunNeverThrows` | src/core/geometry/geometry.h:13-15 | with native coordinates no call of any run throws |
| `GlueTheorems.NativeBuildNeverOverflows` | src/core/geometry/geometry.h:13-15 | with native coordinates building a graph never overflows |
| `GlueExact.PairTargetExactly` | src/core/behavior/glue_move_coordinator.h:587-599 | the target is the follower shifted as the leader was, exactly when the leader kept its size and everything fits |
| `GlueExact.HeardExactly` | src/core/behavior/glue_move_coordinator.h:244-267 | a session in progress hears exactly the receipts of its generation that are newer than the last; which abort any other receipt is |
| `GlueExact.StartExactly` | src/core/behavior/glue_move_coordinator.h:442-450 | a start activates an armed session and ends any other |
| `GlueExact.LocationExactly` | src/core/behavior/glue_move_coordinator.h:452-462 | for every reachable active session, which command, no-op, abort or exception a leader location leads to, and the ledger after it |
| `GlueExact.EndExactly` | src/core/behavior/glue_move_coordinator.h:464-484 | the move is completing exactly after a nonzero displacement without a resize; which abort or exception otherwise |
| `GlueExact.FollowerExactly` | src/core/behavior/glue_move_coordinator.h:487-536 | feedback is acknowledged, noted, suppressed or fatal according to the one pending operation that expects it, or the last acknowledged place |
| `GlueExact.ResultExactly` | src/core/behavior/glue_move_coordinator.h:269-319 | which pending operation a result counts for, what it records, and which abort any other result is |
| `GlueExact.CompletesExactly` | src/core/behavior/glue_move_coordinator.h:321-361 | a completing session is completed exactly when the leader is where its end said, all results are exact and the follower is where the armed pair puts it; outstanding feedback is reconciled |
| `GlueExact.IncompleteExactly` | src/core/behavior/glue_move_coordinator.h:321-361 | which abort or exception it is otherwise; the classification cannot fail any more |
| `GlueExact.ArmRefusedExactly` | src/core/behavior/glue_move_coordinator.h:179-210 | arming during a session, without generations left, or with another graph, and the state after each |
| `GlueExact.ReportExactly` | src/core/behavior/glue_move_coordinator.h:363-392 | each report ends the present session for its own reason |
| `GlueDrag.UndisturbedDragCompletes` | src/core/behavior/glue_move_coordinator.h:179-585 | from every reachable armed session a drag over any native places, executed exactly and echoed, completes with the follower moved as the leader was |
| `GlueDrag.MissingFeedbackIsReconciled` | src/core/behavior/glue_move_coordinator.h:335-360 | a run from a new coordinator completes with one echo outstanding, and reconciles it |
| `GlueQuantum.SelectQuantumEvents` | src/platform/windows/explorer/explorer_glue_quantum.h:15-31 | keeps every receipt except the leader locations that a later one of the same stretch supersedes |
| `GlueQuantum.ThinningIsInvisible` | src/platform/windows/explorer/explorer_glue_quantum.h:15-31 | for every reachable coordinator and any answers to commands, if no follower receipt lies between two leader locations of one stretch, the kept receipts lead to the same commands, state, abort or exception as all of them, up to location and no-op counts and sequence numbers |
| `GlueQuantum.AwaitingIsReached` | src/core/behavior/glue_move_coordinator.h:179-319 | arming a side-by-side pair, its start, one location and the exact result lead to a moving session whose one-entry ledger awaits feedback |
| `GlueQuantum.InterleavedFeedbackWhole` | src/core/behavior/glue_move_coordinator.h:560-562 | with feedback between two leader locations the full batch aborts on a full ledger |
| `GlueQuantum.InterleavedFeedbackThinned` | src/platform/windows/explorer/explorer_glue_quantum.h:15-31 | and the thinned batch goes on |
| `GlueQuantumExact.KeepIsThinned` | src/platform/windows/explorer/explorer_glue_quantum.h:15-31 | what the selection keeps is the batch without the leader locations that another one follows before the next lifecycle receipt |
| `GlueQuantumExact.ThinningInvisibleExactly` | src/platform/windows/explorer/explorer_glue_quantum.h:15-31 | for every batch in order, no reachable coordinator tells the kept receipts from all of them, under any samples and answers, exactly when the batch is tolerant |
| `GlueQuantumExact.LocationsInvisibleExactly` | src/platform/windows/explorer/explorer_glue_quantum.h:15-31 | for every batch of locations that an active session may meet, exactly when no follower receipt lies between two leader locations |
| `GlueQuantumExact.ContiguousIsSafe` | src/platform/windows/explorer/explorer_glue_quantum.h:15-31 | in any batch, leader locations that are together are safe to thin for a session wherever it stands |
| `GlueDelivery.BatchesComeInOrder` | src/platform/windows/explorer/explorer_glue_event_source.cpp:523-631 | a coordinator fed with earlier deliveries only finds every drained batch in order, and is again behind the deliveries after the batch, however thinned |
| `GlueDelivery.FedAsReceived` | src/platform/windows/explorer/explorer_glue_event_source.cpp:608-621 | an event is fed to the coordinator with the kind, role and sequence of the callback it announces |
| `EventSource.AdvanceKeepsPoison` | src/platform/windows/explorer/explorer_glue_event_source.cpp:140-152 | the first poison never changes and history only grows |
| `EventSource.SourceRefinesFifo` | src/platform/windows/explorer/explorer_glue_event_source.cpp:380-631 | in every run: pushed = popped + queued, receipts are numbered without a gap, numbered + overflow = latest with overflow at most one, each delivery announces its own popped receipt for the window bound to it, deliveries strictly increase, and a notification is owed exactly while a healthy source holds receipts |
| `EventSource.PopAllIsPops` | src/platform/windows/explorer/explorer_glue_event_source.cpp:538-628 | a drain is the sequence of its single pops, so callbacks between pops are covered |
| `EventSourceRing.PushUnrolled` | src/platform/windows/explorer/explorer_glue_event_source.cpp:454-466 | storing behind the last slot, with wrap-around, appends to the queue |
| `EventSourceRing.PopUnrolled` | src/platform/windows/explorer/explorer_glue_event_source.cpp:544-546 | advancing the head, with wrap-around, removes the first |
| `EventSourceRing.EventSourceObject.ReceiveRawEvent` | src/platform/windows/explorer/explorer_glue_event_source.cpp:380-486 | the ring object does what the FIFO does for a callback |
| `EventSourceRing.EventSourceObject.DrainOwnerQueue` | src/platform/windows/explorer/explorer_glue_event_source.cpp:523-631 | and for a drain, with its deliveries |
| `EventSourceRing.EventSourceObject.InterpretReceipt` | src/platform/windows/explorer/explorer_glue_event_source.cpp:548-626 | and for interpreting one receipt |
| `EventSourceRing.EventSourceObject.Judge` | src/platform/windows/explorer/explorer_glue_event_source.cpp:548-605 | and for the order of the checks on one receipt |
| `EventSourceRing.EventSourceObject.PendingDestroyedRoles` | src/platform/windows/explorer/explorer_glue_event_source.cpp:510-521 | reports a role exactly when a queued receipt announces that its window was destroyed |
| `EventSourceRing.EventSourceObject.StopLive` | src/platform/windows/explorer/explorer_glue_event_source.cpp:309-338 | and for stopping |
| `EventSourceRing.EventSourceObject.StopSynthetic` | src/platform/windows/explorer/explorer_glue_event_source.cpp:340-348 | and for the synthetic stop |
| `EventSourceExact.OpensExactly` | src/platform/windows/explorer/explorer_glue_event_source.cpp:81-117 | a new source runs exactly with complete bindings of two windows |
| `EventSourceExact.CallbackExactly` | src/platform/windows/explorer/explorer_glue_event_source.cpp:380-486 | which callbacks get a sequence, are queued and are announced, and what poisons the source |
| `EventSourceExact.RefusedCallbackCounts` | src/platform/windows/explorer/explorer_glue_event_source.cpp:387-414 | under which heading every other callback is counted |
| `EventSourceExact.DeliveredExactly` | src/platform/windows/explorer/explorer_glue_event_source.cpp:544-626 | a receipt is delivered exactly when it is of a bound window itself, through a hook of its kind and process, with the identity still right; which counter or poison otherwise |
| `EventSourceExact.DrainBeginsExactly` | src/platform/windows/explorer/explorer_glue_event_source.cpp:523-541 | when a drain begins, and what a refused one does |
| `EventSourceExact.StopsExactly` | src/platform/windows/explorer/explorer_glue_event_source.cpp:309-348 | the flags and the poison after each kind of stop |
| `EventSourceExact.StoppedForever` | src/platform/windows/explorer/explorer_glue_event_source.cpp:380-402 | a stopped source never takes another receipt |
| `EventSourceExact.HealthyDeliversAll` | src/platform/windows/explorer/explorer_glue_event_source.cpp:380-631 | in every run without poison each sequence given out has been delivered, in order and without a gap, or still waits |
| `ObserverQueue.NothingLost` | src/platform/windows/windows_observer.cpp:540-575 | with any interleaved producers every pushed receipt is emitted, in hand or queued exactly once and in push order, and the drop counters count exactly the refused ones |
| `ObserverQueue.NoLostWakeup` | src/platform/windows/windows_observer.cpp:560-575 | in every run, while no post has failed since the flag was last cleared, a nonempty queue with an idle drainer has a message outstanding or a producer between push and post |
| `ObserverQueue.DrainRestoresWakeup` | src/platform/windows/windows_observer.cpp:1246-1263 | whatever posts failed before, from the clearing of the flag by a drain on the same holds while posts succeed |
| `ObserverQueue.DrainEmptiesQueue` | src/platform/windows/windows_observer.cpp:1246-1263 | a drain ends only when everything pushed so far has been emitted |
| `ObserverQueue.FailedPostStrandsReceipt` | src/platform/windows/windows_observer.cpp:562-575 | one failed post leaves a receipt with nobody coming for it |
| `ObserverQueue.NextProducerPosts` | src/platform/windows/windows_observer.cpp:560-575 | once everyone rests without a message, the next receipt of any producer is posted for, whatever failed before |
| `ObserverQueue.RefusedExactly` | src/platform/windows/windows_observer.cpp:540-549 | a receipt is refused exactly when 4096 are waiting |
| `ObserverQueue.FailedPostsCounted` | src/platform/windows/windows_observer.cpp:562-575 | in every run each failed post is reported, waits to be, or is about to be counted, and none twice |
| `CompanionLedger.TokenLedger.IssueToken` | src/platform/windows/companion/companion_session.cpp:589-633 | status, token and new maps for every registration, keeping the maps consistent |
| `CompanionLedger.TokenLedger.RetireToken` | src/platform/windows/companion/companion_session.cpp:635-644 | removes an active identifier from both maps and keeps its highest generation |
| `CompanionLedger.TokenLedger.RetireEverything` | src/platform/windows/companion/companion_session.cpp:646-650 | nothing active, session over |
| `CompanionLedger.TokenLedger.ResolveToken` | src/platform/windows/companion/companion_session.cpp:660-672 | the entry of a current token of this session and controller, or none |
| `CompanionLedger.TokenLedger.ValidateBatch` | src/platform/windows/companion/companion_session.cpp:699-718 | empty, duplicate, unknown or valid, exactly |
| `CompanionLedger.RunKeepsOk` | src/platform/windows/companion/companion_session.cpp:589-650 | over every sequence of operations the active and native-key maps stay mutual inverses |
| `CompanionLedger.RetiredForever` | src/platform/windows/companion/companion_session.cpp:589-672 | an issued token that stopped resolving never resolves again |
| `CompanionLedger.TokensDistinct` | src/platform/windows/companion/companion_session.cpp:589-633 | no token is issued twice |
| `CompanionLedger.IssuedResolves` | src/platform/windows/companion/companion_session.cpp:589-672 | a fresh token resolves to its registration |
| `CompanionLedger.BatchNamesDistinctWindows` | src/platform/windows/companion/companion_session.cpp:699-718 | a valid batch names pairwise different native windows |
| `CompanionLedger.RetireOnlyOne` | src/platform/windows/companion/companion_session.cpp:635-644 | retiring a window takes its tokens and leaves every other token as it was |
| `CompanionLedger.ResolvesUntilRetired` | src/platform/windows/companion/companion_session.cpp:589-672 | over any operations a token keeps resolving to the same entry until its window, or everything, is retired, and not afterwards |
| `CompanionLedger.OnlyIssuedResolve` | src/platform/windows/companion/companion_session.cpp:589-672 | nothing resolves that was not issued |
| `CompanionLedger.IssueStatusExactly` | src/platform/windows/companion/companion_session.cpp:589-633 | after any operations, the status of a registration by what was issued and what still resolves |
| `CompanionLedger.MarkerReadsBack` | src/platform/windows/companion/companion_protocol.h:60-69 | the mark is nonzero up to the largest generation that can be shifted, and both parts are read back |
| `CompanionLedger.MarkerDetermines` | src/platform/windows/companion/companion_protocol.h:60-69 | a nonzero mark determines window and generation |
| `CompanionHandshake.LogicalBitIsShift` | src/platform/windows/companion/companion_protocol.h:53-56 | a window's bit is a one shifted by its identifier less one |
| `CompanionHandshake.CheckFacts` | src/platform/windows/companion/companion_session.cpp:1277-1331 | accepts exactly the handshakes that register A to D once each with consistent facts and different windows |
| `CompanionHandshake.WellFormedExactly` | src/platform/windows/companion/companion_session.cpp:1277-1331 | a handshake is well formed exactly when it has four sound facts of different windows and native windows |
| `CompanionHandshake.AcceptHandshake` | src/platform/windows/companion/companion_session.cpp:1268-1395 | accepted exactly when well formed and every window passes; then the ledger holds exactly these registrations, otherwise none |
| `CompanionHandshake.AcceptedResolves` | src/platform/windows/companion/companion_session.cpp:1268-1395 | after an accepted handshake exactly the announced windows resolve, each to what was announced |
| `CompanionHandshake.TargetHandshakeWellFormed` | src/app/companion_target_main.cpp:738-757 | the target's own handshake is well formed exactly when it has a thread and four different windows |
| `CompanionOptions.ParseUnsignedDecimal` | src/app/companion_target_main.cpp:72-92 | accepts exactly the nonempty digit strings that fit in 64 bits, with their value |
| `CompanionOptions.LaunchRoundTrip` | src/platform/windows/companion/companion_session.cpp:1508-1519 | every number the launcher writes is read back |
| `CompanionFrames.HeaderRoundTrip` | src/platform/windows/companion/companion_protocol.h:118-126 | a header survives its forty little-endian bytes |
| `CompanionFrames.HeaderLayout` | src/platform/windows/companion/companion_protocol.h:118-126 | the place of every field, low byte first, and that any forty bytes are rebuilt |
| `CompanionFrames.ParseExactly` | src/app/companion_target_main.cpp:271-286 | when bytes give a frame, are refused for their size, or are too few |
| `CompanionFrames.StreamRoundTrip` | src/app/companion_target_main.cpp:227-286 | reading a concatenation of frames gives these frames and a clean end |
| `CompanionFrames.CutStreamGivesWholeFrames` | src/app/companion_target_main.cpp:271-286 | a stream cut anywhere gives the frames before the cut and never another one |
| `CompanionFrames.ReadExact` | src/app/companion_target_main.cpp:178-201 | with chunks of any size, exactly the requested bytes, or the end of a shorter stream |
| `CompanionFrames.WriteExact` | src/app/companion_target_main.cpp:203-225 | all bytes, or on failure a prefix of them, with a broken pipe told apart from other failures |
| `CompanionFrames.WriteFrame` | src/app/companion_target_main.cpp:227-249 | appends one frame, and nothing of a payload that is too large |
| `CompanionFrames.ReadFrame` | src/app/companion_target_main.cpp:271-286 | takes exactly the first frame of the stream, or reports its end or its refusal |
| `CompanionFrames.EchoFrames` | src/app/companion_target_main.cpp:178-286 | frames written through a reliable pipe are read back, however the bytes are chunked |
| `CompanionProtocol.DBitNamesD` | src/app/companion_target_main.cpp:784-795 | the only bit a test step may select is the bit of window D |
| `CompanionProtocol.SelectionIsTargetCheck` | src/platform/windows/companion/companion_session.cpp:726-737 | the controller's check is the target's check together with naming only requested windows |
| `CompanionProtocol.RunCommandLoop` | src/app/companion_target_main.cpp:797-984 | exit code, windows and responses of the loop for every input, as the iteration of one turn |
| `CompanionLoop.SoundHeaderAnswered` | src/app/companion_target_main.cpp:808-967 | what each command but a query is answered, when its payload fits and when not, and the windows after it |
| `CompanionLoop.QueryAnswered` | src/app/companion_target_main.cpp:808-967 | the same for a query, with the evidence recorded |
| `CompanionLoop.UnsoundHeaderAnswered` | src/app/companion_target_main.cpp:808-838 | any other header is fatal |
| `CompanionLoop.ShutdownEndsLoop` | src/app/companion_target_main.cpp:797-984 | a shutdown whose answer is written ends the loop with zero and nothing after it is answered |
| `CompanionLoop.CodesExactly` | src/app/companion_target_main.cpp:797-984 | exactly when the loop returns zero, 20, 21 and 22, told by the frames |
| `CompanionLoop.ResponsesInOrder` | src/app/companion_target_main.cpp:797-984 | the responses are those to the first frames, in order |
| `CompanionProtocol.CompanionSession.BeginExchange` | src/platform/windows/companion/companion_session.cpp:865-907 | identifier, refusal, write and failure of the first half of an exchange |
| `CompanionProtocol.CompanionSession.Start` | src/platform/windows/companion/companion_session.cpp:1681-1790 | the beginning of each kind of call, with its own checks |
| `CompanionProtocol.CompanionSession.StartDestroy` | src/platform/windows/companion/companion_session.cpp:1700-1736 | a destroy call resolves its token first and reports how that failed |
| `CompanionProtocol.CompanionSession.StartShutdown` | src/platform/windows/companion/companion_session.cpp:1781-1847 | a process that has exited counts as shut down; otherwise the process is given up unless its response is awaited |
| `CompanionProtocol.CompanionSession.ResolveToken` | src/platform/windows/companion/companion_session.cpp:1016-1124 | the checks before a token is used in their order, the failure of each, and what it retires |
| `CompanionProtocol.CompanionSession.CheckResponse` | src/platform/windows/companion/companion_session.cpp:982-1004 | accepts exactly the responses that answer the pending request |
| `CompanionProtocol.CompanionSession.Receive` | src/platform/windows/companion/companion_session.cpp:909-963 | status and new state for every outcome of the read |
| `CompanionCalls.TokenUsedExactly` | src/platform/windows/companion/companion_session.cpp:1016-1124 | what the use of a token answers, and which tokens still resolve after it |
| `CompanionCalls.CallBeginsExactly` | src/platform/windows/companion/companion_session.cpp:804-907 | exactly which calls are sent, how each other call ends, and which of them use up an identifier |
| `CompanionCalls.RequestCarriesCall` | src/platform/windows/companion/companion_session.cpp:804-834 | the header and payload of each request |
| `CompanionCalls.TakenExactly` | src/platform/windows/companion/companion_session.cpp:966-1004 | for any peer, a response is taken exactly when it replies to the pending request and comes from the launched process |
| `CompanionCalls.TakenLeavesTokens` | src/platform/windows/companion/companion_session.cpp:948-963 | the status of a taken response, and that only a reported destruction or the end takes tokens away |
| `CompanionCalls.UntakenEnds` | src/platform/windows/companion/companion_session.cpp:909-947 | how a read without a response ends the session |
| `CompanionPayloads.PayloadRoundTrip` | src/platform/windows/companion/companion_protocol.h:146-167 | step, destroy and result payloads survive their little-endian bytes |
| `CompanionPayloads.SetStepLayout` | src/platform/windows/companion/companion_protocol.h:146-167 | where the fields of a step lie, a negative offset in two's complement |
| `CompanionPayloads.DestroyLayout` | src/platform/windows/companion/companion_protocol.h:146-167 | where those of a destroy request are read |
| `CompanionPayloads.ResultLayout` | src/platform/windows/companion/companion_protocol.h:146-167 | where those of a result are read |
| `CompanionPayloads.SizesDecode` | src/platform/windows/companion/companion_protocol.h:146-167 | which payload each size decodes to |
| `CompanionPayloads.MessagesSurvive` | src/app/companion_target_main.cpp:227-286 | messages written to a pipe as frames are read back as the same messages, and the stream ends cleanly |
| `CompanionPayloads.RequestsAreFramed` | src/platform/windows/companion/companion_session.cpp:865-907 | every request of the controller is such a message |
| `CompanionPayloads.AnswersAreFramed` | src/app/companion_target_main.cpp:797-984 | and so is every result of the target |
| `CompanionRuns.ReachableInv` | src/platform/windows/companion/companion_session.cpp:804-964 | controller, pipes and target stay in step over every interleaving |
| `CompanionRuns.AcceptedAnswersItsRequest` | src/platform/windows/companion/companion_session.cpp:948-963 | accepted exchanges are the first the target answered, in order, each the answer to its own request; an idle live session has empty pipes |
| `CompanionRuns.TargetNeverRefuses` | src/app/companion_target_main.cpp:808-846 | the target never sees an old identifier, a bad header or an invalid step or window |
| `CompanionRuns.ResponsesNeverMismatch` | src/platform/windows/companion/companion_session.cpp:982-1004 | a response of this target is always accepted |
| `CompanionRuns.CompletedStepIsApplied` | src/app/companion_target_main.cpp:541-556 | a completed step is the one the target's windows carry |
| `CompanionRuns.TargetExitsExactly` | src/app/companion_target_main.cpp:942-967 | in every run the target exits with zero exactly after a written shutdown answer, and with 22 after a failed write |
| `CompanionRuns.AnsweredShutdownStopped` | src/platform/windows/companion/companion_session.cpp:1781-1847 | a shutdown that the controller sees answered has ended the target's loop |
| `CompanionRuns.UndisturbedCallSucceeds` | src/platform/windows/companion/companion_session.cpp:804-964 | from every reachable live session an undisturbed call is answered, succeeds and has its effect |
| `CompanionRuns.OnlyAcceptedResponsesKeepLife` | src/platform/windows/companion/companion_session.cpp:909-963 | for any peer, a read leaves the session live exactly when it is an accepted response and no shutdown |
| `CompanionRuns.FailedWriteKills` | src/platform/windows/companion/companion_session.cpp:890-907 | a failed write ends the session |
| `CompanionRuns.DeadRefusesEverything` | src/platform/windows/companion/companion_session.cpp:878-889 | on a dead session every call fails without writing and no token resolves |
| `CompanionRuns.FailureIsFinal` | src/platform/windows/companion/companion_session.cpp:818-834 | after a timeout, failed read or exit nothing later succeeds, is accepted or resolves |
| `CompanionLayout.DesiredTwoByTwo` | src/app/companion_harness_main.cpp:301-355 | arranges exactly when the requirements hold, as a centred two-by-two grid; no sum overflows |
| `CompanionLayout.ArrangesWheneverPossible` | src/app/companion_harness_main.cpp:301-337 | the requirements hold exactly for windows alike for which the work area has any place |
| `CompanionLayout.ArrangementIsCentred` | src/app/companion_harness_main.cpp:322-355 | sizes and places of the four windows, with the spare room divided evenly |
| `CompanionLayout.GridGraph` | src/app/companion_harness_main.cpp:279-289 | the grid's zero-tolerance graph has exactly the relations AB, AC, BD and CD, with gap zero and full overlap |
| `CompanionLayout.BuildGraph` | src/app/companion_harness_main.cpp:279-289 | builds the graph of the four named windows with zero tolerance |
| `CompanionLayout.ArrangedGraph` | src/app/companion_harness_main.cpp:279-355 | the graph of the arranged windows is the grid's |
| `CompanionLayout.GridIsOneComponent` | src/core/topology/window_adjacency.h:210-254 | from every window the component is A to D |
| `CompanionLayout.GridStaysInside` | src/app/companion_harness_main.cpp:322-337 | every window of the arrangement stays in the work area under every move up to 120 by 60 |
| `GlueProfiler.ExplorerGlueProfiler.BeginSpan` | src/platform/windows/explorer/explorer_glue_profile.h:125-132 | new span, stack and flags for every stage and reading |
| `GlueProfiler.ExplorerGlueProfiler.EndSpanAt` | src/platform/windows/explorer/explorer_glue_profile.h:133-146 | closes the innermost span or marks the recording invalid |
| `GlueProfiler.ExplorerGlueProfiler.EndSpan` | src/platform/windows/explorer/explorer_glue_profile.h:147 | reads the clock and closes |
| `GlueProfiler.ExplorerGlueProfiler.IsValid` | src/platform/windows/explorer/explorer_glue_profile.h:193 | no failure and nothing open |
| `GlueProfiler.OperationExactly` | src/platform/windows/explorer/explorer_glue_profile.h:115-147 | exactly which operations keep a recording valid, and what each then records |
| `GlueProfiler.ValidExactly` | src/platform/windows/explorer/explorer_glue_profile.h:115-147 | a recording is valid exactly when its limit is usable, every operation keeps to the rules and every span is closed |
| `GlueProfiler.ValidRunIsForest` | src/platform/windows/explorer/explorer_glue_profile.h:115-147 | a valid recording is a forest, nested where one span encloses another and disjoint otherwise, exactly when every opening and closing came in time |
| `GlueProfiler.FreshReadingsGiveForest` | src/platform/windows/explorer/explorer_glue_profile.h:115-147 | closing with fresh readings, at the last point, or at an older one that nothing has outlived, always gives a forest |
| `GlueProfiler.ChildrenFitTheirParent` | src/platform/windows/explorer/explorer_glue_profile.h:115-147 | in a valid recording that came in time the children of a span never take longer together than the span |
| `GlueProfiler.EndingInThePast` | src/platform/windows/explorer/explorer_glue_profile.h:133-139 | closing at a point read before the child ended can give a valid recording that is not nested |
| `GlueActivation.ExplorerGlueActivationController.Evaluate` | src/platform/windows/explorer/explorer_glue_activation.h:78-135 | verdict, record and flags for every start |
| `GlueActivation.ExplorerGlueActivationController.StampLastDecisionComplete` | src/platform/windows/explorer/explorer_glue_activation.h:139-148 | stamps the last record or poisons |
| `GlueActivation.ExplorerGlueActivationController.MatchesActivation` | src/platform/windows/explorer/explorer_glue_activation.h:153-157 | active, and this generation and pair |
| `GlueActivation.ActivatesExactly` | src/platform/windows/explorer/explorer_glue_activation.h:99-125 | a start activates exactly when it qualifies, none was judged before, nothing is poisoned and a record is free |
| `GlueActivation.VerdictExactly` | src/platform/windows/explorer/explorer_glue_activation.h:78-135 | a start is judged by the first condition it fails, and exactly what each verdict does to the latch |
| `GlueActivation.StampExactly` | src/platform/windows/explorer/explorer_glue_activation.h:139-148 | when a stamp is taken, and what it changes |
| `GlueActivation.ActivatesAtMostOnce` | src/platform/windows/explorer/explorer_glue_activation.h:78-135 | no run returns two activations |
| `GlueActivation.NeverActiveAgain` | src/platform/windows/explorer/explorer_glue_activation.h:136-161 | a session that was active and no longer is stays inactive |
| `GlueActivation.FinishEnds` | src/platform/windows/explorer/explorer_glue_activation.h:161 | finishing deactivates, and an evaluated session is never active again after it |
| `GlueActivation.MatchNamesTheActivation` | src/platform/windows/explorer/explorer_glue_activation.h:153-157 | a matching generation names the one activating record, with only wrong windows around it |

## Left out

- Win32, COM, DWM and hook calls, process launch and security queries: their answers are parameters or steps of the environment.
- Installing hooks and starting the live event source, and the profiler records it writes: they decide nothing the model proves.
- The observer is a transition system of atomic steps, not an object, because the point is the interleaving of threads; memory order weaker than the interleaving is not modelled.
- Memory exhaustion, including the observer's fallback for a failed push.
- GlueProfiler.ExplorerGlueProfiler.EndSpanAt: does not model the receipt arrival counters of the present quantum, because they are sums that only quantum records carry on and that decide nothing about spans, stack or flags.
- Quantum and notification records of the profiler: they share only the clock and the failure flags with the spans, and appear as such.
- Evidence records keep only their identity fields; sequence, drop counts and geometry are not modelled.
- Payload bytes of evidence records: an evidence payload is what its exact size decodes to.
- Diagnostics, status texts, JSON output, console prompts and the run functions of the harnesses.
- Sessions other than the one modelled appear only through the request counter they share.
- The wait for the process and its termination during a shutdown: how it ends is a parameter.
- The message pump of a quantum: a bounded loop around native effects.
- Moving companion windows, snapshots of live windows and session wiring of Explorer glue: their bodies are native calls or not part of the core.
- Sorting by the standard library is an insertion sort: identifiers are distinct whenever the result is used, so the arrangement is the same.
- Aliasing of two coordinators or two sessions: each object owns its state.
