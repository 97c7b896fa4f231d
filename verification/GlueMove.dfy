/** The glue-move coordinator as a state machine on values: its state, the inputs
    it accepts, and the reply to each of them. */
module GlueMove {
  import opened Wrappers
  import opened Geometry
  import opened Translation
  import opened WindowAdjacency
  import opened AdjacencyGraph
  import opened Connectivity
  import opened TranslationSession

  datatype State = Idle | Armed | Active | Completing | Completed | Aborted

  datatype Role = Leader | Follower | Unrelated

  datatype EventKind = MoveResizeStarted | GeometryChanged | MoveResizeEnded

  datatype Receipt = Receipt(session: UInt64, sequence: UInt64, role: Role, kind: EventKind, visibleRect: Option<Rect>)

  datatype Command =
    Command(session: UInt64, operation: UInt64, sourceSequence: UInt64, follower: WindowId, target: Rect)

  datatype OperationOutcome = Exact | NativeApplyFailed | PostVerificationFailed | TargetInvalidated

  datatype OperationResult = OperationResult(session: UInt64, operation: UInt64, follower: WindowId,
                                             outcome: OperationOutcome, actual: Option<Rect>)

  datatype FinalSnapshot = FinalSnapshot(session: UInt64, leader: Rect, follower: Rect)

  datatype AbortReason =
    | IllegalTransition | InvalidTopology | InvalidEvent
    | SessionGenerationMismatch | EventSequenceNotMonotonic | OperationGenerationMismatch | GenerationExhausted
    | ResizeOrMixed | LeaderDidNotTranslate | PendingLedgerOverflow
    | EventQueueOverflow | EventSourceFailure | TimedOut | OperationResultMissing
    | NativeApplyFailed | PostVerificationFailed | TargetInvalidated
    | UnexpectedFollowerLifecycle | UnexpectedFollowerGeometry | AmbiguousFollowerFeedback
    | FinalLeaderMismatch | FinalFollowerMismatch

  datatype Decision =
    | Armed | Activated | FollowerMoveRequested(command: Command) | LeaderNoOp
    | OperationRecorded | FeedbackObservedPendingResult | FeedbackAcknowledged | DuplicateFeedbackSuppressed
    | UnrelatedEventIgnored | TerminalInputIgnored | Completing | Completed | Aborted(reason: AbortReason)

  datatype Stats = Stats(
    leaderStarts: nat, leaderLocations: nat, leaderEnds: nat,
    operations: nat, noOps: nat,
    feedback: nat, suppressed: nat, duplicates: nat, missing: nat, reconciled: nat,
    unexpected: nat, unrelated: nat, maxPendingDepth: nat)

  const NO_STATS := Stats(0, 0, 0, 0, 0, 0, 0, 0, 0, 0, 0, 0, 0)

  // A command whose exact result or whose feedback is still outstanding.
  datatype PendingOperation = PendingOperation(operation: UInt64, sourceSequence: UInt64, expected: Rect,
                                               exactRecorded: bool, feedbackObserved: bool)

  datatype Core = Core(
    maxPending: nat,
    state: State,
    sessionGeneration: UInt64,
    operationGeneration: UInt64,
    lastSequence: UInt64,
    abortReason: Option<AbortReason>,
    stats: Stats,
    session: Option<Session>,
    follower: Option<WindowId>,
    initialLeader: Rect,
    currentFollower: Rect,
    finalLeader: Option<Rect>,
    lastAcknowledged: Option<Rect>,
    pending: seq<PendingOperation>)

  // The state after a call, and what the call returned or threw. An exception
  // leaves behind whatever was updated before it.
  datatype Reply = Reply(core: Core, outcome: Outcome<Decision>)

  function Initial(maxPending: nat): Core {
    Core(maxPending, State.Idle, 0, 0, 0, None, NO_STATS, None, None, ZERO_RECT, ZERO_RECT, None, None, [])
  }

  function Decide(c: Core, decision: Decision): Reply {
    Reply(c, Returned(decision))
  }

  function AbortWith(c: Core, reason: AbortReason): Reply {
    Reply(c.(state := State.Aborted, abortReason := Some(reason), pending := []), Returned(Decision.Aborted(reason)))
  }

  predicate Terminal(state: State) {
    state.Completed? || state.Aborted?
  }

  // --- Arming ---

  function Reset(c: Core): Core {
    Core(c.maxPending, State.Idle, c.sessionGeneration, c.operationGeneration, 0, None, NO_STATS, None, None,
         ZERO_RECT, ZERO_RECT, None, None, [])
  }

  ghost function Arm(c: Core, g: Graph, leader: WindowId, follower: WindowId): Reply {
    if c.state.Armed? || c.state.Active? || c.state.Completing? then AbortWith(c, IllegalTransition)
    else if c.sessionGeneration == UINT64_MAX then AbortWith(c, GenerationExhausted)
    else ArmBegun(Reset(c).(sessionGeneration := c.sessionGeneration + 1), g, leader, follower)
  }

  ghost function ArmBegun(begun: Core, g: Graph, leader: WindowId, follower: WindowId): Reply {
    if leader == follower then AbortWith(begun, InvalidTopology)
    else if |g.windows| != 2 || |g.relations| != 1 then AbortWith(begun, InvalidTopology)
    else if !Knows(g.windows, leader) || !Knows(g.windows, follower) then AbortWith(begun, InvalidTopology)
    else
      var component := Ids(Component(g, leader));
      if |component| != 2 || follower !in component then AbortWith(begun, InvalidTopology)
      else ArmPair(begun, g, leader, follower)
  }

  ghost function ArmPair(begun: Core, g: Graph, leader: WindowId, follower: WindowId): Reply {
    var leaderRect, followerRect := RectOf(g.windows, leader), RectOf(g.windows, follower);
    var session := Created(g, leader);
    if session.Threw? then Reply(begun, Threw(session.error))
    else
      var plan := Planned(session.value, leaderRect);
      if plan.Threw? then Reply(begun.(session := Some(session.value)), Threw(plan.error))
      else if plan.value != Some([PlannedTranslation(follower, followerRect)]) then AbortWith(begun, InvalidTopology)
      else
        Decide(begun.(session := Some(session.value), follower := Some(follower), initialLeader := leaderRect,
                      currentFollower := followerRect, state := State.Armed),
               Decision.Armed)
  }

  // --- Where the follower belongs ---

  function FollowerTarget(c: Core, leaderRect: Rect): Outcome<Option<Rect>> {
    if c.session.None? || c.follower.None? then Returned(None)
    else
      var plan :- Planned(c.session.value, leaderRect);
      if plan.None? || |plan.value| != 1 || plan.value[0].id != c.follower.value then Returned(None)
      else Returned(Some(plan.value[0].targetVisibleRect))
  }

  // --- The pending ledger ---

  // The first entry from `from` on that expects the rectangle.
  function FindExpecting(pending: seq<PendingOperation>, rect: Rect, from: nat): (r: Option<nat>)
    ensures r.Some? ==> from <= r.value < |pending| && pending[r.value].expected == rect &&
                        forall k | from <= k < r.value :: pending[k].expected != rect
    ensures r.None? ==> forall k | from <= k < |pending| :: pending[k].expected != rect
    decreases |pending| - from
  {
    if from >= |pending| then None
    else if pending[from].expected == rect then Some(from)
    else FindExpecting(pending, rect, from + 1)
  }

  // The first entry from `from` on with the operation generation.
  function FindOperation(pending: seq<PendingOperation>, operation: UInt64, from: nat): (r: Option<nat>)
    ensures r.Some? ==> from <= r.value < |pending| && pending[r.value].operation == operation &&
                        forall k | from <= k < r.value :: pending[k].operation != operation
    ensures r.None? ==> forall k | from <= k < |pending| :: pending[k].operation != operation
    decreases |pending| - from
  {
    if from >= |pending| then None
    else if pending[from].operation == operation then Some(from)
    else FindOperation(pending, operation, from + 1)
  }

  function RemoveAt<T>(s: seq<T>, k: nat): (r: seq<T>)
    requires k < |s|
    ensures |r| == |s| - 1
    ensures forall i | 0 <= i < |r| :: r[i] == if i < k then s[i] else s[i + 1]
  {
    s[..k] + s[k + 1..]
  }

  predicate AllExact(pending: seq<PendingOperation>) {
    forall k | 0 <= k < |pending| :: pending[k].exactRecorded
  }

  // --- Events ---

  function OnEvent(c: Core, receipt: Receipt): Reply {
    if Terminal(c.state) then Decide(c, TerminalInputIgnored)
    else if c.state.Idle? then AbortWith(c, IllegalTransition)
    else if receipt.session != c.sessionGeneration then AbortWith(c, SessionGenerationMismatch)
    else if receipt.sequence == 0 || receipt.sequence <= c.lastSequence then AbortWith(c, EventSequenceNotMonotonic)
    else
      var seen := c.(lastSequence := receipt.sequence);
      match receipt.role
      case Unrelated => Decide(seen.(stats := seen.stats.(unrelated := seen.stats.unrelated + 1)), UnrelatedEventIgnored)
      case Leader => OnLeaderEvent(seen, receipt)
      case Follower => OnFollowerEvent(seen, receipt)
  }

  function OnLeaderEvent(c: Core, receipt: Receipt): Reply {
    match receipt.kind
    case MoveResizeStarted =>
      var counted := c.(stats := c.stats.(leaderStarts := c.stats.leaderStarts + 1));
      if !c.state.Armed? then AbortWith(counted, IllegalTransition)
      else Decide(counted.(state := State.Active), Activated)
    case GeometryChanged =>
      var counted := c.(stats := c.stats.(leaderLocations := c.stats.leaderLocations + 1));
      if !c.state.Active? then AbortWith(counted, IllegalTransition)
      else if receipt.visibleRect.None? then AbortWith(counted, InvalidEvent)
      else PlanFollower(counted, receipt.sequence, receipt.visibleRect.value)
    case MoveResizeEnded =>
      var counted := c.(stats := c.stats.(leaderEnds := c.stats.leaderEnds + 1));
      if !c.state.Active? then AbortWith(counted, IllegalTransition)
      else if receipt.visibleRect.None? then AbortWith(counted, InvalidEvent)
      else
        var change := ClassifyGeometryChange(c.initialLeader, receipt.visibleRect.value);
        if change.Threw? then Reply(counted, Threw(change.error))
        else if change.value.ResizeOrMixed? then AbortWith(counted, AbortReason.ResizeOrMixed)
        else if !change.value.Translated? then AbortWith(counted, LeaderDidNotTranslate)
        else Decide(counted.(finalLeader := receipt.visibleRect, state := State.Completing), Decision.Completing)
  }

  function PlanFollower(c: Core, sequence: UInt64, leaderRect: Rect): Reply {
    if !AllExact(c.pending) then AbortWith(c, OperationResultMissing)
    else
      var target := FollowerTarget(c, leaderRect);
      if target.Threw? then Reply(c, Threw(target.error))
      else if target.value.None? then AbortWith(c, AbortReason.ResizeOrMixed)
      else MoveFollower(c, sequence, target.value.value)
  }

  function MoveFollower(c: Core, sequence: UInt64, target: Rect): Reply
    requires c.follower.Some?
  {
    if target == c.currentFollower then
      Decide(c.(stats := c.stats.(noOps := c.stats.noOps + 1)), LeaderNoOp)
    else if FindExpecting(c.pending, target, 0).Some? then
      AbortWith(c.(stats := c.stats.(unexpected := c.stats.unexpected + 1)), AmbiguousFollowerFeedback)
    else if |c.pending| >= c.maxPending then AbortWith(c, PendingLedgerOverflow)
    else if c.operationGeneration == UINT64_MAX then AbortWith(c, GenerationExhausted)
    else
      var operation := c.operationGeneration + 1;
      var pending := c.pending + [PendingOperation(operation, sequence, target, false, false)];
      Decide(c.(operationGeneration := operation, pending := pending,
                stats := c.stats.(operations := c.stats.operations + 1,
                                  maxPendingDepth := Max(c.stats.maxPendingDepth, |pending|))),
             FollowerMoveRequested(Command(c.sessionGeneration, operation, sequence, c.follower.value, target)))
  }

  function OnFollowerEvent(c: Core, receipt: Receipt): Reply {
    if !receipt.kind.GeometryChanged? then AbortWith(c, UnexpectedFollowerLifecycle)
    else if !c.state.Active? && !c.state.Completing? then AbortWith(c, UnexpectedFollowerGeometry)
    else if receipt.visibleRect.None? then AbortWith(c, InvalidEvent)
    else OnFeedback(c.(stats := c.stats.(feedback := c.stats.feedback + 1)), receipt.visibleRect.value)
  }

  function OnFeedback(c: Core, rect: Rect): Reply {
    var found := FindExpecting(c.pending, rect, 0);
    var unexpected := c.(stats := c.stats.(unexpected := c.stats.unexpected + 1));
    if found.None? then
      if c.lastAcknowledged == Some(rect) then
        Decide(c.(stats := c.stats.(suppressed := c.stats.suppressed + 1, duplicates := c.stats.duplicates + 1)),
               DuplicateFeedbackSuppressed)
      else AbortWith(unexpected, UnexpectedFollowerGeometry)
    else if FindExpecting(c.pending, rect, found.value + 1).Some? then AbortWith(unexpected, AmbiguousFollowerFeedback)
    else OnExpected(c, found.value)
  }

  // Feedback for the one pending operation that expects it.
  function OnExpected(c: Core, k: nat): Reply
    requires k < |c.pending|
  {
    var entry := c.pending[k];
    var suppressed := c.stats.(suppressed := c.stats.suppressed + 1);
    if entry.feedbackObserved then
      Decide(c.(stats := suppressed.(duplicates := c.stats.duplicates + 1)), DuplicateFeedbackSuppressed)
    else if !entry.exactRecorded then
      Decide(c.(stats := suppressed, pending := c.pending[k := entry.(feedbackObserved := true)]),
             FeedbackObservedPendingResult)
    else
      Decide(c.(stats := suppressed, lastAcknowledged := Some(entry.expected), pending := RemoveAt(c.pending, k)),
             FeedbackAcknowledged)
  }

  // --- Results of follower operations ---

  function OnOperationResult(c: Core, result: OperationResult): Reply {
    if Terminal(c.state) then Decide(c, TerminalInputIgnored)
    else if !c.state.Active? && !c.state.Completing? then AbortWith(c, IllegalTransition)
    else if result.session != c.sessionGeneration then AbortWith(c, SessionGenerationMismatch)
    else
      var found := FindOperation(c.pending, result.operation, 0);
      if found.None? || c.follower != Some(result.follower) then AbortWith(c, OperationGenerationMismatch)
      else OnMatchedResult(c, found.value, result.outcome, result.actual)
  }

  function OnMatchedResult(c: Core, k: nat, outcome: OperationOutcome, actual: Option<Rect>): Reply
    requires k < |c.pending|
  {
    match outcome
    case NativeApplyFailed => AbortWith(c, AbortReason.NativeApplyFailed)
    case PostVerificationFailed => AbortWith(c, AbortReason.PostVerificationFailed)
    case TargetInvalidated => AbortWith(c, AbortReason.TargetInvalidated)
    case Exact => OnExactResult(c, k, actual)
  }

  function OnExactResult(c: Core, k: nat, actual: Option<Rect>): Reply
    requires k < |c.pending|
  {
    var entry := c.pending[k];
    if actual != Some(entry.expected) then AbortWith(c, AbortReason.PostVerificationFailed)
    else if entry.exactRecorded then AbortWith(c, OperationGenerationMismatch)
    else if !entry.feedbackObserved then
      Decide(c.(currentFollower := entry.expected, pending := c.pending[k := entry.(exactRecorded := true)]),
             OperationRecorded)
    else
      Decide(c.(currentFollower := entry.expected, lastAcknowledged := Some(entry.expected),
                pending := RemoveAt(c.pending, k)),
             FeedbackAcknowledged)
  }

  // --- Completion ---

  function Complete(c: Core, snapshot: FinalSnapshot): Reply {
    if Terminal(c.state) then Decide(c, TerminalInputIgnored)
    else if !c.state.Completing? then AbortWith(c, IllegalTransition)
    else if snapshot.session != c.sessionGeneration then AbortWith(c, SessionGenerationMismatch)
    else if c.finalLeader != Some(snapshot.leader) then AbortWith(c, FinalLeaderMismatch)
    else if !AllExact(c.pending) then AbortWith(c, OperationResultMissing)
    else
      var change := ClassifyGeometryChange(c.initialLeader, snapshot.leader);
      if change.Threw? then Reply(c, Threw(change.error))
      else if change.value.ResizeOrMixed? then AbortWith(c, AbortReason.ResizeOrMixed)
      else if !change.value.Translated? then AbortWith(c, LeaderDidNotTranslate)
      else
        var target := FollowerTarget(c, snapshot.leader);
        if target.Threw? then Reply(c, Threw(target.error))
        else if target.value != Some(snapshot.follower) || c.currentFollower != snapshot.follower then
          AbortWith(c, FinalFollowerMismatch)
        else
          Decide(c.(stats := c.stats.(missing := c.stats.missing + |c.pending|,
                                      reconciled := c.stats.reconciled + |c.pending|),
                    pending := [], state := State.Completed),
                 Decision.Completed)
  }

  // --- Reports from outside ---

  datatype Report = QueueOverflow | TargetInvalid | SourceFailure | Timeout | LeaderResized | UnexpectedFeedback

  function ReasonOf(report: Report): AbortReason {
    match report
    case QueueOverflow => EventQueueOverflow
    case TargetInvalid => AbortReason.TargetInvalidated
    case SourceFailure => EventSourceFailure
    case Timeout => TimedOut
    case LeaderResized => AbortReason.ResizeOrMixed
    case UnexpectedFeedback => UnexpectedFollowerGeometry
  }

  function AbortExternal(c: Core, generation: UInt64, reason: AbortReason): Reply {
    if Terminal(c.state) then Decide(c, TerminalInputIgnored)
    else if c.state.Idle? then AbortWith(c, IllegalTransition)
    else if generation != c.sessionGeneration then AbortWith(c, SessionGenerationMismatch)
    else AbortWith(c, reason)
  }

  // Unexpected feedback is counted even when the session is already over.
  function OnReport(c: Core, report: Report, generation: UInt64): Reply {
    var counted := if report.UnexpectedFeedback?
                   then c.(stats := c.stats.(unexpected := c.stats.unexpected + 1)) else c;
    AbortExternal(counted, generation, ReasonOf(report))
  }

  // --- One input ---

  datatype Input =
    | ArmInput(graph: Graph, leader: WindowId, followerId: WindowId)
    | EventInput(receipt: Receipt)
    | ResultInput(result: OperationResult)
    | CompleteInput(snapshot: FinalSnapshot)
    | ReportInput(report: Report, generation: UInt64)

  ghost function Step(c: Core, input: Input): Reply {
    match input
    case ArmInput(g, leader, follower) => Arm(c, g, leader, follower)
    case EventInput(receipt) => OnEvent(c, receipt)
    case ResultInput(result) => OnOperationResult(c, result)
    case CompleteInput(snapshot) => Complete(c, snapshot)
    case ReportInput(report, generation) => OnReport(c, report, generation)
  }
}
