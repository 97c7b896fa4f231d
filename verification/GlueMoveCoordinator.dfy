/** The coordinator object: every entry point updates its fields in place, and
    leaves exactly the state and the reply of the state machine in GlueMove. */
module GlueMoveCoordinator {
  import opened Wrappers
  import opened Geometry
  import opened Translation
  import opened WindowAdjacency
  import opened AdjacencyGraph
  import opened Connectivity
  import opened TranslationSession
  import opened GlueMove

  class Coordinator {
    const maxPending: nat
    var state: State
    var sessionGeneration: UInt64
    var operationGeneration: UInt64
    var lastSequence: UInt64
    var abortReason: Option<AbortReason>
    var stats: Stats
    var session: Option<Session>
    var follower: Option<WindowId>
    var initialLeader: Rect
    var currentFollower: Rect
    var finalLeader: Option<Rect>
    var lastAcknowledged: Option<Rect>
    var pending: seq<PendingOperation>

    ghost function Value(): Core
      reads this
    {
      Core(maxPending, state, sessionGeneration, operationGeneration, lastSequence, abortReason, stats, session,
           follower, initialLeader, currentFollower, finalLeader, lastAcknowledged, pending)
    }

    constructor (maxPending: nat)
      requires maxPending > 0
      ensures Value() == Initial(maxPending)
    {
      this.maxPending := maxPending;
      state := State.Idle;
      sessionGeneration, operationGeneration, lastSequence := 0, 0, 0;
      abortReason := None;
      stats := NO_STATS;
      session, follower := None, None;
      initialLeader, currentFollower := ZERO_RECT, ZERO_RECT;
      finalLeader, lastAcknowledged := None, None;
      pending := [];
    }

    // Making a coordinator: without room for one pending operation it is refused.
    static method Make(maxPending: nat) returns (r: Outcome<Coordinator>)
      ensures if maxPending == 0 then r == Threw(InvalidArgument)
              else r.Returned? && fresh(r.value) && r.value.Value() == Initial(maxPending)
    {
      if maxPending == 0 {
        return Threw(InvalidArgument);
      }
      var coordinator := new Coordinator(maxPending);
      return Returned(coordinator);
    }

    method Abort(reason: AbortReason) returns (outcome: Outcome<Decision>)
      modifies this
      ensures Reply(Value(), outcome) == AbortWith(old(Value()), reason)
    {
      state := State.Aborted;
      abortReason := Some(reason);
      pending := [];
      return Returned(Decision.Aborted(reason));
    }

    method ResetSession()
      modifies this
      ensures Value() == Reset(old(Value()))
    {
      state := State.Idle;
      abortReason := None;
      stats := NO_STATS;
      lastSequence := 0;
      ForgetPair();
    }

    method ForgetPair()
      modifies this`session, this`follower, this`initialLeader, this`currentFollower, this`finalLeader,
               this`lastAcknowledged, this`pending
      ensures session.None? && follower.None? && initialLeader == currentFollower == ZERO_RECT
      ensures finalLeader.None? && lastAcknowledged.None? && pending == []
    {
      session, follower := None, None;
      initialLeader, currentFollower := ZERO_RECT, ZERO_RECT;
      finalLeader, lastAcknowledged := None, None;
      pending := [];
    }

    method Arm(g: Graph, leader: WindowId, followerId: WindowId) returns (outcome: Outcome<Decision>)
      requires Valid(g)
      modifies this
      ensures Reply(Value(), outcome) == GlueMove.Arm(old(Value()), g, leader, followerId)
    {
      if state.Armed? || state.Active? || state.Completing? {
        outcome := Abort(IllegalTransition);
        return;
      }
      if sessionGeneration == UINT64_MAX {
        outcome := Abort(GenerationExhausted);
        return;
      }
      ResetSession();
      sessionGeneration := sessionGeneration + 1;
      outcome := ArmBegun(g, leader, followerId);
    }

    // Arming in a session that has just begun.
    method ArmBegun(g: Graph, leader: WindowId, followerId: WindowId) returns (outcome: Outcome<Decision>)
      requires Valid(g) && session.None?
      modifies this
      ensures Reply(Value(), outcome) == GlueMove.ArmBegun(old(Value()), g, leader, followerId)
    {
      if leader == followerId {
        outcome := Abort(InvalidTopology);
        return;
      }
      if |g.windows| != 2 || |g.relations| != 1 {
        outcome := Abort(InvalidTopology);
        return;
      }
      var leaderWindow, followerWindow := FindPair(g.windows, leader, followerId);
      if leaderWindow.None? || followerWindow.None? {
        outcome := Abort(InvalidTopology);
        return;
      }
      var component := ConnectedComponent(g, leader);
      // The source would abort on an unknown start; a window that was found is known.
      if component.Threw? {
        assert false;
      }
      if |component.value| != 2 || followerId !in component.value {
        outcome := Abort(InvalidTopology);
        return;
      }
      outcome := ArmPair(g, leader, followerId, leaderWindow.value.visibleRect, followerWindow.value.visibleRect);
    }

    // The second half of arming: freeze the session and check its plan for an unmoved leader.
    method ArmPair(g: Graph, leader: WindowId, followerId: WindowId, leaderRect: Rect, followerRect: Rect)
      returns (outcome: Outcome<Decision>)
      requires Valid(g) && session.None?
      requires leaderRect == RectOf(g.windows, leader) && followerRect == RectOf(g.windows, followerId)
      modifies this
      ensures Reply(Value(), outcome) == GlueMove.ArmPair(old(Value()), g, leader, followerId)
    {
      var created := Create(g, leader);
      if created.Threw? {
        return Threw(created.error);
      }
      session := Some(created.value);
      var plan := Plan(created.value, leaderRect);
      if plan.Threw? {
        return Threw(plan.error);
      }
      if plan.value.None? || |plan.value.value| != 1 || plan.value.value[0].id != followerId ||
         plan.value.value[0].targetVisibleRect != followerRect {
        session := None;
        outcome := Abort(InvalidTopology);
        return;
      }
      assert plan.value.value == [PlannedTranslation(followerId, followerRect)];
      outcome := BecomeArmed(followerId, leaderRect, followerRect);
    }

    method BecomeArmed(followerId: WindowId, leaderRect: Rect, followerRect: Rect) returns (outcome: Outcome<Decision>)
      modifies this`follower, this`initialLeader, this`currentFollower, this`state
      ensures Reply(Value(), outcome) ==
              Decide(old(Value()).(follower := Some(followerId), initialLeader := leaderRect,
                                   currentFollower := followerRect, state := State.Armed),
                     Decision.Armed)
    {
      follower := Some(followerId);
      initialLeader := leaderRect;
      currentFollower := followerRect;
      state := State.Armed;
      return Returned(Decision.Armed);
    }

    method OnEvent(receipt: Receipt) returns (outcome: Outcome<Decision>)
      modifies this
      ensures Reply(Value(), outcome) == GlueMove.OnEvent(old(Value()), receipt)
    {
      if Terminal(state) {
        return Returned(TerminalInputIgnored);
      }
      if state.Idle? {
        outcome := Abort(IllegalTransition);
        return;
      }
      if receipt.session != sessionGeneration {
        outcome := Abort(SessionGenerationMismatch);
        return;
      }
      if receipt.sequence == 0 || receipt.sequence <= lastSequence {
        outcome := Abort(EventSequenceNotMonotonic);
        return;
      }
      lastSequence := receipt.sequence;
      match receipt.role
      case Unrelated =>
        stats := stats.(unrelated := stats.unrelated + 1);
        return Returned(UnrelatedEventIgnored);
      case Leader =>
        outcome := OnLeaderEvent(receipt);
      case Follower =>
        outcome := OnFollowerEvent(receipt);
    }

    method OnLeaderEvent(receipt: Receipt) returns (outcome: Outcome<Decision>)
      modifies this
      ensures Reply(Value(), outcome) == GlueMove.OnLeaderEvent(old(Value()), receipt)
    {
      match receipt.kind
      case MoveResizeStarted =>
        stats := stats.(leaderStarts := stats.leaderStarts + 1);
        if !state.Armed? {
          outcome := Abort(IllegalTransition);
          return;
        }
        state := State.Active;
        return Returned(Activated);
      case GeometryChanged =>
        stats := stats.(leaderLocations := stats.leaderLocations + 1);
        if !state.Active? {
          outcome := Abort(IllegalTransition);
          return;
        }
        if receipt.visibleRect.None? {
          outcome := Abort(InvalidEvent);
          return;
        }
        outcome := PlanFollower(receipt.sequence, receipt.visibleRect.value);
      case MoveResizeEnded =>
        stats := stats.(leaderEnds := stats.leaderEnds + 1);
        if !state.Active? {
          outcome := Abort(IllegalTransition);
          return;
        }
        if receipt.visibleRect.None? {
          outcome := Abort(InvalidEvent);
          return;
        }
        var change := ClassifyGeometryChange(initialLeader, receipt.visibleRect.value);
        if change.Threw? {
          return Threw(change.error);
        }
        if change.value.ResizeOrMixed? {
          outcome := Abort(AbortReason.ResizeOrMixed);
          return;
        }
        if !change.value.Translated? {
          outcome := Abort(LeaderDidNotTranslate);
          return;
        }
        finalLeader := receipt.visibleRect;
        state := State.Completing;
        return Returned(Decision.Completing);
    }

    method PlanFollower(sequence: UInt64, leaderRect: Rect) returns (outcome: Outcome<Decision>)
      modifies this
      ensures Reply(Value(), outcome) == GlueMove.PlanFollower(old(Value()), sequence, leaderRect)
    {
      var answered := EveryResultRecorded(pending);
      if !answered {
        outcome := Abort(OperationResultMissing);
        return;
      }
      var target := FollowerTarget(leaderRect);
      if target.Threw? {
        return Threw(target.error);
      }
      if target.value.None? {
        outcome := Abort(AbortReason.ResizeOrMixed);
        return;
      }
      if target.value.value == currentFollower {
        stats := stats.(noOps := stats.noOps + 1);
        return Returned(LeaderNoOp);
      }
      var expecting := FirstExpecting(pending, target.value.value, 0);
      if expecting.Some? {
        stats := stats.(unexpected := stats.unexpected + 1);
        outcome := Abort(AmbiguousFollowerFeedback);
        return;
      }
      if |pending| >= maxPending {
        outcome := Abort(PendingLedgerOverflow);
        return;
      }
      if operationGeneration == UINT64_MAX {
        outcome := Abort(GenerationExhausted);
        return;
      }
      operationGeneration := operationGeneration + 1;
      pending := pending + [PendingOperation(operationGeneration, sequence, target.value.value, false, false)];
      stats := stats.(operations := stats.operations + 1, maxPendingDepth := Max(stats.maxPendingDepth, |pending|));
      return Returned(FollowerMoveRequested(
        Command(sessionGeneration, operationGeneration, sequence, follower.value, target.value.value)));
    }

    method FollowerTarget(leaderRect: Rect) returns (r: Outcome<Option<Rect>>)
      ensures r == GlueMove.FollowerTarget(Value(), leaderRect)
    {
      if session.None? || follower.None? {
        return Returned(None);
      }
      var plan := Plan(session.value, leaderRect);
      if plan.Threw? {
        return Threw(plan.error);
      }
      if plan.value.None? || |plan.value.value| != 1 || plan.value.value[0].id != follower.value {
        return Returned(None);
      }
      return Returned(Some(plan.value.value[0].targetVisibleRect));
    }

    method OnFollowerEvent(receipt: Receipt) returns (outcome: Outcome<Decision>)
      modifies this
      ensures Reply(Value(), outcome) == GlueMove.OnFollowerEvent(old(Value()), receipt)
    {
      if !receipt.kind.GeometryChanged? {
        outcome := Abort(UnexpectedFollowerLifecycle);
        return;
      }
      if !state.Active? && !state.Completing? {
        outcome := Abort(UnexpectedFollowerGeometry);
        return;
      }
      if receipt.visibleRect.None? {
        outcome := Abort(InvalidEvent);
        return;
      }
      stats := stats.(feedback := stats.feedback + 1);
      outcome := OnFeedback(receipt.visibleRect.value);
    }

    method OnFeedback(rect: Rect) returns (outcome: Outcome<Decision>)
      modifies this
      ensures Reply(Value(), outcome) == GlueMove.OnFeedback(old(Value()), rect)
    {
      var found := FirstExpecting(pending, rect, 0);
      if found.None? {
        if lastAcknowledged == Some(rect) {
          stats := stats.(suppressed := stats.suppressed + 1, duplicates := stats.duplicates + 1);
          return Returned(DuplicateFeedbackSuppressed);
        }
        outcome := AbortUnexpected(UnexpectedFollowerGeometry);
        return;
      }
      var second := FirstExpecting(pending, rect, found.value + 1);
      if second.Some? {
        outcome := AbortUnexpected(AmbiguousFollowerFeedback);
        return;
      }
      outcome := AcceptFeedback(found.value);
    }

    method AbortUnexpected(reason: AbortReason) returns (outcome: Outcome<Decision>)
      modifies this
      ensures Reply(Value(), outcome) ==
              AbortWith(old(Value()).(stats := old(stats).(unexpected := old(stats).unexpected + 1)), reason)
    {
      stats := stats.(unexpected := stats.unexpected + 1);
      outcome := Abort(reason);
    }

    // The one pending operation that expects the rectangle has been found.
    method AcceptFeedback(k: nat) returns (outcome: Outcome<Decision>)
      requires k < |pending|
      modifies this`stats, this`pending, this`lastAcknowledged
      ensures Reply(Value(), outcome) == GlueMove.OnExpected(old(Value()), k)
    {
      stats := stats.(suppressed := stats.suppressed + 1);
      if pending[k].feedbackObserved {
        stats := stats.(duplicates := stats.duplicates + 1);
        return Returned(DuplicateFeedbackSuppressed);
      }
      if !pending[k].exactRecorded {
        pending := pending[k := pending[k].(feedbackObserved := true)];
        return Returned(FeedbackObservedPendingResult);
      }
      lastAcknowledged := Some(pending[k].expected);
      pending := RemoveAt(pending, k);
      return Returned(FeedbackAcknowledged);
    }

    method OnOperationResult(result: OperationResult) returns (outcome: Outcome<Decision>)
      modifies this
      ensures Reply(Value(), outcome) == GlueMove.OnOperationResult(old(Value()), result)
    {
      if Terminal(state) {
        return Returned(TerminalInputIgnored);
      }
      if !state.Active? && !state.Completing? {
        outcome := Abort(IllegalTransition);
        return;
      }
      if result.session != sessionGeneration {
        outcome := Abort(SessionGenerationMismatch);
        return;
      }
      var found := FirstOperation(pending, result.operation);
      if found.None? || follower != Some(result.follower) {
        outcome := Abort(OperationGenerationMismatch);
        return;
      }
      match result.outcome
      case NativeApplyFailed => outcome := Abort(AbortReason.NativeApplyFailed);
      case PostVerificationFailed => outcome := Abort(AbortReason.PostVerificationFailed);
      case TargetInvalidated => outcome := Abort(AbortReason.TargetInvalidated);
      case Exact => outcome := OnExactResult(found.value, result.actual);
    }

    method OnExactResult(k: nat, actual: Option<Rect>) returns (outcome: Outcome<Decision>)
      requires k < |pending|
      modifies this
      ensures Reply(Value(), outcome) == GlueMove.OnExactResult(old(Value()), k, actual)
    {
      var entry := pending[k];
      if actual != Some(entry.expected) {
        outcome := Abort(AbortReason.PostVerificationFailed);
        return;
      }
      if entry.exactRecorded {
        outcome := Abort(OperationGenerationMismatch);
        return;
      }
      pending := pending[k := entry.(exactRecorded := true)];
      currentFollower := actual.value;
      if !entry.feedbackObserved {
        return Returned(OperationRecorded);
      }
      lastAcknowledged := Some(entry.expected);
      pending := RemoveAt(pending, k);
      assert pending == RemoveAt(old(pending), k);
      return Returned(FeedbackAcknowledged);
    }

    method Complete(snapshot: FinalSnapshot) returns (outcome: Outcome<Decision>)
      modifies this
      ensures Reply(Value(), outcome) == GlueMove.Complete(old(Value()), snapshot)
    {
      if Terminal(state) {
        return Returned(TerminalInputIgnored);
      }
      if !state.Completing? {
        outcome := Abort(IllegalTransition);
        return;
      }
      if snapshot.session != sessionGeneration {
        outcome := Abort(SessionGenerationMismatch);
        return;
      }
      if finalLeader != Some(snapshot.leader) {
        outcome := Abort(FinalLeaderMismatch);
        return;
      }
      var answered := EveryResultRecorded(pending);
      if !answered {
        outcome := Abort(OperationResultMissing);
        return;
      }
      var change := ClassifyGeometryChange(initialLeader, snapshot.leader);
      if change.Threw? {
        return Threw(change.error);
      }
      if change.value.ResizeOrMixed? {
        outcome := Abort(AbortReason.ResizeOrMixed);
        return;
      }
      if !change.value.Translated? {
        outcome := Abort(LeaderDidNotTranslate);
        return;
      }
      var target := FollowerTarget(snapshot.leader);
      if target.Threw? {
        return Threw(target.error);
      }
      if target.value != Some(snapshot.follower) || currentFollower != snapshot.follower {
        outcome := Abort(FinalFollowerMismatch);
        return;
      }
      stats := stats.(missing := stats.missing + |pending|, reconciled := stats.reconciled + |pending|);
      pending := [];
      state := State.Completed;
      return Returned(Decision.Completed);
    }

    method AbortFromOutside(generation: UInt64, reason: AbortReason) returns (outcome: Outcome<Decision>)
      modifies this
      ensures Reply(Value(), outcome) == GlueMove.AbortExternal(old(Value()), generation, reason)
    {
      if Terminal(state) {
        return Returned(TerminalInputIgnored);
      }
      if state.Idle? {
        outcome := Abort(IllegalTransition);
        return;
      }
      if generation != sessionGeneration {
        outcome := Abort(SessionGenerationMismatch);
        return;
      }
      outcome := Abort(reason);
    }

    // The six report functions of the source.
    method OnReport(report: Report, generation: UInt64) returns (outcome: Outcome<Decision>)
      modifies this
      ensures Reply(Value(), outcome) == GlueMove.OnReport(old(Value()), report, generation)
    {
      if report.UnexpectedFeedback? {
        stats := stats.(unexpected := stats.unexpected + 1);
      }
      outcome := AbortFromOutside(generation, ReasonOf(report));
    }
  }

  // --- The scans over windows and pending operations ---

  method FindPair(windows: seq<WindowGeometry>, leader: WindowId, follower: WindowId)
    returns (leaderWindow: Option<WindowGeometry>, followerWindow: Option<WindowGeometry>)
    requires StrictlySorted(windows)
    ensures leaderWindow.Some? <==> Knows(windows, leader)
    ensures followerWindow.Some? <==> Knows(windows, follower)
    ensures leaderWindow.Some? ==> leaderWindow.value.visibleRect == RectOf(windows, leader)
    ensures followerWindow.Some? ==> followerWindow.value.visibleRect == RectOf(windows, follower)
  {
    leaderWindow, followerWindow := None, None;
    for k := 0 to |windows|
      invariant leaderWindow.Some? <==> exists j | 0 <= j < k :: windows[j].id == leader
      invariant followerWindow.Some? <==> exists j | 0 <= j < k :: windows[j].id == follower
      invariant leaderWindow.Some? ==> leaderWindow.value.visibleRect == RectOf(windows, leader)
      invariant followerWindow.Some? ==> followerWindow.value.visibleRect == RectOf(windows, follower)
    {
      RectOfAt(windows, k);
      if windows[k].id == leader {
        leaderWindow := Some(windows[k]);
      }
      if windows[k].id == follower {
        followerWindow := Some(windows[k]);
      }
    }
  }

  method EveryResultRecorded(pending: seq<PendingOperation>) returns (all: bool)
    ensures all <==> AllExact(pending)
  {
    for k := 0 to |pending|
      invariant forall j | 0 <= j < k :: pending[j].exactRecorded
    {
      if !pending[k].exactRecorded {
        return false;
      }
    }
    return true;
  }

  method FirstExpecting(pending: seq<PendingOperation>, rect: Rect, from: nat) returns (found: Option<nat>)
    ensures found == FindExpecting(pending, rect, from)
  {
    var k := from;
    while k < |pending|
      invariant FindExpecting(pending, rect, k) == FindExpecting(pending, rect, from)
    {
      if pending[k].expected == rect {
        return Some(k);
      }
      k := k + 1;
    }
    return None;
  }

  method FirstOperation(pending: seq<PendingOperation>, operation: UInt64) returns (found: Option<nat>)
    ensures found == FindOperation(pending, operation, 0)
  {
    var k := 0;
    while k < |pending|
      invariant FindOperation(pending, operation, k) == FindOperation(pending, operation, 0)
    {
      if pending[k].operation == operation {
        return Some(k);
      }
      k := k + 1;
    }
    return None;
  }
}
