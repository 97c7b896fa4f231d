/** Exactly what each entry point of the coordinator answers in a state that keeps its
    invariant, told by the armed pair, the ledger and the arguments of the call. */
module GlueExact {
  import opened Wrappers
  import opened Geometry
  import opened Translation
  import opened WindowAdjacency
  import opened AdjacencyGraph
  import opened TranslationSession
  import opened GlueMove
  import opened GlueInvariants
  import opened GlueTheorems

  predicate InProgress(c: Core) {
    c.state.Armed? || c.state.Active? || c.state.Completing?
  }

  // The session is over for this reason; counts and geometry stay as they are in `c`.
  predicate AbortedFrom(c: Core, reply: Reply, reason: AbortReason) {
    && reply.outcome == Returned(Decision.Aborted(reason))
    && reply.core == c.(state := State.Aborted, abortReason := Some(reason), pending := [])
  }

  predicate Decided(reply: Reply, decision: Decision) {
    reply.outcome == Returned(decision)
  }

  // --- Where the follower belongs, as arithmetic ---

  // The pair's target is the follower shifted as the leader was, whenever the leader kept
  // its size and the extents and coordinates fit.
  lemma PairTargetExactly(leader: Rect, follower: Rect, leaderNow: Rect, target: Rect)
    ensures PairTarget(leader, follower, leaderNow) == Returned(Some(target)) <==>
            (leaderNow == leader && target == follower) ||
            (leaderNow != leader && ExtentsFit(leader) && exists delta: TranslationDelta ::
               Shifted(leader, leaderNow, delta.dx, delta.dy) && Shifted(follower, target, delta.dx, delta.dy))
    ensures PairTarget(leader, follower, leaderNow) == Returned(None) <==>
            ExtentsFit(leader) && ExtentsFit(leaderNow) && !SameSize(leader, leaderNow)
  {
    var change := ClassifyGeometryChange(leader, leaderNow);
    if change.Returned? && change.value.Translated? {
      var delta := change.value.delta;
      ClassifyInvertsTranslate(leader, leaderNow, delta);
      ClassifyInvertsTranslate(follower, target, delta);
    }
    if leaderNow != leader && ExtentsFit(leader) {
      if delta: TranslationDelta :| Shifted(leader, leaderNow, delta.dx, delta.dy) &&
                                    Shifted(follower, target, delta.dx, delta.dy) {
        ClassifyInvertsTranslate(leader, leaderNow, delta);
        ClassifyInvertsTranslate(follower, target, delta);
      }
    }
  }

  // --- Which receipts are heard ---

  // A session in progress hears exactly the receipts of its own generation that are newer
  // than the last one; others end it. Over or idle coordinators hear none.
  lemma HeardExactly(c: Core, receipt: Receipt)
    ensures var reply := OnEvent(c, receipt);
            && (Terminal(c.state) ==> reply == Reply(c, Returned(TerminalInputIgnored)))
            && (c.state.Idle? ==> AbortedFrom(c, reply, IllegalTransition))
            && (InProgress(c) && receipt.session != c.sessionGeneration ==>
                  AbortedFrom(c, reply, SessionGenerationMismatch))
            && (InProgress(c) && receipt.session == c.sessionGeneration && receipt.sequence <= c.lastSequence ==>
                  AbortedFrom(c, reply, EventSequenceNotMonotonic))
            && (Hears(c, receipt) && receipt.role.Unrelated? ==>
                  reply == Reply(c.(lastSequence := receipt.sequence,
                                    stats := c.stats.(unrelated := c.stats.unrelated + 1)),
                                 Returned(UnrelatedEventIgnored)))
  {
  }

  predicate Hears(c: Core, receipt: Receipt) {
    InProgress(c) && receipt.session == c.sessionGeneration && receipt.sequence > c.lastSequence
  }

  // --- The leader's receipts ---

  lemma StartExactly(c: Core, receipt: Receipt)
    requires Hears(c, receipt) && receipt.role.Leader? && receipt.kind.MoveResizeStarted?
    ensures var reply := OnEvent(c, receipt);
            var counted := c.(lastSequence := receipt.sequence,
                              stats := c.stats.(leaderStarts := c.stats.leaderStarts + 1));
            if c.state.Armed? then reply == Reply(counted.(state := State.Active), Returned(Activated))
            else AbortedFrom(counted, reply, IllegalTransition)
  {
  }

  // The leader has moved by a displacement that is not zero.
  ghost predicate MovedBy(c: Core, rect: Rect) {
    && ExtentsFit(c.initialLeader)
    && exists delta: TranslationDelta :: delta != NO_MOVE && Shifted(c.initialLeader, rect, delta.dx, delta.dy)
  }

  lemma MovedIsTranslated(c: Core, rect: Rect)
    ensures var change := ClassifyGeometryChange(c.initialLeader, rect);
            MovedBy(c, rect) <==> change.Returned? && change.value.Translated?
  {
    var change := ClassifyGeometryChange(c.initialLeader, rect);
    if change.Returned? && change.value.Translated? {
      ClassifyInvertsTranslate(c.initialLeader, rect, change.value.delta);
    }
    if MovedBy(c, rect) {
      var delta :| delta != NO_MOVE && Shifted(c.initialLeader, rect, delta.dx, delta.dy);
      ClassifyInvertsTranslate(c.initialLeader, rect, delta);
    }
  }

  // The leader's end completes the move exactly when the leader has moved by a displacement
  // that is not zero; a resize or no move at all ends the session, and only coordinates
  // too far apart throw.
  lemma EndExactly(c: Core, receipt: Receipt)
    requires Hears(c, receipt) && receipt.role.Leader? && receipt.kind.MoveResizeEnded?
    ensures var reply := OnEvent(c, receipt);
            var counted := c.(lastSequence := receipt.sequence,
                              stats := c.stats.(leaderEnds := c.stats.leaderEnds + 1));
            if !c.state.Active? then AbortedFrom(counted, reply, IllegalTransition)
            else if receipt.visibleRect.None? then AbortedFrom(counted, reply, InvalidEvent)
            else
              var rect := receipt.visibleRect.value;
              if MovedBy(c, rect) then
                reply == Reply(counted.(finalLeader := Some(rect), state := State.Completing),
                               Returned(Decision.Completing))
              else if rect == c.initialLeader then AbortedFrom(counted, reply, LeaderDidNotTranslate)
              else if ExtentsFit(c.initialLeader) && ExtentsFit(rect) && !SameSize(c.initialLeader, rect) then
                AbortedFrom(counted, reply, AbortReason.ResizeOrMixed)
              else reply == Reply(counted, Threw(Overflow))
  {
    if receipt.visibleRect.Some? {
      MovedIsTranslated(c, receipt.visibleRect.value);
    }
  }

  // A command's target is awaited already.
  ghost predicate Awaited(c: Core, target: Rect) {
    exists k | 0 <= k < |c.pending| :: c.pending[k].expected == target
  }

  // What a leader location leads to once its target is known.
  ghost predicate MovesTo(c: Core, reply: Reply, sequence: UInt64, target: Rect)
    requires c.follower.Some?
  {
    if target == c.currentFollower then
      reply == Reply(c.(stats := c.stats.(noOps := c.stats.noOps + 1)), Returned(LeaderNoOp))
    else if Awaited(c, target) then
      AbortedFrom(c.(stats := c.stats.(unexpected := c.stats.unexpected + 1)), reply, AmbiguousFollowerFeedback)
    else if |c.pending| == c.maxPending then AbortedFrom(c, reply, PendingLedgerOverflow)
    else if c.operationGeneration == UINT64_MAX then AbortedFrom(c, reply, GenerationExhausted)
    else
      var next := c.operationGeneration + 1;
      && Decided(reply, FollowerMoveRequested(Command(c.sessionGeneration, next, sequence, c.follower.value, target)))
      && reply.core.pending == c.pending + [PendingOperation(next, sequence, target, false, false)]
      && reply.core == c.(operationGeneration := next, pending := reply.core.pending, stats := reply.core.stats)
      && reply.core.stats.operations == c.stats.operations + 1
      && reply.core.stats.maxPendingDepth == Max(c.stats.maxPendingDepth, |reply.core.pending|)
  }

  lemma MoveExactly(c: Core, sequence: UInt64, target: Rect)
    requires LedgerOk(c) && c.follower.Some?
    ensures MovesTo(c, MoveFollower(c, sequence, target), sequence, target)
  {
  }

  // What a leader location leads to in an active session; it has been counted in `c`.
  ghost predicate Plans(c: Core, reply: Reply, sequence: UInt64, leaderNow: Rect)
    requires Paired(c.session, c.follower, c.initialLeader)
  {
    if exists k | 0 <= k < |c.pending| :: !c.pending[k].exactRecorded then AbortedFrom(c, reply, OperationResultMissing)
    else match PairTarget(c.initialLeader, ArmedFollower(c), leaderNow)
      case Threw(error) => reply == Reply(c, Threw(error))
      case Returned(None) => AbortedFrom(c, reply, AbortReason.ResizeOrMixed)
      case Returned(Some(target)) => MovesTo(c, reply, sequence, target)
  }

  lemma PlanExactly(c: Core, sequence: UInt64, leaderNow: Rect)
    requires LedgerOk(c) && Paired(c.session, c.follower, c.initialLeader)
    ensures Plans(c, PlanFollower(c, sequence, leaderNow), sequence, leaderNow)
  {
    FollowerTargetIsPairTarget(c, leaderNow);
    var target := FollowerTarget(c, leaderNow);
    if target.Returned? && target.value.Some? {
      MoveExactly(c, sequence, target.value.value);
    }
  }

  // A leader location moves the follower, or leaves it, according to the target of the
  // armed pair; it ends the session while a result is missing or the leader is resized.
  lemma LocationExactly(c: Core, receipt: Receipt)
    requires Inv(c) && Hears(c, receipt) && receipt.role.Leader? && receipt.kind.GeometryChanged?
    ensures var reply := OnEvent(c, receipt);
            var counted := c.(lastSequence := receipt.sequence,
                              stats := c.stats.(leaderLocations := c.stats.leaderLocations + 1));
            if !c.state.Active? then AbortedFrom(counted, reply, IllegalTransition)
            else if receipt.visibleRect.None? then AbortedFrom(counted, reply, InvalidEvent)
            else
              && Paired(counted.session, counted.follower, counted.initialLeader)
              && Plans(counted, reply, receipt.sequence, receipt.visibleRect.value)
  {
    var counted := c.(lastSequence := receipt.sequence,
                      stats := c.stats.(leaderLocations := c.stats.leaderLocations + 1));
    if c.state.Active? && receipt.visibleRect.Some? {
      PlanExactly(counted, receipt.sequence, receipt.visibleRect.value);
    }
  }

  // --- The follower's receipts ---

  // Feedback that the pending operation at `k` expects: it ends the wait, or precedes the
  // result, or repeats itself.
  predicate Answers(c: Core, reply: Reply, k: nat)
    requires k < |c.pending|
  {
    var entry := c.pending[k];
    var taken := c.stats.(suppressed := c.stats.suppressed + 1);
    if entry.feedbackObserved then
      reply == Reply(c.(stats := taken.(duplicates := c.stats.duplicates + 1)), Returned(DuplicateFeedbackSuppressed))
    else if entry.exactRecorded then
      && Decided(reply, FeedbackAcknowledged)
      && reply.core == c.(stats := taken, lastAcknowledged := Some(entry.expected),
                          pending := c.pending[..k] + c.pending[k + 1..])
    else
      && Decided(reply, FeedbackObservedPendingResult)
      && reply.core == c.(stats := taken, pending := c.pending[k := entry.(feedbackObserved := true)])
  }

  // What feedback leads to; it has been counted in `c`.
  ghost predicate Echoes(c: Core, reply: Reply, rect: Rect) {
    && (forall k | 0 <= k < |c.pending| && c.pending[k].expected == rect :: Answers(c, reply, k))
    && (!Awaited(c, rect) ==>
          if c.lastAcknowledged == Some(rect) then
            && Decided(reply, DuplicateFeedbackSuppressed)
            && reply.core == c.(stats := c.stats.(suppressed := c.stats.suppressed + 1,
                                                  duplicates := c.stats.duplicates + 1))
          else AbortedFrom(c.(stats := c.stats.(unexpected := c.stats.unexpected + 1)), reply, UnexpectedFollowerGeometry))
  }

  lemma ExpectedExactly(c: Core, k: nat)
    requires LedgerOk(c) && k < |c.pending|
    ensures Answers(c, OnExpected(c, k), k)
  {
  }

  lemma FeedbackExactly(c: Core, rect: Rect)
    requires LedgerOk(c)
    ensures Echoes(c, OnFeedback(c, rect), rect)
  {
    var found := FindExpecting(c.pending, rect, 0);
    if found.Some? {
      FeedbackMatchesOnce(c, rect);
      ExpectedExactly(c, found.value);
      assert forall k | 0 <= k < |c.pending| && c.pending[k].expected == rect :: k == found.value;
    }
  }

  // The follower's own location is taken as the echo of a command, and whatever else
  // the follower does ends the session.
  lemma FollowerExactly(c: Core, receipt: Receipt)
    requires Inv(c) && Hears(c, receipt) && receipt.role.Follower?
    ensures var reply := OnEvent(c, receipt);
            var seen := c.(lastSequence := receipt.sequence);
            if !receipt.kind.GeometryChanged? then AbortedFrom(seen, reply, UnexpectedFollowerLifecycle)
            else if c.state.Armed? then AbortedFrom(seen, reply, UnexpectedFollowerGeometry)
            else if receipt.visibleRect.None? then AbortedFrom(seen, reply, InvalidEvent)
            else Echoes(seen.(stats := c.stats.(feedback := c.stats.feedback + 1)), reply, receipt.visibleRect.value)
  {
    var seen := c.(lastSequence := receipt.sequence, stats := c.stats.(feedback := c.stats.feedback + 1));
    if receipt.visibleRect.Some? {
      FeedbackExactly(seen, receipt.visibleRect.value);
    }
  }

  // --- Results ---

  // What the result of the pending operation at `k` leads to.
  predicate Records(c: Core, reply: Reply, k: nat, result: OperationResult)
    requires k < |c.pending|
  {
    var entry := c.pending[k];
    match result.outcome
    case NativeApplyFailed => AbortedFrom(c, reply, AbortReason.NativeApplyFailed)
    case PostVerificationFailed => AbortedFrom(c, reply, AbortReason.PostVerificationFailed)
    case TargetInvalidated => AbortedFrom(c, reply, AbortReason.TargetInvalidated)
    case Exact =>
      if result.actual != Some(entry.expected) then AbortedFrom(c, reply, AbortReason.PostVerificationFailed)
      else if entry.exactRecorded then AbortedFrom(c, reply, OperationGenerationMismatch)
      else if entry.feedbackObserved then
        && Decided(reply, FeedbackAcknowledged)
        && reply.core == c.(currentFollower := entry.expected, lastAcknowledged := Some(entry.expected),
                            pending := c.pending[..k] + c.pending[k + 1..])
      else
        && Decided(reply, OperationRecorded)
        && reply.core == c.(currentFollower := entry.expected, pending := c.pending[k := entry.(exactRecorded := true)])
  }

  ghost predicate Issued(c: Core, result: OperationResult) {
    c.follower == Some(result.follower) && exists k | 0 <= k < |c.pending| :: c.pending[k].operation == result.operation
  }

  // A result counts for the pending operation of its generation; one that names no
  // pending operation, another follower or another session ends the session.
  lemma ResultExactly(c: Core, result: OperationResult)
    requires Inv(c)
    ensures var reply := OnOperationResult(c, result);
            if Terminal(c.state) then reply == Reply(c, Returned(TerminalInputIgnored))
            else if c.state.Idle? || c.state.Armed? then AbortedFrom(c, reply, IllegalTransition)
            else if result.session != c.sessionGeneration then AbortedFrom(c, reply, SessionGenerationMismatch)
            else if !Issued(c, result) then AbortedFrom(c, reply, OperationGenerationMismatch)
            else forall k | 0 <= k < |c.pending| && c.pending[k].operation == result.operation ::
                   Records(c, reply, k, result)
  {
    var found := FindOperation(c.pending, result.operation, 0);
    if found.Some? {
      assert forall k | 0 <= k < |c.pending| && c.pending[k].operation == result.operation :: k == found.value;
    }
  }

  // --- Completion ---

  ghost predicate CompletionDue(c: Core, snapshot: FinalSnapshot) {
    && Paired(c.session, c.follower, c.initialLeader)
    && c.finalLeader == Some(snapshot.leader)
    && (forall k | 0 <= k < |c.pending| :: c.pending[k].exactRecorded)
    && c.currentFollower == snapshot.follower
    && PairTarget(c.initialLeader, ArmedFollower(c), snapshot.leader) == Returned(Some(snapshot.follower))
  }

  // A completing session is completed exactly when the leader stands where its end said,
  // every command has its exact result, and the follower stands where the armed pair puts
  // it. Feedback still outstanding is reconciled, not waited for.
  lemma CompletesExactly(c: Core, snapshot: FinalSnapshot)
    requires Inv(c) && c.state.Completing? && snapshot.session == c.sessionGeneration
    ensures var reply := Complete(c, snapshot);
            && (Decided(reply, Decision.Completed) <==> CompletionDue(c, snapshot))
            && (CompletionDue(c, snapshot) ==>
                  reply.core == c.(state := State.Completed, pending := [],
                                   stats := c.stats.(missing := c.stats.missing + |c.pending|,
                                                     reconciled := c.stats.reconciled + |c.pending|)))
  {
    FollowerTargetIsPairTarget(c, snapshot.leader);
    if c.finalLeader == Some(snapshot.leader) {
      ClassifiedOnce(c, snapshot.leader);
    }
  }

  lemma ClassifiedOnce(c: Core, leaderNow: Rect)
    requires EndOk(c) && c.state.Completing? && c.finalLeader == Some(leaderNow)
    ensures ClassifyGeometryChange(c.initialLeader, leaderNow).Returned?
    ensures ClassifyGeometryChange(c.initialLeader, leaderNow).value.Translated?
  {
  }

  // Why it is not: a leader elsewhere, a result missing, or a follower elsewhere. The
  // classification of the leader's move cannot fail any more.
  ghost predicate Refuses(c: Core, reply: Reply, snapshot: FinalSnapshot)
    requires Paired(c.session, c.follower, c.initialLeader)
  {
    var target := PairTarget(c.initialLeader, ArmedFollower(c), snapshot.leader);
    if c.finalLeader != Some(snapshot.leader) then AbortedFrom(c, reply, FinalLeaderMismatch)
    else if exists k | 0 <= k < |c.pending| :: !c.pending[k].exactRecorded then
      AbortedFrom(c, reply, OperationResultMissing)
    else if target.Threw? then reply == Reply(c, Threw(target.error))
    else AbortedFrom(c, reply, FinalFollowerMismatch)
  }

  lemma IncompleteExactly(c: Core, snapshot: FinalSnapshot)
    requires Inv(c) && !(c.state.Completing? && snapshot.session == c.sessionGeneration && CompletionDue(c, snapshot))
    ensures var reply := Complete(c, snapshot);
            if Terminal(c.state) then reply == Reply(c, Returned(TerminalInputIgnored))
            else if !c.state.Completing? then AbortedFrom(c, reply, IllegalTransition)
            else if snapshot.session != c.sessionGeneration then AbortedFrom(c, reply, SessionGenerationMismatch)
            else Paired(c.session, c.follower, c.initialLeader) && Refuses(c, reply, snapshot)
  {
    if c.state.Completing? {
      FollowerTargetIsPairTarget(c, snapshot.leader);
      if c.finalLeader == Some(snapshot.leader) {
        ClassifiedOnce(c, snapshot.leader);
      }
    }
  }

  // --- Arming and reports ---

  // Arming again while a session is in progress ends it; without generations left no
  // session begins; a failed attempt from rest still takes a generation.
  lemma ArmRefusedExactly(c: Core, g: Graph, leader: WindowId, follower: WindowId)
    requires Valid(g)
    ensures var reply := Arm(c, g, leader, follower);
            if InProgress(c) then AbortedFrom(c, reply, IllegalTransition)
            else if c.sessionGeneration == UINT64_MAX then AbortedFrom(c, reply, GenerationExhausted)
            else
              && reply.core.sessionGeneration == c.sessionGeneration + 1
              && reply.core.operationGeneration == c.operationGeneration
              && (!IsPairGraph(g, leader, follower) ==>
                    AbortedFrom(Core(c.maxPending, State.Idle, c.sessionGeneration + 1, c.operationGeneration, 0, None,
                                     NO_STATS, None, None, ZERO_RECT, ZERO_RECT, None, None, []),
                                reply, InvalidTopology))
  {
    if !InProgress(c) && c.sessionGeneration < UINT64_MAX {
      ArmSucceedsExactly(c, g, leader, follower);
      if IsPairGraph(g, leader, follower) {
        ArmedState(c, g, leader, follower);
      }
    }
  }

  // A report about the present session ends it for the reason reported.
  lemma ReportExactly(c: Core, report: Report, generation: UInt64)
    ensures var reply := OnReport(c, report, generation);
            var counted := if report.UnexpectedFeedback?
                           then c.(stats := c.stats.(unexpected := c.stats.unexpected + 1)) else c;
            if Terminal(c.state) then reply == Reply(counted, Returned(TerminalInputIgnored))
            else if c.state.Idle? then AbortedFrom(counted, reply, IllegalTransition)
            else if generation != c.sessionGeneration then AbortedFrom(counted, reply, SessionGenerationMismatch)
            else
              && (report.QueueOverflow? ==> AbortedFrom(c, reply, EventQueueOverflow))
              && (report.TargetInvalid? ==> AbortedFrom(c, reply, AbortReason.TargetInvalidated))
              && (report.SourceFailure? ==> AbortedFrom(c, reply, EventSourceFailure))
              && (report.Timeout? ==> AbortedFrom(c, reply, TimedOut))
              && (report.LeaderResized? ==> AbortedFrom(c, reply, AbortReason.ResizeOrMixed))
              && (report.UnexpectedFeedback? ==> AbortedFrom(counted, reply, UnexpectedFollowerGeometry))
  {
  }
}
