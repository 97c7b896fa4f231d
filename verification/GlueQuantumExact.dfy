/** Exactly which batches a coordinator cannot tell from their thinned form: thinning
    shows when a follower receipt between two leader locations is moved to the front of
    them in a session that may still be alive. */
module GlueQuantumExact {
  import opened Wrappers
  import opened Geometry
  import opened Translation
  import opened WindowAdjacency
  import opened AdjacencyGraph
  import opened TranslationSession
  import opened GlueMove
  import opened GlueInvariants
  import opened GlueTheorems
  import opened GlueQuantum

  // --- The thinned form, receipt by receipt ---

  // A leader location comes before the next lifecycle receipt.
  predicate LeaderAhead(events: seq<QuantumEvent>) {
    events != [] && events[0].kind.Location? && (events[0].role.LeaderRole? || LeaderAhead(events[1..]))
  }

  predicate Dropped(events: seq<QuantumEvent>)
    requires events != []
  {
    IsLeaderLocation(events[0]) && LeaderAhead(events[1..])
  }

  function Thinned(events: seq<QuantumEvent>): (thinned: seq<QuantumEvent>)
    ensures forall k | 0 <= k < |thinned| :: thinned[k] in events
  {
    if events == [] then []
    else (if Dropped(events) then [] else [events[0]]) + Thinned(events[1..])
  }

  ghost predicate IsSelection(events: seq<QuantumEvent>, selected: seq<bool>) {
    |selected| == |events| && forall i | 0 <= i < |events| :: selected[i] <==> !Superseded(events, i)
  }

  lemma {:induction false} AheadIsReached(events: seq<QuantumEvent>)
    ensures LeaderAhead(events) <==>
            exists j | 0 <= j < |events| :: IsLeaderLocation(events[j]) && BarrierFree(events, 0, j)
    decreases |events|
  {
    if events != [] && !IsLeaderLocation(events[0]) {
      AheadIsReached(events[1..]);
      if j :| 0 <= j < |events| && IsLeaderLocation(events[j]) && BarrierFree(events, 0, j) {
        assert IsLeaderLocation(events[1..][j - 1]) && BarrierFree(events[1..], 0, j - 1);
      }
      if LeaderAhead(events) {
        var j :| 0 <= j < |events[1..]| && IsLeaderLocation(events[1..][j]) && BarrierFree(events[1..], 0, j);
        assert forall k | 1 <= k <= j + 1 :: events[k] == events[1..][k - 1];
        assert IsLeaderLocation(events[j + 1]) && BarrierFree(events, 0, j + 1);
      }
    } else if events != [] {
      assert BarrierFree(events, 0, 0);
    }
  }

  lemma FirstSuperseded(events: seq<QuantumEvent>)
    requires events != []
    ensures Superseded(events, 0) <==> Dropped(events)
  {
    AheadIsReached(events[1..]);
    if Superseded(events, 0) {
      var j :| 0 < j < |events| && IsLeaderLocation(events[j]) && BarrierFree(events, 0, j);
      assert IsLeaderLocation(events[1..][j - 1]) && BarrierFree(events[1..], 0, j - 1);
    }
    if Dropped(events) {
      var j :| 0 <= j < |events[1..]| && IsLeaderLocation(events[1..][j]) && BarrierFree(events[1..], 0, j);
      assert forall k | 1 <= k <= j + 1 :: events[k] == events[1..][k - 1];
      assert IsLeaderLocation(events[j + 1]) && BarrierFree(events, 0, j + 1);
    }
  }

  lemma TailSuperseded(events: seq<QuantumEvent>, i: nat)
    requires i + 1 < |events|
    ensures Superseded(events, i + 1) <==> Superseded(events[1..], i)
  {
    if Superseded(events, i + 1) {
      var j :| i + 1 < j < |events| && IsLeaderLocation(events[j]) && BarrierFree(events, i + 1, j);
      assert IsLeaderLocation(events[1..][j - 1]) && BarrierFree(events[1..], i, j - 1);
    }
    if Superseded(events[1..], i) {
      var j :| i < j < |events[1..]| && IsLeaderLocation(events[1..][j]) && BarrierFree(events[1..], i, j);
      assert forall k | i + 1 <= k <= j + 1 :: events[k] == events[1..][k - 1];
      assert IsLeaderLocation(events[j + 1]) && BarrierFree(events, i + 1, j + 1);
    }
  }

  // What the selection keeps is the thinned form.
  lemma {:induction false} KeepIsThinned(events: seq<QuantumEvent>, selected: seq<bool>)
    requires IsSelection(events, selected)
    ensures Keep(events, selected) == Thinned(events)
    decreases |events|
  {
    if events != [] {
      FirstSuperseded(events);
      forall i | 0 <= i < |events[1..]| ensures selected[1..][i] <==> !Superseded(events[1..], i) {
        TailSuperseded(events, i);
      }
      KeepIsThinned(events[1..], selected[1..]);
    }
  }

  // --- Feeding both forms ---

  ghost predicate NoneDestroyed(events: seq<QuantumEvent>) {
    forall k | 0 <= k < |events| :: !events[k].kind.Destroyed?
  }

  // One coordinator, fed the whole batch or the thinned one, ends up the same.
  ghost predicate Agrees(c: Core, events: seq<QuantumEvent>, samples: Samples, execute: Executor)
    requires NoneDestroyed(events)
  {
    EraseFed(Feed(c, Thinned(events), samples, execute)) == EraseFed(Feed(c, events, samples, execute))
  }

  // Every reachable coordinator for which the batch is in order does, whatever the
  // samples and the answers to its commands.
  ghost predicate Invisible(events: seq<QuantumEvent>)
    requires NoneDestroyed(events)
  {
    forall maxPending: nat, inputs: seq<Input>, samples: Samples, execute: Executor
      | InOrder(events, Run(Initial(maxPending), inputs).lastSequence) ::
      Agrees(Run(Initial(maxPending), inputs), events, samples, execute)
  }

  // A kept receipt is fed in both forms.
  lemma KeptStep(c: Core, events: seq<QuantumEvent>, samples: Samples, execute: Executor)
    requires NoneDestroyed(events) && events != [] && !Dropped(events)
    ensures var first := FeedOne(c, events[0], samples, execute);
            Agrees(c, events, samples, execute) <==>
            first.thrown.Some? || Agrees(first.core, events[1..], samples, execute)
  {
    var first, rest := FeedOne(c, events[0], samples, execute), events[1..];
    var thinned := [events[0]] + Thinned(rest);
    assert thinned[1..] == Thinned(rest);
    if first.thrown.None? {
      var a, b := Feed(first.core, Thinned(rest), samples, execute), Feed(first.core, rest, samples, execute);
      CommandsJoin(first.commands, a.commands);
      CommandsJoin(first.commands, b.commands);
      SamePrefix(EraseCommands(first.commands), EraseCommands(a.commands), EraseCommands(b.commands));
    }
  }

  lemma SamePrefix<T>(prefix: seq<T>, a: seq<T>, b: seq<T>)
    ensures prefix + a == prefix + b <==> a == b
  {
    assert (prefix + a)[|prefix|..] == a && (prefix + b)[|prefix|..] == b;
  }

  // A leader location right before another one makes no difference to either form.
  lemma DroppedStep(c: Core, events: seq<QuantumEvent>, samples: Samples, execute: Executor)
    requires Inv(c) && InOrder(events, c.lastSequence) && events != [] && Dropped(events)
    requires IsLeaderLocation(events[1])
    ensures Agrees(c, events, samples, execute) <==> Agrees(c, events[1..], samples, execute)
  {
    DropFirst(c, events, samples, execute);
    assert Thinned(events) == Thinned(events[1..]);
  }

  // --- Where a session may stand ---

  // Armed; active, with nothing commanded or with feedback to be accepted; and
  // completing, likewise.
  datatype Situation = Resting | Fresh | Busy | FreshEnd | BusyEnd

  // Where a session may stand after a receipt, or none if the receipt ends it.
  function After(sit: Situation, event: QuantumEvent): Option<Situation> {
    match event.kind
    case Started => if event.role.LeaderRole? && sit.Resting? then Some(Fresh) else None
    case Location =>
      if event.role.LeaderRole? then if sit.Fresh? || sit.Busy? then Some(Busy) else None
      else if sit.Busy? || sit.BusyEnd? then Some(sit)
      else None
    case Ended =>
      if event.role.FollowerRole? then None
      else if sit.Fresh? then Some(FreshEnd)
      else if sit.Busy? then Some(BusyEnd)
      else None
    case Destroyed => None
  }

  // No leader location is dropped in front of a follower receipt while a session that
  // stood in the situation may be alive.
  predicate Safe(sit: Situation, events: seq<QuantumEvent>)
    decreases |events|
  {
    if events == [] then true
    else if Dropped(events) then IsLeaderLocation(events[1]) && Safe(sit, events[1..])
    else
      match After(sit, events[0])
      case None => true
      case Some(next) => Safe(next, events[1..])
  }

  ghost predicate Stands(c: Core, sit: Situation) {
    match sit
    case Resting => c.state.Armed? && c.pending == [] && c.lastAcknowledged.None?
    case Fresh => c.state.Active? && c.pending == [] && c.lastAcknowledged.None?
    case Busy => c.state.Active?
    case FreshEnd => c.state.Completing? && c.pending == [] && c.lastAcknowledged.None?
    case BusyEnd => c.state.Completing?
  }

  // --- Safe batches are thinned without a trace ---

  lemma LeaderLocationMoves(c: Core, sit: Situation, event: QuantumEvent, samples: Samples, execute: Executor)
    requires Stands(c, sit) && event.sequence > c.lastSequence && IsLeaderLocation(event)
    ensures var fed := FeedOne(c, event, samples, execute);
            fed.thrown.Some? || Terminal(fed.core.state) ||
            (After(sit, event).Some? && Stands(fed.core, After(sit, event).value))
  {
  }

  lemma LeaderMoves(c: Core, sit: Situation, event: QuantumEvent, samples: Samples, execute: Executor)
    requires Stands(c, sit) && event.sequence > c.lastSequence && !event.kind.Destroyed? && event.role.LeaderRole?
    ensures var fed := FeedOne(c, event, samples, execute);
            fed.thrown.Some? || Terminal(fed.core.state) ||
            (After(sit, event).Some? && Stands(fed.core, After(sit, event).value))
  {
    if event.kind.Location? {
      LeaderLocationMoves(c, sit, event, samples, execute);
    }
  }

  lemma FollowerMoves(c: Core, sit: Situation, event: QuantumEvent, samples: Samples, execute: Executor)
    requires Stands(c, sit) && event.sequence > c.lastSequence && !event.kind.Destroyed? && event.role.FollowerRole?
    ensures var fed := FeedOne(c, event, samples, execute);
            fed.thrown.Some? || Terminal(fed.core.state) ||
            (After(sit, event).Some? && Stands(fed.core, After(sit, event).value))
  {
  }

  lemma OverAgrees(c: Core, events: seq<QuantumEvent>, samples: Samples, execute: Executor)
    requires NoneDestroyed(events) && Terminal(c.state)
    ensures Agrees(c, events, samples, execute)
  {
    TerminalStays(c, events, samples, execute);
    TerminalStays(c, Thinned(events), samples, execute);
  }

  lemma SitMoves(c: Core, sit: Situation, event: QuantumEvent, samples: Samples, execute: Executor)
    requires Stands(c, sit) && event.sequence > c.lastSequence && !event.kind.Destroyed?
    ensures var fed := FeedOne(c, event, samples, execute);
            fed.thrown.Some? || Terminal(fed.core.state) ||
            (After(sit, event).Some? && Stands(fed.core, After(sit, event).value))
  {
    if event.role.LeaderRole? {
      LeaderMoves(c, sit, event, samples, execute);
    } else {
      FollowerMoves(c, sit, event, samples, execute);
    }
  }

  // After a kept receipt the rest of a safe batch is safe for where the session went.
  lemma {:induction false} KeptGoesOn(c: Core, sit: Situation, events: seq<QuantumEvent>, samples: Samples,
                                     execute: Executor)
    requires Inv(c) && InOrder(events, c.lastSequence) && Stands(c, sit) && Safe(sit, events)
    requires events != [] && !Dropped(events)
    ensures var fed := FeedOne(c, events[0], samples, execute);
            || fed.thrown.Some?
            || Terminal(fed.core.state)
            || (&& After(sit, events[0]).Some? && Inv(fed.core) && InOrder(events[1..], fed.core.lastSequence)
                && Stands(fed.core, After(sit, events[0]).value) && Safe(After(sit, events[0]).value, events[1..]))
  {
    SitMoves(c, sit, events[0], samples, execute);
    FeedOneKeepsInv(c, events[0], samples, execute);
    FeedOneLast(c, events[0], samples, execute);
  }

  lemma {:induction false} SafeAgrees(c: Core, sit: Situation, events: seq<QuantumEvent>, samples: Samples,
                                      execute: Executor)
    requires Inv(c) && InOrder(events, c.lastSequence) && Stands(c, sit) && Safe(sit, events)
    ensures Agrees(c, events, samples, execute)
    decreases |events|
  {
    if events == [] {
    } else if Dropped(events) {
      DroppedStep(c, events, samples, execute);
      SafeAgrees(c, sit, events[1..], samples, execute);
    } else {
      var next := FeedOne(c, events[0], samples, execute).core;
      KeptStep(c, events, samples, execute);
      KeptGoesOn(c, sit, events, samples, execute);
      if FeedOne(c, events[0], samples, execute).thrown.None? {
        if Terminal(next.state) {
          OverAgrees(next, events[1..], samples, execute);
        } else {
          SafeAgrees(next, After(sit, events[0]).value, events[1..], samples, execute);
        }
      }
    }
  }

  // An idle coordinator refuses the first receipt of either form.
  lemma IdleAgrees(c: Core, events: seq<QuantumEvent>, samples: Samples, execute: Executor)
    requires NoneDestroyed(events) && c.state.Idle?
    ensures Agrees(c, events, samples, execute)
  {
    if events != [] {
      ThinnedSome(events);
      var thinned := Thinned(events);
      var over := FeedOne(c, events[0], samples, execute).core;
      assert FeedOne(c, thinned[0], samples, execute) == FeedOne(c, events[0], samples, execute);
      TerminalStays(over, events[1..], samples, execute);
      TerminalStays(over, thinned[1..], samples, execute);
    }
  }

  lemma {:induction false} ThinnedSome(events: seq<QuantumEvent>)
    requires events != []
    ensures Thinned(events) != []
    decreases |events|
  {
    if Dropped(events) {
      ThinnedSome(events[1..]);
    }
  }

  // What is safe for a session with more behind it is safe for one with less.
  lemma {:induction false} SafeWeakens(events: seq<QuantumEvent>)
    requires Safe(Busy, events) || Safe(BusyEnd, events)
    ensures Safe(Busy, events) ==> Safe(Fresh, events) && Safe(BusyEnd, events)
    ensures Safe(BusyEnd, events) ==> Safe(FreshEnd, events)
    decreases |events|
  {
    if events != [] && (Safe(Busy, events[1..]) || Safe(BusyEnd, events[1..])) {
      SafeWeakens(events[1..]);
    }
  }

  // --- Early sessions ---

  // Before the leader has started, and before the second receipt of a session,
  // nothing has been commanded.
  predicate Early(c: Core) {
    && (c.state.Armed? ==> c.pending == [] && c.lastAcknowledged.None?)
    && (c.lastSequence <= 1 && !Terminal(c.state) && !c.state.Idle? && !c.state.Armed? ==>
          c.pending == [] && c.lastAcknowledged.None? && c.state.Active? && c.lastSequence == 1)
  }

  // Past its second receipt and no longer armed, a session is not early.
  predicate Later(c: Core) {
    c.lastSequence > 1 && !c.state.Armed?
  }

  lemma PlanningIsLater(c: Core, sequence: UInt64, leaderRect: Rect)
    requires Later(c)
    ensures Later(PlanFollower(c, sequence, leaderRect).core)
  {
  }

  lemma LeaderIsLater(c: Core, receipt: Receipt)
    requires c.lastSequence > 1
    ensures Later(OnLeaderEvent(c, receipt).core)
  {
    if receipt.kind.GeometryChanged? && c.state.Active? && receipt.visibleRect.Some? {
      var counted := c.(stats := c.stats.(leaderLocations := c.stats.leaderLocations + 1));
      PlanningIsLater(counted, receipt.sequence, receipt.visibleRect.value);
    }
  }

  lemma FollowerIsLater(c: Core, receipt: Receipt)
    requires c.lastSequence > 1
    ensures Later(OnFollowerEvent(c, receipt).core)
  {
  }

  lemma LaterIsNotEarly(c: Core, receipt: Receipt)
    requires receipt.sequence > 1 && Early(c)
    ensures Early(OnEvent(c, receipt).core)
  {
    var seen := c.(lastSequence := receipt.sequence);
    match receipt.role
    case Unrelated =>
    case Leader => LeaderIsLater(seen, receipt);
    case Follower => FollowerIsLater(seen, receipt);
  }

  lemma FirstEventKeepsEarly(c: Core, receipt: Receipt)
    requires Early(c) && receipt.sequence <= 1
    ensures Early(OnEvent(c, receipt).core)
  {
  }

  lemma EventKeepsEarly(c: Core, receipt: Receipt)
    requires Early(c)
    ensures Early(OnEvent(c, receipt).core)
  {
    if receipt.sequence > 1 {
      LaterIsNotEarly(c, receipt);
    } else {
      FirstEventKeepsEarly(c, receipt);
    }
  }

  lemma ResultKeepsEarly(c: Core, result: OperationResult)
    requires Early(c)
    ensures Early(OnOperationResult(c, result).core)
  {
  }

  lemma ArmKeepsEarly(c: Core, g: Graph, leader: WindowId, follower: WindowId)
    requires Early(c)
    ensures Early(Arm(c, g, leader, follower).core)
  {
  }

  lemma StepKeepsEarly(c: Core, input: Input)
    requires Early(c)
    ensures Early(Step(c, input).core)
  {
    match input
    case ArmInput(g, leader, follower) => ArmKeepsEarly(c, g, leader, follower);
    case EventInput(receipt) => EventKeepsEarly(c, receipt);
    case ResultInput(result) => ResultKeepsEarly(c, result);
    case _ =>
  }

  lemma {:induction false} RunKeepsEarly(c: Core, inputs: seq<Input>)
    requires Early(c)
    ensures Early(Run(c, inputs))
    decreases |inputs|
  {
    if inputs != [] {
      StepKeepsEarly(c, inputs[0]);
      RunKeepsEarly(Step(c, inputs[0]).core, inputs[1..]);
    }
  }

  // --- Unsafe batches show: the witnesses ---

  // The pair of the earlier example, before and after its first move.
  ghost predicate OfPair(c: Core) {
    && c.maxPending == 1 && c.sessionGeneration == 1 && c.session == ArmedPair().session
    && c.follower == Some("B") && c.initialLeader == LEADER_ARMED
  }

  ghost predicate Unmoved(c: Core) {
    c.operationGeneration == 0 && c.pending == [] && c.lastAcknowledged.None? && c.currentFollower == FOLLOWER_ARMED
  }

  ghost predicate Moved(c: Core) {
    && c.operationGeneration == 1 && c.currentFollower == FOLLOWER_AT
    && (|| (c.pending == [] && c.lastAcknowledged == Some(FOLLOWER_AT))
        || (exists s: UInt64 :: c.pending == [PendingOperation(1, s, FOLLOWER_AT, true, false)]))
  }

  ghost predicate Witness(c: Core, sit: Situation) {
    && OfPair(c) && Stands(c, sit)
    && if sit.Busy? || sit.BusyEnd? then Moved(c) else Unmoved(c)
  }

  // The leader has moved once, and the follower is told so exactly.
  ghost predicate FollowsOnce(samples: Samples, execute: Executor) {
    samples == Samples(MOVED_ONCE, FOLLOWER_AT) && execute(1, FOLLOWER_AT) == Answer(Exact, Some(FOLLOWER_AT))
  }

  // The leader has moved again, and the command for it fails.
  ghost predicate RefusesNext(samples: Samples, execute: Executor) {
    && samples == Samples(LEADER_AT, FOLLOWER_AT)
    && execute(2, FOLLOWER_DUE) == Answer(OperationOutcome.NativeApplyFailed, None)
  }

  lemma FeedbackIsHeard(c: Core, sit: Situation, event: QuantumEvent, samples: Samples, execute: Executor)
    requires Witness(c, sit) && (sit.Busy? || sit.BusyEnd?) && event.sequence > c.lastSequence
    requires event.kind.Location? && event.role.FollowerRole? && samples.follower == FOLLOWER_AT
    ensures var fed := FeedOne(c, event, samples, execute);
            && fed.thrown.None? && Witness(fed.core, sit) && fed.core.stats.feedback == c.stats.feedback + 1
  {
  }

  // A leader location in an active session with every result in is a move to its target.
  lemma LocationMoves(c: Core, event: QuantumEvent, samples: Samples, target: Rect)
    requires c.state.Active? && event.sequence > c.lastSequence && IsLeaderLocation(event) && AllExact(c.pending)
    requires c.follower.Some?
    requires FollowerTarget(Located(c.(lastSequence := event.sequence)), samples.leader) == Returned(Some(target))
    ensures OnEvent(c, ReceiptOf(event, c.sessionGeneration, samples)) ==
            MoveFollower(Located(c.(lastSequence := event.sequence)), event.sequence, target)
  {
  }

  lemma FirstMove(c: Core, sequence: UInt64, execute: Executor)
    requires c.state.Active? && OfPair(c) && Unmoved(c) && execute(1, FOLLOWER_AT) == Answer(Exact, Some(FOLLOWER_AT))
    ensures var fed := Execute(MoveFollower(c, sequence, FOLLOWER_AT), execute);
            && fed.thrown.None? && fed.core.state.Active? && OfPair(fed.core) && Moved(fed.core) && fed.commands != []
  {
    var moved := MoveFollower(c, sequence, FOLLOWER_AT).core;
    assert moved.pending == [PendingOperation(1, sequence, FOLLOWER_AT, false, false)];
    assert FindOperation(moved.pending, 1, 0) == Some(0);
    var settled := Execute(MoveFollower(c, sequence, FOLLOWER_AT), execute).core;
    assert settled.pending == [PendingOperation(1, sequence, FOLLOWER_AT, true, false)];
  }

  lemma FirstMoveIsExact(c: Core, event: QuantumEvent, samples: Samples, execute: Executor)
    requires Witness(c, Fresh) && event.sequence > c.lastSequence && IsLeaderLocation(event)
    requires FollowsOnce(samples, execute)
    ensures var fed := FeedOne(c, event, samples, execute);
            fed.thrown.None? && Witness(fed.core, Busy) && fed.commands != []
  {
    var seen := Located(c.(lastSequence := event.sequence));
    PairTargets(seen, MOVED_ONCE, 1);
    LocationMoves(c, event, samples, FOLLOWER_AT);
    FirstMove(seen, event.sequence, execute);
  }

  lemma SameSampleRests(c: Core, event: QuantumEvent, samples: Samples, execute: Executor)
    requires Witness(c, Busy) && event.sequence > c.lastSequence && IsLeaderLocation(event)
    requires FollowsOnce(samples, execute)
    ensures var fed := FeedOne(c, event, samples, execute); fed.thrown.None? && Witness(fed.core, Busy)
  {
    var seen := Located(c.(lastSequence := event.sequence));
    PairTargets(seen, MOVED_ONCE, 1);
    LocationMoves(c, event, samples, FOLLOWER_AT);
  }

  lemma LifecycleGoesOn(c: Core, sit: Situation, event: QuantumEvent, samples: Samples, execute: Executor)
    requires Witness(c, sit) && event.sequence > c.lastSequence && !event.kind.Location?
    requires After(sit, event).Some? && FollowsOnce(samples, execute)
    ensures var fed := FeedOne(c, event, samples, execute);
            fed.thrown.None? && Witness(fed.core, After(sit, event).value)
  {
  }

  // Under the first environment a witness goes wherever a session may go.
  lemma WitnessGoesOn(c: Core, sit: Situation, event: QuantumEvent, samples: Samples, execute: Executor)
    requires Witness(c, sit) && event.sequence > c.lastSequence && After(sit, event).Some?
    requires FollowsOnce(samples, execute)
    ensures var fed := FeedOne(c, event, samples, execute);
            fed.thrown.None? && Witness(fed.core, After(sit, event).value)
  {
    if !event.kind.Location? {
      LifecycleGoesOn(c, sit, event, samples, execute);
    } else if event.role.FollowerRole? {
      FeedbackIsHeard(c, sit, event, samples, execute);
    } else if sit.Fresh? {
      FirstMoveIsExact(c, event, samples, execute);
    } else {
      SameSampleRests(c, event, samples, execute);
    }
  }

  // --- Unsafe batches show: where the forms part ---

  // The batch drops a leader location in front of a follower receipt.
  predicate Parts(events: seq<QuantumEvent>) {
    events != [] && Dropped(events) && !IsLeaderLocation(events[1])
  }

  lemma ThinnedFollowerFirst(events: seq<QuantumEvent>)
    requires Parts(events)
    ensures events[1].kind.Location? && events[1].role.FollowerRole?
    ensures Thinned(events) != [] && Thinned(events)[0] == events[1]
  {
  }

  lemma {:induction false} FeedbackNeverFalls(c: Core, events: seq<QuantumEvent>, samples: Samples, execute: Executor)
    requires NoneDestroyed(events)
    ensures Feed(c, events, samples, execute).core.stats.feedback >= c.stats.feedback
    decreases |events|
  {
    if events != [] {
      FeedOneCounts(c, events[0], samples, execute);
      FeedbackNeverFalls(FeedOne(c, events[0], samples, execute).core, events[1..], samples, execute);
    }
  }

  lemma EventCounts(c: Core, receipt: Receipt)
    ensures OnEvent(c, receipt).core.stats.feedback >= c.stats.feedback
  {
  }

  lemma ResultCounts(c: Core, result: OperationResult)
    ensures OnOperationResult(c, result).core.stats.feedback == c.stats.feedback
  {
  }

  lemma FeedOneCounts(c: Core, event: QuantumEvent, samples: Samples, execute: Executor)
    requires !event.kind.Destroyed?
    ensures FeedOne(c, event, samples, execute).core.stats.feedback >= c.stats.feedback
  {
    var receipt := ReceiptOf(event, c.sessionGeneration, samples);
    ExecuteCounts(OnEvent(c, receipt), execute);
    EventCounts(c, receipt);
  }

  lemma ExecuteCounts(reply: Reply, execute: Executor)
    ensures Execute(reply, execute).core.stats.feedback == reply.core.stats.feedback
  {
    match CommandOf(reply.outcome)
    case None =>
    case Some(command) =>
      var answer := execute(command.operation, command.target);
      ResultCounts(reply.core, OperationResult(command.session, command.operation, command.follower, answer.outcome,
                                               answer.actual));
  }

  // The leader location ends the session, the follower receipt counts first.
  lemma CountsPart(c: Core, events: seq<QuantumEvent>, samples: Samples, execute: Executor)
    requires NoneDestroyed(events) && Parts(events)
    requires var fed := FeedOne(c, events[0], samples, execute);
             fed.thrown.None? && Terminal(fed.core.state) && fed.core.stats.feedback == c.stats.feedback
    requires var fed := FeedOne(c, events[1], samples, execute);
             fed.thrown.None? && fed.core.stats.feedback == c.stats.feedback + 1
    ensures !Agrees(c, events, samples, execute)
  {
    ThinnedFollowerFirst(events);
    TerminalStays(FeedOne(c, events[0], samples, execute).core, events[1..], samples, execute);
    FeedbackNeverFalls(FeedOne(c, events[1], samples, execute).core, Thinned(events)[1..], samples, execute);
  }

  // Both end the session, for different reasons.
  lemma ReasonsPart(c: Core, events: seq<QuantumEvent>, samples: Samples, execute: Executor)
    requires NoneDestroyed(events) && Parts(events)
    requires var fed := FeedOne(c, events[0], samples, execute);
             fed.thrown.None? && Terminal(fed.core.state) && fed.core.abortReason == Some(IllegalTransition)
    requires var fed := FeedOne(c, events[1], samples, execute);
             fed.thrown.None? && Terminal(fed.core.state) && fed.core.abortReason == Some(UnexpectedFollowerGeometry)
    ensures !Agrees(c, events, samples, execute)
  {
    ThinnedFollowerFirst(events);
    TerminalStays(FeedOne(c, events[0], samples, execute).core, events[1..], samples, execute);
    TerminalStays(FeedOne(c, events[1], samples, execute).core, Thinned(events)[1..], samples, execute);
  }

  // The leader location moves the follower, the follower receipt ends the session.
  lemma CommandsPart(c: Core, events: seq<QuantumEvent>, samples: Samples, execute: Executor)
    requires NoneDestroyed(events) && Parts(events)
    requires FeedOne(c, events[0], samples, execute).commands != []
    requires var fed := FeedOne(c, events[1], samples, execute);
             fed.thrown.None? && Terminal(fed.core.state) && fed.commands == []
    ensures !Agrees(c, events, samples, execute)
  {
    ThinnedFollowerFirst(events);
    TerminalStays(FeedOne(c, events[1], samples, execute).core, Thinned(events)[1..], samples, execute);
  }

  // What the two receipts do to a witness in each situation.
  lemma RestingParts(c: Core, sit: Situation, events: seq<QuantumEvent>, samples: Samples, execute: Executor)
    requires Witness(c, sit) && (sit.Resting? || sit.FreshEnd?) && InOrder(events, c.lastSequence) && Parts(events)
    ensures !Agrees(c, events, samples, execute)
  {
    ThinnedFollowerFirst(events);
    ReasonsPart(c, events, samples, execute);
  }

  lemma FeedbackIsUnexpected(c: Core, event: QuantumEvent, samples: Samples, execute: Executor)
    requires Witness(c, Fresh) && event.sequence > c.lastSequence && event.kind.Location? && event.role.FollowerRole?
    ensures var fed := FeedOne(c, event, samples, execute);
            fed.thrown.None? && Terminal(fed.core.state) && fed.commands == []
  {
  }

  lemma FreshParts(c: Core, events: seq<QuantumEvent>, samples: Samples, execute: Executor)
    requires Witness(c, Fresh) && InOrder(events, c.lastSequence) && Parts(events) && FollowsOnce(samples, execute)
    ensures !Agrees(c, events, samples, execute)
  {
    ThinnedFollowerFirst(events);
    FirstMoveIsExact(c, events[0], samples, execute);
    FeedbackIsUnexpected(c, events[1], samples, execute);
    CommandsPart(c, events, samples, execute);
  }

  lemma BusyEndParts(c: Core, events: seq<QuantumEvent>, samples: Samples, execute: Executor)
    requires Witness(c, BusyEnd) && InOrder(events, c.lastSequence) && Parts(events) && samples.follower == FOLLOWER_AT
    ensures !Agrees(c, events, samples, execute)
  {
    ThinnedFollowerFirst(events);
    FeedbackIsHeard(c, BusyEnd, events[1], samples, execute);
    CountsPart(c, events, samples, execute);
  }

  lemma NextMove(c: Core, sequence: UInt64, execute: Executor)
    requires c.state.Active? && OfPair(c) && Moved(c)
    requires execute(2, FOLLOWER_DUE) == Answer(OperationOutcome.NativeApplyFailed, None)
    ensures var fed := Execute(MoveFollower(c, sequence, FOLLOWER_DUE), execute);
            fed.thrown.None? && Terminal(fed.core.state) && fed.core.stats.feedback == c.stats.feedback
  {
  }

  lemma NextMoveEnds(c: Core, event: QuantumEvent, samples: Samples, execute: Executor)
    requires Witness(c, Busy) && event.sequence > c.lastSequence && IsLeaderLocation(event)
    requires RefusesNext(samples, execute)
    ensures var fed := FeedOne(c, event, samples, execute);
            fed.thrown.None? && Terminal(fed.core.state) && fed.core.stats.feedback == c.stats.feedback
  {
    var seen := Located(c.(lastSequence := event.sequence));
    PairTargets(seen, LEADER_AT, 2);
    LocationMoves(c, event, samples, FOLLOWER_DUE);
    NextMove(seen, event.sequence, execute);
  }

  lemma BusyParts(c: Core, events: seq<QuantumEvent>, samples: Samples, execute: Executor)
    requires Witness(c, Busy) && InOrder(events, c.lastSequence) && Parts(events) && RefusesNext(samples, execute)
    ensures !Agrees(c, events, samples, execute)
  {
    ThinnedFollowerFirst(events);
    NextMoveEnds(c, events[0], samples, execute);
    FeedbackIsHeard(c, Busy, events[1], samples, execute);
    CountsPart(c, events, samples, execute);
  }

  // --- Unsafe batches show: getting there ---

  // The forms part before the next lifecycle receipt.
  predicate PartsSoon(events: seq<QuantumEvent>) {
    events != [] && events[0].kind.Location? && (Parts(events) || PartsSoon(events[1..]))
  }

  lemma {:induction false} NothingAheadNothingParts(events: seq<QuantumEvent>)
    requires PartsSoon(events)
    ensures LeaderAhead(events)
    decreases |events|
  {
    if !Parts(events) {
      NothingAheadNothingParts(events[1..]);
    }
  }

  lemma DroppedUnsafe(sit: Situation, events: seq<QuantumEvent>)
    requires events != [] && Dropped(events) && !Parts(events) && !Safe(sit, events)
    ensures IsLeaderLocation(events[1]) && !Safe(sit, events[1..])
    ensures PartsSoon(events[1..]) ==> PartsSoon(events)
  {
  }

  lemma KeptUnsafe(sit: Situation, events: seq<QuantumEvent>)
    requires events != [] && !Dropped(events) && !Safe(sit, events) && (sit.Busy? ==> !PartsSoon(events))
    ensures After(sit, events[0]).Some? && !Safe(After(sit, events[0]).value, events[1..])
    ensures After(sit, events[0]).value.Busy? ==> !PartsSoon(events[1..])
  {
    if After(sit, events[0]).value.Busy? && PartsSoon(events[1..]) {
      NothingAheadNothingParts(events[1..]);
    }
  }

  lemma KeptTells(c: Core, events: seq<QuantumEvent>, samples: Samples, execute: Executor)
    requires InOrder(events, c.lastSequence) && Inv(c) && events != [] && !Dropped(events)
    requires FeedOne(c, events[0], samples, execute).thrown.None?
    ensures var next := FeedOne(c, events[0], samples, execute).core;
            && Inv(next) && InOrder(events[1..], next.lastSequence)
            && (!Agrees(next, events[1..], samples, execute) ==> !Agrees(c, events, samples, execute))
  {
    KeptStep(c, events, samples, execute);
    FeedOneKeepsInv(c, events[0], samples, execute);
    FeedOneLast(c, events[0], samples, execute);
  }

  lemma PartsLater(events: seq<QuantumEvent>)
    requires PartsSoon(events) && !Parts(events)
    ensures events[0].kind.Location? && PartsSoon(events[1..])
    ensures Dropped(events) <==> IsLeaderLocation(events[0])
    ensures Dropped(events) ==> IsLeaderLocation(events[1])
  {
    NothingAheadNothingParts(events[1..]);
  }

  lemma BusyHears(c: Core, events: seq<QuantumEvent>, samples: Samples, execute: Executor)
    requires Inv(c) && Witness(c, Busy) && InOrder(events, c.lastSequence) && samples.follower == FOLLOWER_AT
    requires events != [] && events[0].kind.Location? && events[0].role.FollowerRole?
    ensures var next := FeedOne(c, events[0], samples, execute).core;
            && Inv(next) && Witness(next, Busy) && InOrder(events[1..], next.lastSequence)
            && (!Agrees(next, events[1..], samples, execute) ==> !Agrees(c, events, samples, execute))
  {
    FeedbackIsHeard(c, Busy, events[0], samples, execute);
    KeptTells(c, events, samples, execute);
  }

  // Under the second environment an active witness shows where they part soon.
  lemma {:induction false} BusyTells(c: Core, events: seq<QuantumEvent>, samples: Samples, execute: Executor)
    requires Inv(c) && Witness(c, Busy) && InOrder(events, c.lastSequence) && PartsSoon(events)
    requires RefusesNext(samples, execute)
    ensures !Agrees(c, events, samples, execute)
    decreases |events|
  {
    if Parts(events) {
      BusyParts(c, events, samples, execute);
    } else {
      PartsLater(events);
      if Dropped(events) {
        DroppedStep(c, events, samples, execute);
        BusyTells(c, events[1..], samples, execute);
      } else {
        BusyHears(c, events, samples, execute);
        BusyTells(FeedOne(c, events[0], samples, execute).core, events[1..], samples, execute);
      }
    }
  }

  lemma WitnessParts(c: Core, sit: Situation, events: seq<QuantumEvent>, samples: Samples, execute: Executor)
    requires Witness(c, sit) && InOrder(events, c.lastSequence) && Parts(events) && !sit.Busy?
    requires FollowsOnce(samples, execute)
    ensures !Agrees(c, events, samples, execute)
  {
    match sit
    case Fresh => FreshParts(c, events, samples, execute);
    case BusyEnd => BusyEndParts(c, events, samples, execute);
    case _ => RestingParts(c, sit, events, samples, execute);
  }

  // Under the first environment a witness shows every other unsafe batch.
  lemma {:induction false} WitnessTells(c: Core, sit: Situation, events: seq<QuantumEvent>, samples: Samples,
                                        execute: Executor)
    requires Inv(c) && Witness(c, sit) && InOrder(events, c.lastSequence) && !Safe(sit, events)
    requires FollowsOnce(samples, execute) && (sit.Busy? ==> !PartsSoon(events))
    ensures !Agrees(c, events, samples, execute)
    decreases |events|
  {
    if Parts(events) {
      WitnessParts(c, sit, events, samples, execute);
    } else if Dropped(events) {
      DroppedUnsafe(sit, events);
      DroppedStep(c, events, samples, execute);
      WitnessTells(c, sit, events[1..], samples, execute);
    } else {
      KeptUnsafe(sit, events);
      WitnessGoesOn(c, sit, events[0], samples, execute);
      KeptTells(c, events, samples, execute);
      WitnessTells(FeedOne(c, events[0], samples, execute).core, After(sit, events[0]).value, events[1..], samples,
                   execute);
    }
  }

  // --- The exact condition ---

  // The sessions that the first sequence number leaves possible: one that rests, one
  // that has only started, and one with commands behind it.
  predicate Tolerant(events: seq<QuantumEvent>) {
    events == [] ||
    (&& Safe(Resting, events) && (events[0].sequence >= 2 ==> Safe(Fresh, events))
     && (events[0].sequence >= 3 ==> Safe(Busy, events)))
  }

  lemma ReachableAgrees(maxPending: nat, inputs: seq<Input>, events: seq<QuantumEvent>, samples: Samples,
                        execute: Executor)
    requires InOrder(events, Run(Initial(maxPending), inputs).lastSequence) && Tolerant(events)
    ensures Agrees(Run(Initial(maxPending), inputs), events, samples, execute)
  {
    var c := Run(Initial(maxPending), inputs);
    ReachableInv(maxPending, inputs);
    RunKeepsEarly(Initial(maxPending), inputs);
    if events == [] {
    } else if Terminal(c.state) {
      OverAgrees(c, events, samples, execute);
    } else if c.state.Idle? {
      IdleAgrees(c, events, samples, execute);
    } else if c.state.Armed? {
      SafeAgrees(c, Resting, events, samples, execute);
    } else if c.lastSequence <= 1 {
      SafeAgrees(c, Fresh, events, samples, execute);
    } else {
      SafeWeakens(events);
      SafeAgrees(c, if c.state.Active? then Busy else BusyEnd, events, samples, execute);
    }
  }

  // One reachable coordinator that tells the forms apart is enough.
  lemma OneTells(inputs: seq<Input>, c: Core, events: seq<QuantumEvent>, samples: Samples, execute: Executor)
    requires Run(Initial(1), inputs) == c && InOrder(events, c.lastSequence)
    requires !Agrees(c, events, samples, execute)
    ensures !Invisible(events)
  {
    assert !Agrees(Run(Initial(1), inputs), events, samples, execute);
  }

  lemma ArmedIsReached()
    ensures Run(Initial(1), [ArmInput(PairGraph(), "A", "B")] + []) == ArmedPair()
  {
    PairIsArmed();
    RunFirst(Initial(1), ArmInput(PairGraph(), "A", "B"), []);
  }

  lemma StartedIsReached()
    ensures Run(Initial(1), [ArmInput(PairGraph(), "A", "B")] + ([StartIn()] + [])) == MovingOff()
  {
    PairIsArmed();
    StartStarts();
    RunFirst(ArmedPair(), StartIn(), []);
    RunFirst(Initial(1), ArmInput(PairGraph(), "A", "B"), [StartIn()] + []);
  }

  lemma RestingSees(events: seq<QuantumEvent>)
    requires InOrder(events, 0) && !Safe(Resting, events)
    ensures !Invisible(events)
  {
    var samples, execute: Executor := Samples(MOVED_ONCE, FOLLOWER_AT), (_, _) => Answer(Exact, Some(FOLLOWER_AT));
    var inputs := [ArmInput(PairGraph(), "A", "B")] + [];
    ArmedIsReached();
    ReachableInv(1, inputs);
    WitnessTells(ArmedPair(), Resting, events, samples, execute);
    OneTells(inputs, ArmedPair(), events, samples, execute);
  }

  lemma FreshSees(events: seq<QuantumEvent>)
    requires InOrder(events, 1) && !Safe(Fresh, events)
    ensures !Invisible(events)
  {
    var samples, execute: Executor := Samples(MOVED_ONCE, FOLLOWER_AT), (_, _) => Answer(Exact, Some(FOLLOWER_AT));
    var inputs := [ArmInput(PairGraph(), "A", "B")] + ([StartIn()] + []);
    StartedIsReached();
    ReachableInv(1, inputs);
    WitnessTells(MovingOff(), Fresh, events, samples, execute);
    OneTells(inputs, MovingOff(), events, samples, execute);
  }

  lemma BusySees(events: seq<QuantumEvent>)
    requires InOrder(events, 2) && !Safe(Busy, events)
    ensures !Invisible(events)
  {
    AwaitingIsReached();
    ReachableInv(1, Approach());
    if PartsSoon(events) {
      var samples, execute: Executor :=
        Samples(LEADER_AT, FOLLOWER_AT), (_, _) => Answer(OperationOutcome.NativeApplyFailed, None);
      BusyTells(Awaiting(), events, samples, execute);
      OneTells(Approach(), Awaiting(), events, samples, execute);
    } else {
      var samples, execute: Executor := Samples(MOVED_ONCE, FOLLOWER_AT), (_, _) => Answer(Exact, Some(FOLLOWER_AT));
      WitnessTells(Awaiting(), Busy, events, samples, execute);
      OneTells(Approach(), Awaiting(), events, samples, execute);
    }
  }

  lemma TolerantIsInvisible(events: seq<QuantumEvent>)
    requires NoneDestroyed(events) && Tolerant(events)
    ensures Invisible(events)
  {
    forall maxPending: nat, inputs: seq<Input>, samples: Samples, execute: Executor
      | InOrder(events, Run(Initial(maxPending), inputs).lastSequence)
      ensures Agrees(Run(Initial(maxPending), inputs), events, samples, execute)
    {
      ReachableAgrees(maxPending, inputs, events, samples, execute);
    }
  }

  lemma IntolerantShows(events: seq<QuantumEvent>)
    requires InOrder(events, 0) && !Tolerant(events)
    ensures !Invisible(events)
  {
    if !Safe(Resting, events) {
      RestingSees(events);
    } else if events[0].sequence >= 2 && !Safe(Fresh, events) {
      FreshSees(events);
    } else {
      BusySees(events);
    }
  }

  // A batch in order and its thinned form are the same to every reachable coordinator,
  // whatever the samples and the answers, exactly when the batch is tolerant.
  lemma ThinningInvisibleExactly(events: seq<QuantumEvent>)
    requires InOrder(events, 0)
    ensures Invisible(events) <==> Tolerant(events)
  {
    if Tolerant(events) {
      TolerantIsInvisible(events);
    } else {
      IntolerantShows(events);
    }
  }

  // Batches whose leader locations are together are safe for every session.
  lemma {:induction false} ContiguousIsSafe(sit: Situation, events: seq<QuantumEvent>)
    requires Contiguous(events)
    ensures Safe(sit, events)
    decreases |events|
  {
    if events != [] {
      var rest := events[1..];
      assert Contiguous(rest) by {
        forall i, j, k | 0 <= i < j < k < |rest| && IsLeaderLocation(rest[i]) && IsLeaderLocation(rest[k]) &&
          BarrierFree(rest, i, k) ensures rest[j].role.LeaderRole?
        {
          assert forall l | i + 1 <= l <= k + 1 :: events[l] == rest[l - 1];
          assert BarrierFree(events, i + 1, k + 1) && rest[j] == events[j + 1];
        }
      }
      FirstSuperseded(events);
      if Dropped(events) {
        SupersededWhenContiguous(events, 0);
        ContiguousIsSafe(sit, rest);
      } else if After(sit, events[0]).Some? {
        ContiguousIsSafe(After(sit, events[0]).value, rest);
      }
    }
  }

  // A batch of locations that is safe for an active session has its leader locations
  // together.
  lemma {:induction false} SafeIsContiguous(events: seq<QuantumEvent>)
    requires (forall k | 0 <= k < |events| :: events[k].kind.Location?) && Safe(Busy, events)
    ensures Contiguous(events)
    decreases |events|
  {
    if events != [] {
      var rest := events[1..];
      SafeIsContiguous(rest);
      AheadIsReached(rest);
      forall i, j, k | 0 <= i < j < k < |events| && IsLeaderLocation(events[i]) && IsLeaderLocation(events[k]) &&
        BarrierFree(events, i, k) ensures events[j].role.LeaderRole?
      {
        assert IsLeaderLocation(rest[k - 1]) && BarrierFree(rest, 0, k - 1);
        if j > 1 {
          var first := if i == 0 then 0 else i - 1;
          assert BarrierFree(rest, first, k - 1) && rest[j - 1] == events[j];
          assert i == 0 ==> IsLeaderLocation(rest[0]);
        }
      }
    }
  }

  // Of batches of locations that an active session may meet, exactly those with their
  // leader locations together are thinned without a trace.
  lemma LocationsInvisibleExactly(events: seq<QuantumEvent>)
    requires InOrder(events, 2) && forall k | 0 <= k < |events| :: events[k].kind.Location?
    ensures Invisible(events) <==> Contiguous(events)
  {
    if Contiguous(events) {
      ContiguousIsSafe(Resting, events);
      ContiguousIsSafe(Fresh, events);
      ContiguousIsSafe(Busy, events);
      TolerantIsInvisible(events);
    } else if Safe(Busy, events) {
      SafeIsContiguous(events);
    } else {
      BusySees(events);
    }
  }
}
