/** Progress of the coordinator: a drag that nothing disturbs is completed, and feedback
    that never came is reconciled at the end. */
module GlueDrag {
  import opened Wrappers
  import opened Geometry
  import opened Translation
  import opened WindowAdjacency
  import opened AdjacencyGraph
  import opened TranslationSession
  import opened GlueMove
  import opened GlueInvariants
  import opened GlueTheorems
  import opened GlueQuantum
  import opened GlueExact

  // --- One move of the leader, followed and echoed ---

  // An active session with nothing outstanding and room for a command.
  ghost predicate Quiet(c: Core) {
    Inv(c) && NativeCore(c) && c.state.Active? && c.pending == [] && c.maxPending >= 1
  }

  // Sequences and generations suffice for this many moves and the end.
  predicate Headroom(c: Core, moves: nat) {
    c.lastSequence + 2 * moves + 1 <= UINT64_MAX && c.operationGeneration + moves <= UINT64_MAX
  }

  function ReceiptAt(c: Core, ahead: nat, role: Role, kind: EventKind, rect: Option<Rect>): Input
    requires c.lastSequence + ahead <= UINT64_MAX
  {
    EventInput(Receipt(c.sessionGeneration, c.lastSequence + ahead, role, kind, rect))
  }

  // The leader's location; if it causes a command, its exact result and its echo.
  function MoveInputs(c: Core, at: Rect): seq<Input>
    requires c.lastSequence + 2 <= UINT64_MAX
  {
    var located := ReceiptAt(c, 1, Leader, GeometryChanged, Some(at));
    match CommandOf(OnEvent(c, located.receipt).outcome)
    case None => [located] + []
    case Some(command) =>
      [located] + ([ResultInput(ExactResult(command))] +
                   ([ReceiptAt(c, 2, Role.Follower, GeometryChanged, Some(command.target))] + []))
  }

  function ExactResult(command: Command): OperationResult {
    OperationResult(command.session, command.operation, command.follower, Exact, Some(command.target))
  }

  // The pair is the same, and the follower stands where the leader's place puts it.
  ghost predicate Followed(c: Core, d: Core, at: Rect)
    requires Paired(c.session, c.follower, c.initialLeader)
  {
    var dx, dy := at.left - c.initialLeader.left, at.top - c.initialLeader.top;
    && Quiet(d) && d.session == c.session && d.follower == c.follower && d.initialLeader == c.initialLeader
    && d.sessionGeneration == c.sessionGeneration && d.maxPending == c.maxPending
    && d.lastSequence <= c.lastSequence + 2 && d.operationGeneration <= c.operationGeneration + 1
    && Shifted(ArmedFollower(c), d.currentFollower, dx, dy)
  }

  ghost predicate Translates(c: Core, at: Rect) {
    IsNativeRect(at) && Shifted(c.initialLeader, at, at.left - c.initialLeader.left, at.top - c.initialLeader.top)
  }

  lemma TargetExists(c: Core, at: Rect) returns (target: Rect)
    requires NativeCore(c) && InSession(c.state) && Translates(c, at)
    ensures PairTarget(c.initialLeader, ArmedFollower(c), at) == Returned(Some(target))
    ensures Shifted(ArmedFollower(c), target, at.left - c.initialLeader.left, at.top - c.initialLeader.top)
  {
    NativeNeverOverflows(c.initialLeader, at, ArmedFollower(c));
    target := PairTarget(c.initialLeader, ArmedFollower(c), at).value.value;
    PairTargetShifts(c.initialLeader, ArmedFollower(c), at, target);
  }

  // The state after a location that asks for a move.
  ghost predicate Asked(c: Core, asked: Core, target: Rect) {
    && c.operationGeneration < UINT64_MAX && c.lastSequence < UINT64_MAX
    && asked.pending == [PendingOperation(c.operationGeneration + 1, c.lastSequence + 1, target, false, false)]
    && asked == c.(lastSequence := c.lastSequence + 1, operationGeneration := c.operationGeneration + 1,
                   pending := asked.pending, stats := asked.stats)
  }

  lemma LocationAsks(c: Core, at: Rect, target: Rect)
    requires Quiet(c) && Headroom(c, 1) && PairTarget(c.initialLeader, ArmedFollower(c), at) == Returned(Some(target))
    ensures var reply := OnEvent(c, ReceiptAt(c, 1, Leader, GeometryChanged, Some(at)).receipt);
            if target == c.currentFollower then
              Decided(reply, LeaderNoOp) && reply.core == c.(lastSequence := c.lastSequence + 1, stats := reply.core.stats)
            else
              && Asked(c, reply.core, target)
              && Decided(reply, FollowerMoveRequested(Command(c.sessionGeneration, c.operationGeneration + 1,
                                                              c.lastSequence + 1, c.follower.value, target)))
  {
    LocationExactly(c, ReceiptAt(c, 1, Leader, GeometryChanged, Some(at)).receipt);
  }

  lemma ResultSettles(c: Core, asked: Core, command: Command, target: Rect)
    requires Inv(asked) && c.state.Active? && Asked(c, asked, target) && c.follower.Some?
    requires command == Command(c.sessionGeneration, c.operationGeneration + 1, c.lastSequence + 1, c.follower.value,
                                target)
    ensures OnOperationResult(asked, ExactResult(command)).core ==
            asked.(currentFollower := target, pending := [asked.pending[0].(exactRecorded := true)])
  {
    ResultExactly(asked, ExactResult(command));
    assert asked.pending[0].operation == command.operation;
    assert asked.pending[0 := asked.pending[0].(exactRecorded := true)] == [asked.pending[0].(exactRecorded := true)];
  }

  lemma EchoIsHeard(settled: Core, receipt: Receipt, target: Rect)
    requires Inv(settled) && settled.state.Active? && Hears(settled, receipt) && receipt.role.Follower?
    requires receipt.kind.GeometryChanged? && receipt.visibleRect == Some(target)
    requires |settled.pending| == 1 && settled.pending[0].expected == target && settled.pending[0].exactRecorded
    ensures var heard := OnEvent(settled, receipt).core;
            heard == settled.(lastSequence := receipt.sequence, pending := [], lastAcknowledged := Some(target),
                              stats := heard.stats)
  {
    FollowerExactly(settled, receipt);
    assert settled.pending[..0] + settled.pending[1..] == [];
  }

  lemma ResultThenEcho(c: Core, asked: Core, command: Command, target: Rect)
    requires Headroom(c, 1) && Inv(asked) && c.state.Active? && Asked(c, asked, target) && c.follower.Some?
    requires command == Command(c.sessionGeneration, c.operationGeneration + 1, c.lastSequence + 1, c.follower.value,
                                target)
    ensures var settled := OnOperationResult(asked, ExactResult(command)).core;
            var heard := OnEvent(settled, ReceiptAt(c, 2, Role.Follower, GeometryChanged, Some(target)).receipt).core;
            heard == asked.(lastSequence := c.lastSequence + 2, currentFollower := target, pending := [],
                            lastAcknowledged := Some(target), stats := heard.stats)
  {
    ResultSettles(c, asked, command, target);
    StepKeepsInv(asked, ResultInput(ExactResult(command)));
    EchoIsHeard(OnOperationResult(asked, ExactResult(command)).core,
                ReceiptAt(c, 2, Role.Follower, GeometryChanged, Some(target)).receipt, target);
  }

  lemma RunThree(c: Core, a: Input, b: Input, d: Input)
    ensures Run(c, [a] + ([b] + ([d] + []))) == Step(Step(Step(c, a).core, b).core, d).core
  {
    RunFirst(c, a, [b] + ([d] + []));
    RunFirst(Step(c, a).core, b, [d] + []);
    RunFirst(Step(Step(c, a).core, b).core, d, []);
  }

  lemma MoveIsFollowed(c: Core, at: Rect)
    requires Quiet(c) && Headroom(c, 1) && Translates(c, at)
    ensures Followed(c, Run(c, MoveInputs(c, at)), at)
  {
    var target := TargetExists(c, at);
    var located := ReceiptAt(c, 1, Leader, GeometryChanged, Some(at));
    var reply := OnEvent(c, located.receipt);
    LocationAsks(c, at, target);
    RunKeepsInv(c, MoveInputs(c, at));
    if target == c.currentFollower {
      RunFirst(c, located, []);
    } else {
      var command := Command(c.sessionGeneration, c.operationGeneration + 1, c.lastSequence + 1, c.follower.value, target);
      StepKeepsInv(c, located);
      ResultThenEcho(c, reply.core, command, target);
      RunThree(c, located, ResultInput(ExactResult(command)),
               ReceiptAt(c, 2, Role.Follower, GeometryChanged, Some(target)));
    }
  }

  // --- The whole drag ---

  ghost function DragInputs(c: Core, places: seq<Rect>): seq<Input>
    decreases |places|
  {
    if places == [] || c.lastSequence + 2 > UINT64_MAX then []
    else
      var move := MoveInputs(c, places[0]);
      move + DragInputs(Run(c, move), places[1..])
  }

  lemma {:induction false} RunJoins(c: Core, before: seq<Input>, after: seq<Input>)
    ensures Run(c, before + after) == Run(Run(c, before), after)
    decreases |before|
  {
    if before == [] {
      assert before + after == after;
    } else {
      var next, joined := Step(c, before[0]).core, before + after;
      assert joined[0] == before[0] && joined[1..] == before[1..] + after;
      RunJoins(next, before[1..], after);
      assert Run(c, joined) == Run(next, joined[1..]);
      assert Run(c, before) == Run(next, before[1..]);
    }
  }

  // The same pair, quiet again, with the follower where the leader's place puts it.
  ghost predicate Arrived(c: Core, d: Core, at: Rect)
    requires Paired(c.session, c.follower, c.initialLeader)
  {
    && Quiet(d) && d.session == c.session && d.follower == c.follower && d.initialLeader == c.initialLeader
    && Headroom(d, 0)
    && Shifted(ArmedFollower(c), d.currentFollower, at.left - c.initialLeader.left, at.top - c.initialLeader.top)
  }

  lemma FollowedHasHeadroom(c: Core, d: Core, at: Rect, moves: nat)
    requires Paired(c.session, c.follower, c.initialLeader) && Followed(c, d, at) && Headroom(c, moves + 1)
    ensures Headroom(d, moves)
  {
  }

  lemma ArrivedThrough(c: Core, next: Core, d: Core, first: Rect, at: Rect)
    requires Paired(c.session, c.follower, c.initialLeader) && Followed(c, next, first) && Arrived(next, d, at)
    ensures Arrived(c, d, at)
  {
  }

  lemma FirstPlace(c: Core, places: seq<Rect>)
    requires Quiet(c) && places != [] && Headroom(c, |places|) && Translates(c, places[0])
    ensures var next := Run(c, MoveInputs(c, places[0]));
            && Followed(c, next, places[0]) && Headroom(next, |places| - 1)
            && Run(c, DragInputs(c, places)) == Run(next, DragInputs(next, places[1..]))
  {
    MoveIsFollowed(c, places[0]);
    var next := Run(c, MoveInputs(c, places[0]));
    RunJoins(c, MoveInputs(c, places[0]), DragInputs(next, places[1..]));
    FollowedHasHeadroom(c, next, places[0], |places| - 1);
  }

  lemma RestTranslates(c: Core, next: Core, places: seq<Rect>)
    requires next.initialLeader == c.initialLeader && forall k | 0 <= k < |places| :: Translates(c, places[k])
    ensures forall k | 0 <= k < |places| - 1 :: Translates(next, places[1..][k])
  {
  }

  // Where the follower is after the leader has been at all the places.
  lemma {:induction false} DragIsFollowed(c: Core, places: seq<Rect>)
    requires Quiet(c) && places != [] && Headroom(c, |places|)
    requires forall k | 0 <= k < |places| :: Translates(c, places[k])
    ensures Arrived(c, Run(c, DragInputs(c, places)), places[|places| - 1])
    decreases |places|
  {
    var next, rest := Run(c, MoveInputs(c, places[0])), places[1..];
    FirstPlace(c, places);
    if rest != [] {
      RestTranslates(c, next, places);
      DragIsFollowed(next, rest);
      ArrivedThrough(c, next, Run(next, DragInputs(next, rest)), places[0], rest[|rest| - 1]);
    }
  }

  function StartInput(c: Core): Input
    requires c.lastSequence < UINT64_MAX
  {
    ReceiptAt(c, 1, Leader, MoveResizeStarted, None)
  }

  function FinishInputs(c: Core, at: Rect): seq<Input>
    requires c.lastSequence < UINT64_MAX
  {
    [ReceiptAt(c, 1, Leader, MoveResizeEnded, Some(at))] +
    ([CompleteInput(FinalSnapshot(c.sessionGeneration, at, c.currentFollower))] + [])
  }

  lemma EndMoves(c: Core, receipt: Receipt, at: Rect, delta: TranslationDelta)
    requires c.state.Active? && Hears(c, receipt) && receipt.role.Leader? && receipt.kind.MoveResizeEnded?
    requires receipt.visibleRect == Some(at) && ExtentsFit(c.initialLeader)
    requires delta != NO_MOVE && Shifted(c.initialLeader, at, delta.dx, delta.dy)
    ensures OnEvent(c, receipt).core ==
            c.(lastSequence := receipt.sequence, state := State.Completing, finalLeader := Some(at),
               stats := c.stats.(leaderEnds := c.stats.leaderEnds + 1))
  {
    EndExactly(c, receipt);
    assert MovedBy(c, at);
  }

  lemma EndedCompletes(c: Core, at: Rect)
    requires Inv(c) && NativeCore(c) && c.state.Completing? && c.pending == [] && c.finalLeader == Some(at)
    requires Translates(c, at)
    requires Shifted(ArmedFollower(c), c.currentFollower, at.left - c.initialLeader.left, at.top - c.initialLeader.top)
    ensures Complete(c, FinalSnapshot(c.sessionGeneration, at, c.currentFollower)).core ==
            c.(state := State.Completed, pending := [])
  {
    var target := TargetExists(c, at);
    CompletesExactly(c, FinalSnapshot(c.sessionGeneration, at, c.currentFollower));
  }

  lemma RunTwo(c: Core, a: Input, b: Input)
    ensures Run(c, [a] + ([b] + [])) == Step(Step(c, a).core, b).core
  {
    RunFirst(c, a, [b] + []);
    RunFirst(Step(c, a).core, b, []);
  }

  lemma FinishCompletes(c: Core, at: Rect)
    requires Quiet(c) && Headroom(c, 0) && Translates(c, at) && at != c.initialLeader
    requires Shifted(ArmedFollower(c), c.currentFollower, at.left - c.initialLeader.left, at.top - c.initialLeader.top)
    ensures var done := Run(c, FinishInputs(c, at));
            && done.state.Completed? && done.finalLeader == Some(at) && done.currentFollower == c.currentFollower
            && done.stats.reconciled == c.stats.reconciled
  {
    var ending := ReceiptAt(c, 1, Leader, MoveResizeEnded, Some(at));
    var delta := TranslationDelta(at.left - c.initialLeader.left, at.top - c.initialLeader.top);
    EndMoves(c, ending.receipt, at, delta);
    StepKeepsInv(c, ending);
    EndedCompletes(OnEvent(c, ending.receipt).core, at);
    RunTwo(c, ending, CompleteInput(FinalSnapshot(c.sessionGeneration, at, c.currentFollower)));
  }

  // The leader starts, is at the places one after the other, and ends at the last one.
  ghost function WholeDrag(c: Core, places: seq<Rect>): seq<Input>
    requires places != [] && c.lastSequence < UINT64_MAX
  {
    var started := Step(c, StartInput(c)).core;
    var moved := Run(started, DragInputs(started, places));
    [StartInput(c)] +
    (DragInputs(started, places) +
     if moved.lastSequence < UINT64_MAX then FinishInputs(moved, places[|places| - 1]) else [])
  }

  // From any armed session: a drag over any native places, without a resize and ending
  // elsewhere than it began, with every command executed exactly and echoed, is completed
  // with the follower moved as the leader was.
  lemma UndisturbedDragCompletes(maxPending: nat, before: seq<Input>, places: seq<Rect>)
    requires maxPending >= 1 && places != []
    requires var c := Run(Initial(maxPending), before);
             && c.state.Armed? && NativeCore(c)
             && c.operationGeneration + |places| <= UINT64_MAX && c.lastSequence + 2 * |places| + 2 <= UINT64_MAX
             && (forall k | 0 <= k < |places| :: Translates(c, places[k])) && places[|places| - 1] != c.initialLeader
    ensures var c := Run(Initial(maxPending), before);
            var done := Run(c, WholeDrag(c, places));
            var last := places[|places| - 1];
            && done.state.Completed? && done.finalLeader == Some(last)
            && Shifted(ArmedFollower(c), done.currentFollower, last.left - c.initialLeader.left,
                       last.top - c.initialLeader.top)
  {
    var c := Run(Initial(maxPending), before);
    ReachableInv(maxPending, before);
    RunKeepsRoom(Initial(maxPending), before);
    ArmedIsEmpty(c);
    StartExactly(c, StartInput(c).receipt);
    StepKeepsInv(c, StartInput(c));
    var started := Step(c, StartInput(c)).core;
    forall k | 0 <= k < |places| ensures Translates(started, places[k]) {
      assert Translates(c, places[k]);
    }
    DragIsFollowed(started, places);
    var moved := Run(started, DragInputs(started, places));
    assert Translates(moved, places[|places| - 1]) by {
      assert Translates(started, places[|places| - 1]);
    }
    FinishCompletes(moved, places[|places| - 1]);
    RunJoins(started, DragInputs(started, places), FinishInputs(moved, places[|places| - 1]));
    RunFirst(c, StartInput(c), DragInputs(started, places) + FinishInputs(moved, places[|places| - 1]));
  }

  lemma ArmedIsEmpty(c: Core)
    requires LedgerOk(c) && c.state.Armed?
    ensures c.pending == []
  {
  }

  lemma StepKeepsRoom(c: Core, input: Input)
    ensures Step(c, input).core.maxPending == c.maxPending
  {
  }

  lemma {:induction false} RunKeepsRoom(c: Core, inputs: seq<Input>)
    ensures Run(c, inputs).maxPending == c.maxPending
    decreases |inputs|
  {
    if inputs != [] {
      StepKeepsRoom(c, inputs[0]);
      RunKeepsRoom(Step(c, inputs[0]).core, inputs[1..]);
    }
  }

  // --- Feedback that never came ---

  function EndIn(): Input {
    EventInput(Receipt(1, 3, Role.Leader, MoveResizeEnded, Some(MOVED_ONCE)))
  }

  function SnapshotIn(): Input {
    CompleteInput(FinalSnapshot(1, MOVED_ONCE, FOLLOWER_AT))
  }

  lemma EndReconciles(c: Core)
    requires Inv(c) && c.state.Completing? && c.sessionGeneration == 1 && c.session == ArmedPair().session
    requires c.follower == Some("B") && c.initialLeader == LEADER_ARMED && c.finalLeader == Some(MOVED_ONCE)
    requires c.currentFollower == FOLLOWER_AT && AllExact(c.pending)
    ensures Step(c, SnapshotIn()).core ==
            c.(state := State.Completed, pending := [],
               stats := c.stats.(missing := c.stats.missing + |c.pending|,
                                 reconciled := c.stats.reconciled + |c.pending|))
  {
    PairTargets(c, MOVED_ONCE, 1);
    FollowerTargetIsPairTarget(c, MOVED_ONCE);
    CompletesExactly(c, SnapshotIn().snapshot);
  }

  function Reconciled(): Core {
    Awaiting().(lastSequence := 3, state := State.Completed, finalLeader := Some(MOVED_ONCE), pending := [],
                stats := AWAITING_STATS.(leaderEnds := 1, missing := 1, reconciled := 1))
  }

  lemma EndThenSnapshot(c: Core)
    requires Inv(c) && c.state.Active? && c.sessionGeneration == 1 && c.lastSequence == 2
    requires c.session == ArmedPair().session && c.follower == Some("B") && c.initialLeader == LEADER_ARMED
    requires c.currentFollower == FOLLOWER_AT && AllExact(c.pending)
    ensures Step(Step(c, EndIn()).core, SnapshotIn()).core ==
            c.(lastSequence := 3, state := State.Completed, finalLeader := Some(MOVED_ONCE), pending := [],
               stats := c.stats.(leaderEnds := c.stats.leaderEnds + 1, missing := c.stats.missing + |c.pending|,
                                 reconciled := c.stats.reconciled + |c.pending|))
  {
    EndMoves(c, EndIn().receipt, MOVED_ONCE, TranslationDelta(1, 0));
    StepKeepsInv(c, EndIn());
    EndReconciles(Step(c, EndIn()).core);
  }

  lemma AwaitingEnds()
    ensures Step(Step(Awaiting(), EndIn()).core, SnapshotIn()).core == Reconciled()
  {
    AwaitingFacts();
    EndThenSnapshot(Awaiting());
  }

  lemma RunSix(c0: Core, c1: Core, c2: Core, c3: Core, c4: Core, c6: Core, i0: Input, i1: Input, i2: Input, i3: Input,
               i4: Input, i5: Input)
    requires Step(c0, i0).core == c1 && Step(c1, i1).core == c2 && Step(c2, i2).core == c3 && Step(c3, i3).core == c4
    requires Step(Step(c4, i4).core, i5).core == c6
    ensures Run(c0, [i0] + ([i1] + ([i2] + ([i3] + ([i4] + ([i5] + [])))))) == c6
  {
    RunTwo(c4, i4, i5);
    RunFirst(c3, i3, [i4] + ([i5] + []));
    RunFirst(c2, i2, [i3] + ([i4] + ([i5] + [])));
    RunFirst(c1, i1, [i2] + ([i3] + ([i4] + ([i5] + []))));
    RunFirst(c0, i0, [i1] + ([i2] + ([i3] + ([i4] + ([i5] + [])))));
  }

  // The command was executed exactly and its echo has not arrived: the session completes
  // all the same, and the echo is reconciled.
  lemma MissingFeedbackIsReconciled()
    ensures Run(Initial(1), [ArmInput(PairGraph(), "A", "B")] + ([StartIn()] + ([LocationIn()] + ([ResultIn()] +
                            ([EndIn()] + ([SnapshotIn()] + [])))))) == Reconciled()
    ensures Reconciled().state.Completed? && Reconciled().stats.reconciled == 1 && Reconciled().stats.feedback == 0
  {
    PairIsArmed();
    StartStarts();
    LocationCommands();
    ResultIsRecorded();
    AwaitingEnds();
    RunSix(Initial(1), ArmedPair(), MovingOff(), Commanded(), Awaiting(), Reconciled(),
           ArmInput(PairGraph(), "A", "B"), StartIn(), LocationIn(), ResultIn(), EndIn(), SnapshotIn());
  }
}
