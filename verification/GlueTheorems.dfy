/** What the coordinator promises over whole runs. */
module GlueTheorems {
  import opened Wrappers
  import opened Geometry
  import opened Translation
  import opened WindowAdjacency
  import opened AdjacencyGraph
  import opened Connectivity
  import opened TranslationSession
  import opened GlueMove
  import opened GlueInvariants

  // --- Arming: exactly when the pair is the whole graph ---

  ghost predicate IsPairGraph(g: Graph, leader: WindowId, follower: WindowId) {
    && leader != follower && |g.windows| == 2 && |g.relations| == 1
    && Knows(g.windows, leader) && Knows(g.windows, follower)
  }

  lemma AdjacencyJoins(a: WindowGeometry, b: WindowGeometry, tolerance: Distance)
    requires Adjacency(a, b, tolerance).Returned? && Adjacency(a, b, tolerance).value.Some?
    ensures Joins(Adjacency(a, b, tolerance).value.value, a.id, b.id)
  {
  }

  // The one relation of a two-window graph is the adjacency of its two windows.
  lemma PairRelation(g: Graph, tolerance: Distance)
    requires |g.windows| == 2 && |g.relations| == 1 && HasRelations(g, tolerance)
    ensures Adjacency(g.windows[0], g.windows[1], tolerance) == Returned(Some(g.relations[0]))
  {
    assert RelationsFrom(g.windows, 1, 2, tolerance) == Returned([]);
    assert RelationsFrom(g.windows, 0, 2, tolerance) == Returned([]);
  }

  lemma PairComponent(g: Graph, leader: WindowId, follower: WindowId)
    requires Valid(g) && IsPairGraph(g, leader, follower)
    ensures Component(g, leader) == g.windows
  {
    var tolerance: Distance :| HasRelations(g, tolerance);
    PairRelation(g, tolerance);
    AdjacencyJoins(g.windows[0], g.windows[1], tolerance);
    assert Joins(g.relations[0], leader, follower);
    ReachableReflexive(g, leader);
    ReachableStep(g, leader, leader, follower);
    var tail := g.windows[1..];
    assert tail == [g.windows[1]] && tail[1..] == [];
    assert ReachableWindows(g, leader, tail) == tail;
  }

  lemma PairPlanUnchanged(g: Graph, leader: WindowId, follower: WindowId)
    requires Valid(g) && IsPairGraph(g, leader, follower)
    ensures Planned(Session(leader, RectOf(g.windows, leader), g.windows), RectOf(g.windows, leader)) ==
            Returned(Some([PlannedTranslation(follower, RectOf(g.windows, follower))]))
  {
    var tail := g.windows[1..];
    assert tail == [g.windows[1]] && tail[1..] == [];
    IdLessTotal(g.windows[0].id, g.windows[1].id);
    RectOfAt(g.windows, 0);
    RectOfAt(g.windows, 1);
    var other := if g.windows[0].id == leader then g.windows[1] else g.windows[0];
    assert Followers(leader, tail) == if g.windows[1].id == leader then [] else [g.windows[1]];
    assert Followers(leader, g.windows) == [other];
    TargetsOfPair(leader, g.windows, Unchanged, other);
  }

  // From a resting state with generations left, arming succeeds exactly for a
  // graph that consists of the two windows and one relation; nothing throws,
  // and the later component and plan checks never decide the answer.
  lemma ArmSucceedsExactly(c: Core, g: Graph, leader: WindowId, follower: WindowId)
    requires Valid(g)
    requires c.state.Idle? || Terminal(c.state)
    requires c.sessionGeneration < UINT64_MAX
    ensures Arm(c, g, leader, follower).outcome ==
            if IsPairGraph(g, leader, follower) then Returned(Decision.Armed)
            else Returned(Decision.Aborted(InvalidTopology))
  {
    if IsPairGraph(g, leader, follower) {
      PairComponent(g, leader, follower);
      PairPlanUnchanged(g, leader, follower);
      assert Ids(g.windows)[0] == g.windows[0].id && Ids(g.windows)[1] == g.windows[1].id;
    }
  }

  // What arming leaves behind: a new session that has frozen the whole pair graph.
  lemma ArmedState(c: Core, g: Graph, leader: WindowId, follower: WindowId)
    requires Valid(g) && IsPairGraph(g, leader, follower)
    requires c.state.Idle? || Terminal(c.state)
    requires c.sessionGeneration < UINT64_MAX
    ensures var (l, f) := (RectOf(g.windows, leader), RectOf(g.windows, follower));
            Arm(c, g, leader, follower).core ==
            Core(c.maxPending, State.Armed, c.sessionGeneration + 1, c.operationGeneration, 0, None, NO_STATS,
                 Some(Session(leader, l, g.windows)), Some(follower), l, f, None, None, [])
  {
    PairComponent(g, leader, follower);
    PairPlanUnchanged(g, leader, follower);
    assert Ids(g.windows)[0] == g.windows[0].id && Ids(g.windows)[1] == g.windows[1].id;
  }

  // --- Completion: a rigid move of the armed pair ---

  predicate NoArming(inputs: seq<Input>) {
    forall k | 0 <= k < |inputs| :: !inputs[k].ArmInput?
  }

  lemma {:induction false} RunKeepsPair(c: Core, inputs: seq<Input>)
    requires NoArming(inputs)
    ensures SamePair(c, Run(c, inputs))
    decreases |inputs|
  {
    if inputs != [] {
      OthersKeepPair(c, inputs[0]);
      RunKeepsPair(Step(c, inputs[0]).core, inputs[1..]);
    }
  }

  // A successful target is the armed follower moved exactly as the leader was.
  lemma PairTargetShifts(leader: Rect, follower: Rect, leaderNow: Rect, target: Rect)
    requires PairTarget(leader, follower, leaderNow) == Returned(Some(target))
    ensures var dx, dy := leaderNow.left - leader.left, leaderNow.top - leader.top;
            Shifted(leader, leaderNow, dx, dy) && Shifted(follower, target, dx, dy)
  {
    var change := ClassifyGeometryChange(leader, leaderNow).value;
    if change.Translated? {
      ClassifyInvertsTranslate(follower, target, change.delta);
    }
  }

  // A completed state shows the pair moved by one nonzero displacement.
  lemma CompletedIsRigid(c: Core)
    requires Inv(c) && c.state.Completed?
    ensures var dx, dy := c.finalLeader.value.left - c.initialLeader.left, c.finalLeader.value.top - c.initialLeader.top;
            && (dx != 0 || dy != 0)
            && Shifted(c.initialLeader, c.finalLeader.value, dx, dy)
            && Shifted(ArmedFollower(c), c.currentFollower, dx, dy)
  {
    PairTargetShifts(c.initialLeader, ArmedFollower(c), c.finalLeader.value, c.currentFollower);
  }

  // In every reachable completed state, and for every tolerance, the final pair is
  // as adjacent as the armed pair was: same edges, gap and overlap.
  lemma CompletedKeepsAdjacency(maxPending: nat, inputs: seq<Input>, tolerance: Distance)
    requires Run(Initial(maxPending), inputs).state.Completed?
    ensures var c := Run(Initial(maxPending), inputs);
            && Paired(c.session, c.follower, c.initialLeader) && c.finalLeader.Some?
            && var (l, f) := (c.session.value.leader, c.follower.value);
               Adjacency(WindowGeometry(l, c.finalLeader.value), WindowGeometry(f, c.currentFollower), tolerance) ==
               Adjacency(WindowGeometry(l, c.initialLeader), WindowGeometry(f, ArmedFollower(c)), tolerance)
  {
    ReachableInv(maxPending, inputs);
    var c := Run(Initial(maxPending), inputs);
    CompletedIsRigid(c);
    var dx, dy := c.finalLeader.value.left - c.initialLeader.left, c.finalLeader.value.top - c.initialLeader.top;
    AdjacencyTranslationInvariant(WindowGeometry(c.session.value.leader, c.initialLeader),
                                  WindowGeometry(c.follower.value, ArmedFollower(c)), tolerance,
                                  c.finalLeader.value, c.currentFollower, dx, dy);
  }

  lemma CompletedSnapshot(c: Core, snapshot: FinalSnapshot)
    requires Inv(c) && Complete(c, snapshot).outcome == Returned(Decision.Completed)
    ensures var done := Complete(c, snapshot).core;
            && done.state.Completed? && done.finalLeader == Some(snapshot.leader)
            && done.currentFollower == snapshot.follower
  {
  }

  // Whatever came before arming and whatever inputs came after it: when the
  // session completes, both windows have moved by one nonzero displacement and
  // face each other by exactly the relation the armed graph recorded.
  lemma CompletedRunKeepsRelation(maxPending: nat, before: seq<Input>, g: Graph, leader: WindowId, follower: WindowId,
                                  during: seq<Input>, snapshot: FinalSnapshot, tolerance: Distance)
    requires Valid(g) && HasRelations(g, tolerance) && NoArming(during)
    requires Arm(Run(Initial(maxPending), before), g, leader, follower).outcome == Returned(Decision.Armed)
    requires var armed := Arm(Run(Initial(maxPending), before), g, leader, follower).core;
             Complete(Run(armed, during), snapshot).outcome == Returned(Decision.Completed)
    ensures var (l, f) := (RectOf(g.windows, leader), RectOf(g.windows, follower));
            && (exists dx, dy :: (dx != 0 || dy != 0) &&
                  Shifted(l, snapshot.leader, dx, dy) && Shifted(f, snapshot.follower, dx, dy))
            && |g.relations| == 1
            && Adjacency(WindowGeometry(leader, snapshot.leader), WindowGeometry(follower, snapshot.follower), tolerance) ==
               Returned(Some(g.relations[0]))
  {
    var start := Run(Initial(maxPending), before);
    var armed := Arm(start, g, leader, follower).core;
    var c := Run(armed, during);
    var done := Complete(c, snapshot).core;
    ReachableInv(maxPending, before);
    StepKeepsInv(start, ArmInput(g, leader, follower));
    RunKeepsInv(armed, during);
    StepKeepsInv(c, CompleteInput(snapshot));
    ArmFreezesPair(start, g, leader, follower);
    RunKeepsPair(armed, during);
    OthersKeepPair(c, CompleteInput(snapshot));
    CompletedSnapshot(c, snapshot);
    CompletedIsRigid(done);
    ArmedPairIsGraph(start, g, leader, follower, tolerance);
    var (l, f) := (RectOf(g.windows, leader), RectOf(g.windows, follower));
    var dx, dy := snapshot.leader.left - l.left, snapshot.leader.top - l.top;
    assert Shifted(l, snapshot.leader, dx, dy) && Shifted(f, snapshot.follower, dx, dy);
    AdjacencyTranslationInvariant(WindowGeometry(leader, l), WindowGeometry(follower, f), tolerance,
                                  snapshot.leader, snapshot.follower, dx, dy);
  }

  lemma ArmedPairIsGraph(c: Core, g: Graph, leader: WindowId, follower: WindowId, tolerance: Distance)
    requires Valid(g) && HasRelations(g, tolerance)
    requires Arm(c, g, leader, follower).outcome == Returned(Decision.Armed)
    ensures |g.relations| == 1
    ensures Adjacency(WindowGeometry(leader, RectOf(g.windows, leader)),
                      WindowGeometry(follower, RectOf(g.windows, follower)), tolerance) ==
            Returned(Some(g.relations[0]))
  {
    PairRelation(g, tolerance);
    RectOfAt(g.windows, 0);
    RectOfAt(g.windows, 1);
    AdjacencySymmetric(g.windows[0], g.windows[1], tolerance);
  }

  // --- The ledger never confuses two pending operations ---

  // In every reachable state an incoming receipt from the follower matches at
  // most one pending operation, so feedback is never ambiguous.
  lemma FeedbackNeverAmbiguous(maxPending: nat, inputs: seq<Input>, receipt: Receipt)
    requires receipt.role.Follower?
    ensures OnEvent(Run(Initial(maxPending), inputs), receipt).outcome !=
            Returned(Decision.Aborted(AmbiguousFollowerFeedback))
  {
    ReachableInv(maxPending, inputs);
    var c := Run(Initial(maxPending), inputs);
    if receipt.visibleRect.Some? {
      FeedbackMatchesOnce(c, receipt.visibleRect.value);
    }
  }

  lemma FeedbackMatchesOnce(c: Core, rect: Rect)
    requires LedgerOk(c)
    ensures var found := FindExpecting(c.pending, rect, 0);
            found.Some? ==> FindExpecting(c.pending, rect, found.value + 1).None?
  {
  }

  // --- Commands: where they come from and where they lead ---

  function CommandOf(outcome: Outcome<Decision>): Option<Command> {
    if outcome.Returned? && outcome.value.FollowerMoveRequested? then Some(outcome.value.command) else None
  }

  // Every command the coordinator issues while it handles the inputs.
  ghost function Commands(c: Core, inputs: seq<Input>): seq<Command>
    decreases |inputs|
  {
    if inputs == [] then []
    else
      var reply := Step(c, inputs[0]);
      var command := CommandOf(reply.outcome);
      (if command.Some? then [command.value] else []) + Commands(reply.core, inputs[1..])
  }

  // A command answers a leader location in an active session. Its target is
  // decided by the armed pair and that location alone, and is a real move.
  ghost predicate CommandOrigin(c: Core, input: Input, command: Command) {
    && input.EventInput? && input.receipt.role.Leader? && input.receipt.kind.GeometryChanged?
    && c.state.Active? && input.receipt.visibleRect.Some?
    && Paired(c.session, c.follower, c.initialLeader)
    && PairTarget(c.initialLeader, ArmedFollower(c), input.receipt.visibleRect.value) == Returned(Some(command.target))
    && command.target != c.currentFollower
    && command.session == c.sessionGeneration && command.follower == c.follower.value
    && command.sourceSequence == input.receipt.sequence
  }

  lemma LeaderCommand(c: Core, receipt: Receipt)
    requires PairOk(c)
    ensures var reply := OnLeaderEvent(c, receipt);
            match CommandOf(reply.outcome)
            case None => reply.core.operationGeneration == c.operationGeneration
            case Some(command) =>
              && reply.core.operationGeneration == c.operationGeneration + 1 == command.operation
              && (receipt.role.Leader? ==> CommandOrigin(c, EventInput(receipt), command))
  {
    if receipt.kind.GeometryChanged? && c.state.Active? && receipt.visibleRect.Some? {
      FollowerTargetIsPairTarget(c, receipt.visibleRect.value);
    }
  }

  // What a reply says about commands: none was issued, or the one whose origin it is.
  ghost predicate CommandAccounted(c: Core, input: Input, reply: Reply) {
    match CommandOf(reply.outcome)
    case None => reply.core.operationGeneration == c.operationGeneration
    case Some(command) =>
      && reply.core.operationGeneration == c.operationGeneration + 1 == command.operation
      && CommandOrigin(c, input, command)
  }

  lemma FollowerGivesNoCommand(c: Core, receipt: Receipt)
    ensures var reply := OnFollowerEvent(c, receipt);
            CommandOf(reply.outcome).None? && reply.core.operationGeneration == c.operationGeneration
  {
  }

  lemma EventCommand(c: Core, receipt: Receipt)
    requires PairOk(c)
    ensures CommandAccounted(c, EventInput(receipt), OnEvent(c, receipt))
  {
    var seen := c.(lastSequence := receipt.sequence);
    match receipt.role
    case Leader => LeaderCommand(seen, receipt);
    case Follower => FollowerGivesNoCommand(seen, receipt);
    case Unrelated =>
  }

  lemma ResultGivesNoCommand(c: Core, result: OperationResult)
    ensures CommandAccounted(c, ResultInput(result), OnOperationResult(c, result))
  {
  }

  lemma OthersGiveNoCommand(c: Core, input: Input)
    requires input.ArmInput? || input.CompleteInput? || input.ReportInput?
    ensures CommandAccounted(c, input, Step(c, input))
  {
  }

  lemma StepCommand(c: Core, input: Input)
    requires PairOk(c)
    ensures CommandAccounted(c, input, Step(c, input))
  {
    match input
    case EventInput(receipt) => EventCommand(c, receipt);
    case ResultInput(result) => ResultGivesNoCommand(c, result);
    case _ => OthersGiveNoCommand(c, input);
  }

  // In every reachable state, a command has one possible origin.
  lemma CommandsComeFromTheLeader(maxPending: nat, inputs: seq<Input>, input: Input, command: Command)
    requires Step(Run(Initial(maxPending), inputs), input).outcome == Returned(FollowerMoveRequested(command))
    ensures CommandOrigin(Run(Initial(maxPending), inputs), input, command)
  {
    ReachableInv(maxPending, inputs);
    StepCommand(Run(Initial(maxPending), inputs), input);
  }

  ghost predicate IncreasingAbove(commands: seq<Command>, floor: UInt64) {
    && (forall k | 0 <= k < |commands| :: commands[k].operation > floor)
    && (forall j, k | 0 <= j < k < |commands| :: commands[j].operation < commands[k].operation)
  }

  lemma IncreasingCons(command: Command, commands: seq<Command>, floor: UInt64)
    requires command.operation > floor && IncreasingAbove(commands, command.operation)
    ensures IncreasingAbove([command] + commands, floor)
  {
  }

  lemma CommandGoesFirst(c: Core, input: Input, rest: seq<Command>)
    requires PairOk(c) && IncreasingAbove(rest, Step(c, input).core.operationGeneration)
    ensures var command := CommandOf(Step(c, input).outcome);
            IncreasingAbove((if command.Some? then [command.value] else []) + rest, c.operationGeneration)
  {
    StepCommand(c, input);
    match CommandOf(Step(c, input).outcome)
    case None => assert [] + rest == rest;
    case Some(command) => IncreasingCons(command, rest, c.operationGeneration);
  }

  // Operation generations strictly increase over the whole life of a
  // coordinator, across all its sessions.
  lemma {:induction false} CommandsIncrease(c: Core, inputs: seq<Input>)
    requires Inv(c)
    ensures IncreasingAbove(Commands(c, inputs), c.operationGeneration)
    decreases |inputs|
  {
    if inputs != [] {
      var next := Step(c, inputs[0]).core;
      StepKeepsInv(c, inputs[0]);
      CommandsIncrease(next, inputs[1..]);
      CommandGoesFirst(c, inputs[0], Commands(next, inputs[1..]));
    }
  }

  // The state after a leader location, once a command it caused has been
  // executed exactly.
  function Settled(reply: Reply): Core {
    match CommandOf(reply.outcome)
    case None => reply.core
    case Some(command) =>
      OnOperationResult(reply.core, OperationResult(command.session, command.operation, command.follower, Exact,
                                                    Some(command.target))).core
  }

  lemma FindPushed(pending: seq<PendingOperation>, maxPending: nat, last: UInt64, entry: PendingOperation)
    requires Ledger(pending, maxPending, last) && entry.operation > last
    ensures FindOperation(pending + [entry], entry.operation, 0) == Some(|pending|)
  {
    var pushed := pending + [entry];
    assert pushed[|pending|] == entry;
  }

  // No drift: after a leader location that did not abort, and the exact answer
  // to its command, the follower stands where the armed pair and this location
  // put it, whatever path led there.
  lemma MoveSettles(c: Core, sequence: UInt64, target: Rect)
    requires LedgerOk(c) && c.state.Active? && c.follower.Some?
    requires var outcome := MoveFollower(c, sequence, target).outcome;
             outcome.Returned? && (outcome.value.LeaderNoOp? || outcome.value.FollowerMoveRequested?)
    ensures var settled := Settled(MoveFollower(c, sequence, target));
            settled.state.Active? && settled.currentFollower == target
  {
    var reply := MoveFollower(c, sequence, target);
    if reply.outcome.value.FollowerMoveRequested? {
      FindPushed(c.pending, c.maxPending, c.operationGeneration,
                 PendingOperation(c.operationGeneration + 1, sequence, target, false, false));
    }
  }

  lemma LocationSettles(c: Core, receipt: Receipt)
    requires Inv(c) && receipt.role.Leader? && receipt.kind.GeometryChanged?
    requires var outcome := OnEvent(c, receipt).outcome;
             outcome.Returned? && (outcome.value.LeaderNoOp? || outcome.value.FollowerMoveRequested?)
    ensures var settled := Settled(OnEvent(c, receipt));
            && settled.state.Active? && Paired(c.session, c.follower, c.initialLeader) && receipt.visibleRect.Some?
            && PairTarget(c.initialLeader, ArmedFollower(c), receipt.visibleRect.value) ==
               Returned(Some(settled.currentFollower))
  {
    var seen := c.(lastSequence := receipt.sequence,
                   stats := c.stats.(leaderLocations := c.stats.leaderLocations + 1));
    assert OnEvent(c, receipt) == PlanFollower(seen, receipt.sequence, receipt.visibleRect.value);
    FollowerTargetIsPairTarget(seen, receipt.visibleRect.value);
    MoveSettles(seen, receipt.sequence, FollowerTarget(seen, receipt.visibleRect.value).value.value);
  }

  // --- Native coordinates: nothing ever throws ---

  predicate IsNativeOption(rect: Option<Rect>) {
    rect.Some? ==> IsNativeRect(rect.value)
  }

  ghost predicate NativeInput(input: Input) {
    match input
    case ArmInput(g, _, _) => forall w | w in g.windows :: IsNativeRect(w.visibleRect)
    case EventInput(receipt) => IsNativeOption(receipt.visibleRect)
    case ResultInput(_) => true
    case CompleteInput(snapshot) => IsNativeRect(snapshot.leader)
    case ReportInput(_, _) => true
  }

  ghost predicate NativeCore(c: Core) {
    InSession(c.state) ==>
      && Paired(c.session, c.follower, c.initialLeader)
      && IsNativeRect(c.initialLeader) && IsNativeRect(ArmedFollower(c))
  }

  lemma {:induction false} RectOfNative(windows: seq<WindowGeometry>, id: WindowId)
    requires forall w | w in windows :: IsNativeRect(w.visibleRect)
    ensures IsNativeRect(RectOf(windows, id))
  {
    if windows != [] {
      RectOfNative(windows[1..], id);
    }
  }

  lemma ArmPairNeverThrows(begun: Core, g: Graph, leader: WindowId, follower: WindowId)
    requires Knows(g.windows, leader)
    ensures var reply := ArmPair(begun, g, leader, follower);
            reply.outcome.Returned? && (InSession(reply.core.state) ==> reply.outcome.value.Armed?)
  {
    UnchangedNeverThrows(leader, Created(g, leader).value.initialComponent);
  }

  lemma ArmNeverThrows(c: Core, g: Graph, leader: WindowId, follower: WindowId)
    ensures var reply := Arm(c, g, leader, follower);
            reply.outcome.Returned? && (InSession(reply.core.state) ==> reply.outcome.value.Armed?)
  {
    if Knows(g.windows, leader) && c.sessionGeneration < UINT64_MAX {
      ArmPairNeverThrows(Reset(c).(sessionGeneration := c.sessionGeneration + 1), g, leader, follower);
    }
  }

  lemma NativeArm(c: Core, g: Graph, leader: WindowId, follower: WindowId)
    requires forall w | w in g.windows :: IsNativeRect(w.visibleRect)
    ensures Arm(c, g, leader, follower).outcome.Returned? && NativeCore(Arm(c, g, leader, follower).core)
  {
    ArmNeverThrows(c, g, leader, follower);
    if Arm(c, g, leader, follower).outcome.value.Armed? {
      ArmFreezesPair(c, g, leader, follower);
      RectOfNative(g.windows, leader);
      RectOfNative(g.windows, follower);
    }
  }

  lemma {:induction false} UnchangedNeverThrows(leader: WindowId, windows: seq<WindowGeometry>)
    ensures TargetsOf(leader, windows, Unchanged).Returned?
  {
    if windows != [] {
      UnchangedNeverThrows(leader, windows[1..]);
    }
  }

  lemma NativeEvent(c: Core, receipt: Receipt)
    requires NativeCore(c) && IsNativeOption(receipt.visibleRect)
    ensures OnEvent(c, receipt).outcome.Returned?
  {
    if receipt.visibleRect.Some? && InSession(c.state) {
      NativeNeverOverflows(c.initialLeader, receipt.visibleRect.value, ArmedFollower(c));
      FollowerTargetIsPairTarget(c, receipt.visibleRect.value);
    }
  }

  lemma NativeComplete(c: Core, snapshot: FinalSnapshot)
    requires NativeCore(c) && IsNativeRect(snapshot.leader)
    ensures Complete(c, snapshot).outcome.Returned?
  {
    if InSession(c.state) {
      NativeNeverOverflows(c.initialLeader, snapshot.leader, ArmedFollower(c));
      FollowerTargetIsPairTarget(c, snapshot.leader);
    }
  }

  lemma NativeStep(c: Core, input: Input)
    requires NativeCore(c) && NativeInput(input)
    ensures Step(c, input).outcome.Returned? && NativeCore(Step(c, input).core)
  {
    if input.ArmInput? {
      NativeArm(c, input.graph, input.leader, input.followerId);
    } else {
      OthersKeepPair(c, input);
      match input
      case EventInput(receipt) => NativeEvent(c, receipt);
      case CompleteInput(snapshot) => NativeComplete(c, snapshot);
      case ResultInput(_) =>
      case ReportInput(_, _) =>
    }
  }

  // With native coordinates in every input no call of any run throws.
  lemma {:induction false} NativeRunNeverThrows(c: Core, inputs: seq<Input>, k: nat)
    requires NativeCore(c) && k < |inputs| && forall i | 0 <= i < |inputs| :: NativeInput(inputs[i])
    ensures Step(Run(c, inputs[..k]), inputs[k]).outcome.Returned?
    decreases k
  {
    NativeStep(c, inputs[0]);
    if k > 0 {
      NativeRunNeverThrows(Step(c, inputs[0]).core, inputs[1..], k - 1);
      assert inputs[..k][0] == inputs[0] && inputs[..k][1..] == inputs[1..][..k - 1];
    }
  }

  lemma NativeAdjacency(a: WindowGeometry, b: WindowGeometry, tolerance: Distance)
    requires IsNativeRect(a.visibleRect) && IsNativeRect(b.visibleRect) && a.id != b.id && tolerance >= 0
    ensures Adjacency(a, b, tolerance).Returned?
  {
  }

  lemma {:induction false} NativeRelations(windows: seq<WindowGeometry>, first: nat, second: nat, tolerance: Distance)
    requires first < second && tolerance >= 0 && StrictlySorted(windows)
    requires forall w | w in windows :: IsNativeRect(w.visibleRect)
    ensures RelationsFrom(windows, first, second, tolerance).Returned?
    decreases |windows| - first, |windows| - second
  {
    if first < |windows| {
      if second >= |windows| {
        NativeRelations(windows, first + 1, first + 2, tolerance);
      } else {
        IdLessTotal(windows[first].id, windows[second].id);
        NativeAdjacency(windows[first], windows[second], tolerance);
        NativeRelations(windows, first, second + 1, tolerance);
      }
    }
  }

  // Building a graph of native windows fails only for a negative tolerance or
  // a repeated identifier.
  lemma NativeBuildNeverOverflows(input: seq<WindowGeometry>, tolerance: Distance)
    requires forall w | w in input :: IsNativeRect(w.visibleRect)
    ensures Built(input, tolerance) != Threw(Overflow)
  {
    var windows := SortById(input);
    SortByIdSorts(input);
    SortedWithoutTwins(windows);
    forall w | w in windows ensures IsNativeRect(w.visibleRect) {
      assert w in multiset(windows);
    }
    if tolerance >= 0 && StrictlySorted(windows) {
      NativeRelations(windows, 0, 1, tolerance);
    }
  }
}
