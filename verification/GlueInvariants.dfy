/** What every step of the coordinator keeps: the pending ledger, the frozen pair,
    the final geometry, and the feedback accounts. */
module GlueInvariants {
  import opened Wrappers
  import opened Geometry
  import opened Translation
  import opened WindowAdjacency
  import opened AdjacencyGraph
  import opened Connectivity
  import opened TranslationSession
  import opened GlueMove

  predicate InSession(state: State) {
    state.Armed? || state.Active? || state.Completing? || state.Completed?
  }

  // --- The pending ledger ---

  ghost predicate Ledger(pending: seq<PendingOperation>, maxPending: nat, lastOperation: UInt64) {
    && |pending| <= maxPending
    && (forall i, j | 0 <= i < j < |pending| :: pending[i].operation < pending[j].operation)
    && (forall i | 0 <= i < |pending| :: pending[i].operation <= lastOperation)
    && (forall i, j | 0 <= i < j < |pending| :: pending[i].expected != pending[j].expected)
    && (forall i | 0 <= i < |pending| :: !(pending[i].exactRecorded && pending[i].feedbackObserved))
    && (forall i | 0 <= i < |pending| - 1 :: pending[i].exactRecorded)
  }

  // Only a moving session has pending operations.
  ghost predicate LedgerOk(c: Core) {
    && Ledger(c.pending, c.maxPending, c.operationGeneration)
    && (c.pending != [] ==> c.state.Active? || c.state.Completing?)
  }

  lemma RemovingKeepsLedger(pending: seq<PendingOperation>, maxPending: nat, last: UInt64, k: nat)
    requires Ledger(pending, maxPending, last) && k < |pending|
    ensures Ledger(RemoveAt(pending, k), maxPending, last)
  {
  }

  lemma MarkingKeepsLedger(pending: seq<PendingOperation>, maxPending: nat, last: UInt64, k: nat, entry: PendingOperation)
    requires Ledger(pending, maxPending, last) && k < |pending| && !pending[k].exactRecorded
    requires entry.operation == pending[k].operation && entry.expected == pending[k].expected
    requires !(entry.exactRecorded && entry.feedbackObserved)
    ensures Ledger(pending[k := entry], maxPending, last)
  {
  }

  lemma PushingKeepsLedger(pending: seq<PendingOperation>, maxPending: nat, last: UInt64, entry: PendingOperation)
    requires Ledger(pending, maxPending, last) && AllExact(pending) && |pending| < maxPending
    requires entry.operation == last + 1 && FindExpecting(pending, entry.expected, 0).None?
    requires !entry.exactRecorded && !entry.feedbackObserved
    ensures Ledger(pending + [entry], maxPending, last + 1)
  {
  }

  lemma MoveKeepsLedger(c: Core, sequence: UInt64, target: Rect)
    requires LedgerOk(c) && c.state.Active? && c.follower.Some? && AllExact(c.pending)
    ensures LedgerOk(MoveFollower(c, sequence, target).core)
  {
    if FindExpecting(c.pending, target, 0).None? && |c.pending| < c.maxPending && c.operationGeneration < UINT64_MAX {
      PushingKeepsLedger(c.pending, c.maxPending, c.operationGeneration,
                         PendingOperation(c.operationGeneration + 1, sequence, target, false, false));
    }
  }

  lemma LeaderEventKeepsLedger(c: Core, receipt: Receipt)
    requires LedgerOk(c)
    ensures LedgerOk(OnLeaderEvent(c, receipt).core)
  {
    if receipt.kind.GeometryChanged? && c.state.Active? && receipt.visibleRect.Some? && AllExact(c.pending) {
      var counted := c.(stats := c.stats.(leaderLocations := c.stats.leaderLocations + 1));
      var target := FollowerTarget(counted, receipt.visibleRect.value);
      if target.Returned? && target.value.Some? {
        MoveKeepsLedger(counted, receipt.sequence, target.value.value);
      }
    }
  }

  lemma FeedbackKeepsLedger(c: Core, rect: Rect)
    requires LedgerOk(c)
    ensures LedgerOk(OnFeedback(c, rect).core)
  {
    var found := FindExpecting(c.pending, rect, 0);
    if found.Some? {
      var k, entry := found.value, c.pending[found.value];
      RemovingKeepsLedger(c.pending, c.maxPending, c.operationGeneration, k);
      if !entry.exactRecorded {
        MarkingKeepsLedger(c.pending, c.maxPending, c.operationGeneration, k, entry.(feedbackObserved := true));
      }
    }
  }

  lemma ExactResultKeepsLedger(c: Core, k: nat, actual: Option<Rect>)
    requires LedgerOk(c) && k < |c.pending|
    ensures LedgerOk(OnExactResult(c, k, actual).core)
  {
    var entry := c.pending[k];
    RemovingKeepsLedger(c.pending, c.maxPending, c.operationGeneration, k);
    if !entry.exactRecorded && !entry.feedbackObserved {
      MarkingKeepsLedger(c.pending, c.maxPending, c.operationGeneration, k, entry.(exactRecorded := true));
    }
  }

  lemma FollowerEventKeepsLedger(c: Core, receipt: Receipt)
    requires LedgerOk(c)
    ensures LedgerOk(OnFollowerEvent(c, receipt).core)
  {
    if receipt.visibleRect.Some? {
      FeedbackKeepsLedger(c.(stats := c.stats.(feedback := c.stats.feedback + 1)), receipt.visibleRect.value);
    }
  }

  lemma EventKeepsLedger(c: Core, receipt: Receipt)
    requires LedgerOk(c)
    ensures LedgerOk(OnEvent(c, receipt).core)
  {
    var seen := c.(lastSequence := receipt.sequence);
    match receipt.role
    case Leader => LeaderEventKeepsLedger(seen, receipt);
    case Follower => FollowerEventKeepsLedger(seen, receipt);
    case Unrelated =>
  }

  lemma ResultKeepsLedger(c: Core, result: OperationResult)
    requires LedgerOk(c)
    ensures LedgerOk(OnOperationResult(c, result).core)
  {
    var found := FindOperation(c.pending, result.operation, 0);
    if found.Some? {
      ExactResultKeepsLedger(c, found.value, result.actual);
    }
  }

  lemma StepKeepsLedger(c: Core, input: Input)
    requires LedgerOk(c)
    ensures LedgerOk(Step(c, input).core)
  {
    match input
    case ArmInput(_, _, _) =>
    case EventInput(receipt) => EventKeepsLedger(c, receipt);
    case ResultInput(result) => ResultKeepsLedger(c, result);
    case CompleteInput(_) =>
    case ReportInput(_, _) =>
  }

  // --- The frozen pair ---

  // The session holds exactly one follower, and it is the armed one.
  ghost predicate Paired(session: Option<Session>, follower: Option<WindowId>, initialLeader: Rect) {
    && session.Some? && follower.Some?
    && session.value.leader != follower.value
    && session.value.initialLeader == initialLeader
    && var followers := Followers(session.value.leader, session.value.initialComponent);
       |followers| == 1 && followers[0].id == follower.value
  }

  ghost predicate PairOk(c: Core) {
    InSession(c.state) ==> Paired(c.session, c.follower, c.initialLeader)
  }

  // Where the follower was when the pair was armed.
  ghost function ArmedFollower(c: Core): Rect
    requires Paired(c.session, c.follower, c.initialLeader)
  {
    Followers(c.session.value.leader, c.session.value.initialComponent)[0].visibleRect
  }

  // Where a follower belongs, from the armed pair and the leader's present rectangle alone.
  function PairTarget(leader: Rect, follower: Rect, leaderNow: Rect): Outcome<Option<Rect>> {
    var change :- ClassifyGeometryChange(leader, leaderNow);
    match change
    case ResizeOrMixed => Returned(None)
    case Unchanged => Returned(Some(follower))
    case Translated(delta) =>
      var target :- TranslateRect(follower, delta);
      Returned(Some(target))
  }

  lemma {:induction false} TargetsOfNobody(leader: WindowId, windows: seq<WindowGeometry>, change: GeometryChange)
    requires !change.ResizeOrMixed? && Followers(leader, windows) == []
    ensures TargetsOf(leader, windows, change) == Returned([])
  {
    if windows != [] {
      TargetsOfNobody(leader, windows[1..], change);
    }
  }

  lemma {:induction false} TargetsOfPair(leader: WindowId, windows: seq<WindowGeometry>, change: GeometryChange,
                                         follower: WindowGeometry)
    requires !change.ResizeOrMixed? && Followers(leader, windows) == [follower]
    ensures var target := TargetOf(follower, change);
            TargetsOf(leader, windows, change) ==
              if target.Threw? then Threw(target.error)
              else Returned([PlannedTranslation(follower.id, target.value)])
  {
    if windows[0].id == leader {
      TargetsOfPair(leader, windows[1..], change, follower);
    } else {
      assert [windows[0]] + Followers(leader, windows[1..]) == [follower];
      assert Followers(leader, windows[1..]) == [];
      assert windows[0] == ([windows[0]] + Followers(leader, windows[1..]))[0];
      TargetsOfNobody(leader, windows[1..], change);
      var target := TargetOf(follower, change);
      if target.Returned? {
        var planned := PlannedTranslation(follower.id, target.value);
        assert [planned] + [] == [planned];
      }
    }
  }

  lemma FollowerTargetIsPairTarget(c: Core, leaderNow: Rect)
    requires Paired(c.session, c.follower, c.initialLeader)
    ensures FollowerTarget(c, leaderNow) == PairTarget(c.initialLeader, ArmedFollower(c), leaderNow)
  {
    var change := ClassifyGeometryChange(c.initialLeader, leaderNow);
    if change.Returned? && !change.value.ResizeOrMixed? {
      var session := c.session.value;
      var followers := Followers(session.leader, session.initialComponent);
      assert followers == [followers[0]];
      TargetsOfPair(session.leader, session.initialComponent, change.value, followers[0]);
    }
  }

  // Only arming changes the pair, and only arming enters a session.
  predicate SamePair(c: Core, c': Core) {
    && c'.session == c.session && c'.follower == c.follower && c'.initialLeader == c.initialLeader
    && (InSession(c'.state) ==> InSession(c.state))
  }

  lemma LeaderEventKeepsPair(c: Core, receipt: Receipt)
    ensures SamePair(c, OnLeaderEvent(c, receipt).core)
  {
  }

  lemma EventKeepsPair(c: Core, receipt: Receipt)
    ensures SamePair(c, OnEvent(c, receipt).core)
  {
    LeaderEventKeepsPair(c.(lastSequence := receipt.sequence), receipt);
  }

  lemma OthersKeepPair(c: Core, input: Input)
    requires !input.ArmInput?
    ensures SamePair(c, Step(c, input).core)
  {
    match input
    case EventInput(receipt) => EventKeepsPair(c, receipt);
    case ResultInput(_) =>
    case CompleteInput(_) =>
    case ReportInput(_, _) =>
  }

  lemma ArmFreezesPair(c: Core, g: Graph, leader: WindowId, follower: WindowId)
    requires Arm(c, g, leader, follower).outcome == Returned(Decision.Armed)
    ensures var armed := Arm(c, g, leader, follower).core;
            && armed.state.Armed? && Paired(armed.session, armed.follower, armed.initialLeader)
            && armed.follower == Some(follower) && armed.session.value.leader == leader
            && armed.initialLeader == RectOf(g.windows, leader)
            && ArmedFollower(armed) == RectOf(g.windows, follower) == armed.currentFollower
  {
    var session := Created(g, leader).value;
    TargetsMoveAll(leader, session.initialComponent, Unchanged);
  }

  lemma StepKeepsPair(c: Core, input: Input)
    requires PairOk(c)
    ensures PairOk(Step(c, input).core)
  {
    if input.ArmInput? {
      if Step(c, input).outcome == Returned(Decision.Armed) {
        ArmFreezesPair(c, input.graph, input.leader, input.followerId);
      }
    } else {
      OthersKeepPair(c, input);
    }
  }

  // --- The final geometry ---

  // Once the leader has ended, its rectangle is a translation of the armed one.
  ghost predicate EndOk(c: Core) {
    c.state.Completing? || c.state.Completed? ==>
      && c.finalLeader.Some?
      && var change := ClassifyGeometryChange(c.initialLeader, c.finalLeader.value);
         change.Returned? && change.value.Translated?
  }

  // A completed follower stands where the armed pair and the final leader put it.
  ghost predicate FinalOk(c: Core) {
    c.state.Completed? ==>
      && Paired(c.session, c.follower, c.initialLeader) && c.finalLeader.Some?
      && PairTarget(c.initialLeader, ArmedFollower(c), c.finalLeader.value) == Returned(Some(c.currentFollower))
  }

  lemma MovingKeepsFinal(c: Core, sequence: UInt64, leaderRect: Rect)
    requires c.state.Active?
    ensures EndOk(PlanFollower(c, sequence, leaderRect).core) && FinalOk(PlanFollower(c, sequence, leaderRect).core)
  {
  }

  lemma LeaderEventKeepsFinal(c: Core, receipt: Receipt)
    requires EndOk(c) && FinalOk(c)
    ensures EndOk(OnLeaderEvent(c, receipt).core) && FinalOk(OnLeaderEvent(c, receipt).core)
  {
    if receipt.kind.GeometryChanged? && c.state.Active? && receipt.visibleRect.Some? {
      MovingKeepsFinal(c.(stats := c.stats.(leaderLocations := c.stats.leaderLocations + 1)), receipt.sequence,
                       receipt.visibleRect.value);
    }
  }

  lemma FollowerEventKeepsFinal(c: Core, receipt: Receipt)
    requires EndOk(c) && FinalOk(c) && !c.state.Completed?
    ensures EndOk(OnFollowerEvent(c, receipt).core) && FinalOk(OnFollowerEvent(c, receipt).core)
  {
  }

  lemma EventKeepsFinal(c: Core, receipt: Receipt)
    requires EndOk(c) && FinalOk(c)
    ensures EndOk(OnEvent(c, receipt).core) && FinalOk(OnEvent(c, receipt).core)
  {
    if !Terminal(c.state) {
      var seen := c.(lastSequence := receipt.sequence);
      LeaderEventKeepsFinal(seen, receipt);
      FollowerEventKeepsFinal(seen, receipt);
    }
  }

  lemma ResultKeepsFinal(c: Core, result: OperationResult)
    requires EndOk(c) && FinalOk(c)
    ensures EndOk(OnOperationResult(c, result).core) && FinalOk(OnOperationResult(c, result).core)
  {
  }

  lemma ArmKeepsFinal(c: Core, g: Graph, leader: WindowId, follower: WindowId)
    requires EndOk(c) && FinalOk(c)
    ensures EndOk(Arm(c, g, leader, follower).core) && FinalOk(Arm(c, g, leader, follower).core)
  {
  }

  lemma ReportKeepsFinal(c: Core, report: Report, generation: UInt64)
    requires EndOk(c) && FinalOk(c)
    ensures EndOk(OnReport(c, report, generation).core) && FinalOk(OnReport(c, report, generation).core)
  {
  }

  lemma CompleteKeepsFinal(c: Core, snapshot: FinalSnapshot)
    requires PairOk(c) && EndOk(c) && FinalOk(c)
    ensures EndOk(Complete(c, snapshot).core) && FinalOk(Complete(c, snapshot).core)
  {
    if InSession(c.state) {
      FollowerTargetIsPairTarget(c, snapshot.leader);
    }
  }

  lemma StepKeepsFinal(c: Core, input: Input)
    requires PairOk(c) && EndOk(c) && FinalOk(c)
    ensures EndOk(Step(c, input).core) && FinalOk(Step(c, input).core)
  {
    match input
    case ArmInput(g, leader, follower) => ArmKeepsFinal(c, g, leader, follower);
    case EventInput(receipt) => EventKeepsFinal(c, receipt);
    case ResultInput(result) => ResultKeepsFinal(c, result);
    case CompleteInput(snapshot) => CompleteKeepsFinal(c, snapshot);
    case ReportInput(report, generation) => ReportKeepsFinal(c, report, generation);
  }

  // --- Feedback accounts ---

  function Unobserved(pending: seq<PendingOperation>): nat {
    if pending == [] then 0
    else (if pending[0].feedbackObserved then 0 else 1) + Unobserved(pending[1..])
  }

  lemma {:induction false} UnobservedSplit(a: seq<PendingOperation>, b: seq<PendingOperation>)
    ensures Unobserved(a + b) == Unobserved(a) + Unobserved(b)
  {
    if a == [] {
      assert a + b == b;
    } else {
      UnobservedSplit(a[1..], b);
      assert (a + b)[1..] == a[1..] + b;
    }
  }

  lemma UnobservedAt(pending: seq<PendingOperation>, k: nat, entry: PendingOperation)
    requires k < |pending|
    ensures var own := if pending[k].feedbackObserved then 0 else 1;
            && Unobserved(RemoveAt(pending, k)) == Unobserved(pending) - own
            && Unobserved(pending[k := entry]) ==
               Unobserved(pending) - own + if entry.feedbackObserved then 0 else 1
  {
    var before, after := pending[..k], pending[k + 1..];
    assert pending == before + ([pending[k]] + after);
    assert pending[k := entry] == before + ([entry] + after);
    UnobservedSplit(before, [pending[k]] + after);
    UnobservedSplit(before, [entry] + after);
    UnobservedSplit(before, after);
  }

  lemma {:induction false} NoneObserved(pending: seq<PendingOperation>)
    requires forall k | 0 <= k < |pending| :: !pending[k].feedbackObserved
    ensures Unobserved(pending) == |pending|
  {
    if pending != [] {
      NoneObserved(pending[1..]);
    }
  }

  // Every command is acknowledged once, still awaited, or reconciled at the end;
  // every leader location is a command, a no-op, or threw.
  ghost predicate Accounts(stats: Stats, pending: seq<PendingOperation>, thrown: nat) {
    && stats.operations == (stats.suppressed - stats.duplicates) + Unobserved(pending) + stats.reconciled
    && stats.reconciled == stats.missing
    && stats.feedback == stats.suppressed
    && stats.leaderLocations == stats.operations + stats.noOps + thrown
  }

  ghost predicate Conserved(c: Core, thrown: nat) {
    InSession(c.state) ==> Accounts(c.stats, c.pending, thrown)
  }

  // Leader locations of the present session whose planning threw.
  ghost function ThrownAfter(c: Core, thrown: nat, input: Input): nat {
    var outcome := Step(c, input).outcome;
    if input.ArmInput? && outcome == Returned(Decision.Armed) then 0
    else if input.EventInput? && input.receipt.kind.GeometryChanged? && outcome.Threw? then thrown + 1
    else thrown
  }

  // `thrown` already counts the leader location being planned, in case it throws.
  lemma MoveConserves(c: Core, sequence: UInt64, target: Rect, thrown: nat)
    requires c.follower.Some? && Accounts(c.stats, c.pending, thrown + 1)
    ensures Conserved(MoveFollower(c, sequence, target).core, thrown)
  {
    if c.operationGeneration < UINT64_MAX {
      UnobservedSplit(c.pending, [PendingOperation(c.operationGeneration + 1, sequence, target, false, false)]);
    }
  }

  lemma PlanConserves(c: Core, sequence: UInt64, leaderRect: Rect, thrown: nat)
    requires Accounts(c.stats, c.pending, thrown + 1)
    ensures var reply := PlanFollower(c, sequence, leaderRect);
            Conserved(reply.core, if reply.outcome.Threw? then thrown + 1 else thrown)
  {
    var target := FollowerTarget(c, leaderRect);
    if target.Returned? && target.value.Some? {
      MoveConserves(c, sequence, target.value.value, thrown);
    }
  }

  lemma LeaderLocationConserves(c: Core, thrown: nat, receipt: Receipt)
    requires Conserved(c, thrown) && receipt.kind.GeometryChanged?
    ensures var reply := OnLeaderEvent(c, receipt);
            Conserved(reply.core, if reply.outcome.Threw? then thrown + 1 else thrown)
  {
    if c.state.Active? && receipt.visibleRect.Some? {
      var counted := c.(stats := c.stats.(leaderLocations := c.stats.leaderLocations + 1));
      PlanConserves(counted, receipt.sequence, receipt.visibleRect.value, thrown);
    }
  }

  lemma LeaderLifecycleConserves(c: Core, thrown: nat, receipt: Receipt)
    requires Conserved(c, thrown) && !receipt.kind.GeometryChanged?
    ensures Conserved(OnLeaderEvent(c, receipt).core, thrown)
  {
  }

  lemma LeaderEventConserves(c: Core, thrown: nat, receipt: Receipt)
    requires Conserved(c, thrown)
    ensures var reply := OnLeaderEvent(c, receipt);
            Conserved(reply.core, if receipt.kind.GeometryChanged? && reply.outcome.Threw? then thrown + 1 else thrown)
  {
    if receipt.kind.GeometryChanged? {
      LeaderLocationConserves(c, thrown, receipt);
    } else {
      LeaderLifecycleConserves(c, thrown, receipt);
    }
  }

  lemma FeedbackConserves(c: Core, thrown: nat, rect: Rect)
    requires InSession(c.state) && Accounts(c.stats, c.pending, thrown)
    ensures Conserved(OnFeedback(c.(stats := c.stats.(feedback := c.stats.feedback + 1)), rect).core, thrown)
  {
    var found := FindExpecting(c.pending, rect, 0);
    if found.Some? {
      UnobservedAt(c.pending, found.value, c.pending[found.value].(feedbackObserved := true));
    }
  }

  lemma FollowerEventConserves(c: Core, thrown: nat, receipt: Receipt)
    requires Conserved(c, thrown)
    ensures Conserved(OnFollowerEvent(c, receipt).core, thrown) && OnFollowerEvent(c, receipt).outcome.Returned?
  {
    if receipt.visibleRect.Some? && InSession(c.state) {
      FeedbackConserves(c, thrown, receipt.visibleRect.value);
    }
  }

  lemma EventConserves(c: Core, thrown: nat, receipt: Receipt)
    requires Conserved(c, thrown)
    ensures var reply := OnEvent(c, receipt);
            Conserved(reply.core, if receipt.kind.GeometryChanged? && reply.outcome.Threw? then thrown + 1 else thrown)
  {
    var seen := c.(lastSequence := receipt.sequence);
    match receipt.role
    case Leader => LeaderEventConserves(seen, thrown, receipt);
    case Follower => FollowerEventConserves(seen, thrown, receipt);
    case Unrelated =>
  }

  lemma ExactResultConserves(c: Core, thrown: nat, k: nat, actual: Option<Rect>)
    requires Conserved(c, thrown) && k < |c.pending|
    ensures Conserved(OnExactResult(c, k, actual).core, thrown)
  {
    UnobservedAt(c.pending, k, c.pending[k].(exactRecorded := true));
  }

  lemma ResultConserves(c: Core, thrown: nat, result: OperationResult)
    requires Conserved(c, thrown)
    ensures Conserved(OnOperationResult(c, result).core, thrown)
  {
    var found := FindOperation(c.pending, result.operation, 0);
    if found.Some? {
      ExactResultConserves(c, thrown, found.value, result.actual);
    }
  }

  lemma CompleteConserves(c: Core, thrown: nat, snapshot: FinalSnapshot)
    requires LedgerOk(c) && Conserved(c, thrown)
    ensures Conserved(Complete(c, snapshot).core, thrown)
  {
    if AllExact(c.pending) {
      NoneObserved(c.pending);
    }
  }

  lemma ArmConserves(c: Core, thrown: nat, g: Graph, leader: WindowId, follower: WindowId)
    ensures var reply := Arm(c, g, leader, follower);
            Conserved(reply.core, if reply.outcome == Returned(Decision.Armed) then 0 else thrown)
  {
  }

  lemma ReportConserves(c: Core, thrown: nat, report: Report, generation: UInt64)
    requires Conserved(c, thrown)
    ensures Conserved(OnReport(c, report, generation).core, thrown)
  {
  }

  lemma StepConserves(c: Core, thrown: nat, input: Input)
    requires LedgerOk(c) && Conserved(c, thrown)
    ensures Conserved(Step(c, input).core, ThrownAfter(c, thrown, input))
  {
    match input
    case ArmInput(g, leader, follower) => ArmConserves(c, thrown, g, leader, follower);
    case EventInput(receipt) => EventConserves(c, thrown, receipt);
    case ResultInput(result) => ResultConserves(c, thrown, result);
    case CompleteInput(snapshot) => CompleteConserves(c, thrown, snapshot);
    case ReportInput(report, generation) => ReportConserves(c, thrown, report, generation);
  }

  // --- All of it, over whole runs ---

  ghost predicate Inv(c: Core) {
    LedgerOk(c) && PairOk(c) && EndOk(c) && FinalOk(c)
  }

  lemma StepKeepsInv(c: Core, input: Input)
    requires Inv(c)
    ensures Inv(Step(c, input).core)
  {
    StepKeepsLedger(c, input);
    StepKeepsPair(c, input);
    StepKeepsFinal(c, input);
  }

  ghost function Run(c: Core, inputs: seq<Input>): Core
    decreases |inputs|
  {
    if inputs == [] then c else Run(Step(c, inputs[0]).core, inputs[1..])
  }

  ghost function ThrownIn(c: Core, thrown: nat, inputs: seq<Input>): nat
    decreases |inputs|
  {
    if inputs == [] then thrown
    else ThrownIn(Step(c, inputs[0]).core, ThrownAfter(c, thrown, inputs[0]), inputs[1..])
  }

  lemma {:induction false} RunKeepsInv(c: Core, inputs: seq<Input>)
    requires Inv(c)
    ensures Inv(Run(c, inputs))
    decreases |inputs|
  {
    if inputs != [] {
      StepKeepsInv(c, inputs[0]);
      RunKeepsInv(Step(c, inputs[0]).core, inputs[1..]);
    }
  }

  // Every state any sequence of calls can lead to satisfies the invariant.
  lemma ReachableInv(maxPending: nat, inputs: seq<Input>)
    ensures Inv(Run(Initial(maxPending), inputs))
  {
    RunKeepsInv(Initial(maxPending), inputs);
  }

  lemma {:induction false} RunConserves(c: Core, thrown: nat, inputs: seq<Input>)
    requires Inv(c) && Conserved(c, thrown)
    ensures Conserved(Run(c, inputs), ThrownIn(c, thrown, inputs))
    decreases |inputs|
  {
    if inputs != [] {
      StepConserves(c, thrown, inputs[0]);
      StepKeepsInv(c, inputs[0]);
      RunConserves(Step(c, inputs[0]).core, ThrownAfter(c, thrown, inputs[0]), inputs[1..]);
    }
  }

  // Feedback is conserved in every reachable state, for any calls whatever.
  lemma FeedbackConserved(maxPending: nat, inputs: seq<Input>)
    ensures Conserved(Run(Initial(maxPending), inputs), ThrownIn(Initial(maxPending), 0, inputs))
  {
    RunConserves(Initial(maxPending), 0, inputs);
  }
}
