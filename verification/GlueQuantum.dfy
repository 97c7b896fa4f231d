/** Thinning one batch of event receipts before the coordinator sees it, and why
    the coordinator cannot tell the difference. */
module GlueQuantum {
  import opened Wrappers
  import opened Geometry
  import opened WindowAdjacency
  import opened AdjacencyGraph
  import opened Connectivity
  import opened TranslationSession
  import opened GlueMove
  import opened GlueInvariants
  import opened GlueTheorems

  datatype QuantumKind = Started | Location | Ended | Destroyed

  datatype QuantumRole = LeaderRole | FollowerRole

  datatype QuantumEvent = QuantumEvent(kind: QuantumKind, role: QuantumRole, sequence: UInt64)

  predicate IsLeaderLocation(event: QuantumEvent) {
    event.kind.Location? && event.role.LeaderRole?
  }

  // --- The selection ---

  // No lifecycle receipt at any index from i to j.
  ghost predicate BarrierFree(events: seq<QuantumEvent>, i: int, j: int)
    requires 0 <= i && j < |events|
  {
    forall k | i <= k <= j :: events[k].kind.Location?
  }

  // A later leader location follows with no lifecycle receipt in between.
  ghost predicate Superseded(events: seq<QuantumEvent>, i: nat)
    requires i < |events|
  {
    IsLeaderLocation(events[i]) &&
    exists j | i < j < |events| :: IsLeaderLocation(events[j]) && BarrierFree(events, i, j)
  }

  // Every receipt is kept except the superseded leader locations.
  method SelectQuantumEvents(events: seq<QuantumEvent>) returns (selected: seq<bool>)
    ensures |selected| == |events|
    ensures forall i | 0 <= i < |events| :: selected[i] <==> !Superseded(events, i)
  {
    selected := seq(|events|, _ => true);
    var latestLeader: Option<nat> := None;
    for index := 0 to |events|
      invariant |selected| == |events| && forall i | index <= i < |events| :: selected[i]
      invariant latestLeader.Some? ==>
                  && latestLeader.value < index && IsLeaderLocation(events[latestLeader.value])
                  && BarrierFree(events, latestLeader.value, index - 1) && selected[latestLeader.value]
      invariant forall i | 0 <= i < index && IsLeaderLocation(events[i]) && BarrierFree(events, i, index - 1) ::
                  latestLeader.Some? && i <= latestLeader.value
      invariant forall i | 0 <= i < |events| && !selected[i] :: Superseded(events, i)
      invariant forall i, j | 0 <= i < j < index && IsLeaderLocation(events[i]) && IsLeaderLocation(events[j]) &&
                  BarrierFree(events, i, j) :: !selected[i]
    {
      if !events[index].kind.Location? {
        latestLeader := None;
      } else if events[index].role.LeaderRole? {
        if latestLeader.Some? {
          assert BarrierFree(events, latestLeader.value, index);
          selected := selected[latestLeader.value := false];
        }
        latestLeader := Some(index);
      }
    }
  }

  // The receipts that are kept, in order.
  function Keep(events: seq<QuantumEvent>, selected: seq<bool>): seq<QuantumEvent>
    requires |selected| == |events|
  {
    if events == [] then []
    else (if selected[0] then [events[0]] else []) + Keep(events[1..], selected[1..])
  }

  // --- Feeding a batch to the coordinator ---

  // What the environment answers to a command, given its generation and target.
  datatype Answer = Answer(outcome: OperationOutcome, actual: Option<Rect>)

  type Executor = (UInt64, Rect) -> Answer

  // One pair of samples serves the whole batch.
  datatype Samples = Samples(leader: Rect, follower: Rect)

  function ReceiptOf(event: QuantumEvent, session: UInt64, samples: Samples): Receipt
    requires !event.kind.Destroyed?
  {
    var rect := if event.kind.Started? then None
                else Some(if event.role.LeaderRole? then samples.leader else samples.follower);
    Receipt(session, event.sequence, if event.role.LeaderRole? then Leader else Follower,
            match event.kind case Started => MoveResizeStarted case Location => GeometryChanged case _ => MoveResizeEnded,
            rect)
  }

  // What a batch leads to: the state, the commands issued, and the exception that ended it.
  datatype Fed = Fed(core: Core, commands: seq<Command>, thrown: Option<Exception>)

  function Execute(reply: Reply, execute: Executor): Fed {
    if reply.outcome.Threw? then Fed(reply.core, [], Some(reply.outcome.error))
    else
      match CommandOf(reply.outcome)
      case None => Fed(reply.core, [], None)
      case Some(command) =>
        var answer := execute(command.operation, command.target);
        var result := OperationResult(command.session, command.operation, command.follower, answer.outcome, answer.actual);
        Fed(OnOperationResult(reply.core, result).core, [command], None)
  }

  function FeedOne(c: Core, event: QuantumEvent, samples: Samples, execute: Executor): Fed
    requires !event.kind.Destroyed?
  {
    Execute(OnEvent(c, ReceiptOf(event, c.sessionGeneration, samples)), execute)
  }

  function Feed(c: Core, events: seq<QuantumEvent>, samples: Samples, execute: Executor): Fed
    requires forall k | 0 <= k < |events| :: !events[k].kind.Destroyed?
    decreases |events|
  {
    if events == [] then Fed(c, [], None)
    else
      var first := FeedOne(c, events[0], samples, execute);
      if first.thrown.Some? then first
      else
        var rest := Feed(first.core, events[1..], samples, execute);
        Fed(rest.core, first.commands + rest.commands, rest.thrown)
  }

  // --- Erasing counts of locations and no-ops, and sequence numbers ---

  function EraseEntry(entry: PendingOperation): PendingOperation {
    entry.(sourceSequence := 0)
  }

  function ErasePending(pending: seq<PendingOperation>): (erased: seq<PendingOperation>)
    ensures |erased| == |pending| && forall k | 0 <= k < |pending| :: erased[k] == EraseEntry(pending[k])
  {
    seq(|pending|, k requires 0 <= k < |pending| => EraseEntry(pending[k]))
  }

  function EraseStats(stats: Stats): Stats {
    stats.(leaderLocations := 0, noOps := 0)
  }

  function Erase(c: Core): Core {
    c.(lastSequence := 0, stats := EraseStats(c.stats), pending := ErasePending(c.pending))
  }

  function EraseCommand(command: Command): Command {
    command.(sourceSequence := 0)
  }

  function EraseCommands(commands: seq<Command>): (erased: seq<Command>)
    ensures |erased| == |commands| && forall k | 0 <= k < |commands| :: erased[k] == EraseCommand(commands[k])
  {
    seq(|commands|, k requires 0 <= k < |commands| => EraseCommand(commands[k]))
  }

  function EraseOutcome(outcome: Outcome<Decision>): Outcome<Decision> {
    if outcome.Returned? && outcome.value.FollowerMoveRequested?
    then Returned(FollowerMoveRequested(EraseCommand(outcome.value.command)))
    else outcome
  }

  function EraseReply(reply: Reply): Reply {
    Reply(Erase(reply.core), EraseOutcome(reply.outcome))
  }

  function EraseFed(fed: Fed): Fed {
    Fed(Erase(fed.core), EraseCommands(fed.commands), fed.thrown)
  }

  // --- No step looks at what is erased ---

  lemma {:induction false} FindExpectingErased(pending: seq<PendingOperation>, rect: Rect, from: nat)
    ensures FindExpecting(ErasePending(pending), rect, from) == FindExpecting(pending, rect, from)
    decreases |pending| - from
  {
    if from < |pending| {
      FindExpectingErased(pending, rect, from + 1);
    }
  }

  lemma {:induction false} FindOperationErased(pending: seq<PendingOperation>, operation: UInt64, from: nat)
    ensures FindOperation(ErasePending(pending), operation, from) == FindOperation(pending, operation, from)
    decreases |pending| - from
  {
    if from < |pending| {
      FindOperationErased(pending, operation, from + 1);
    }
  }

  lemma PendingErased(pending: seq<PendingOperation>)
    ensures ErasePending(ErasePending(pending)) == ErasePending(pending)
    ensures AllExact(ErasePending(pending)) == AllExact(pending)
  {
    var erased := ErasePending(pending);
    if AllExact(erased) {
      assert forall k | 0 <= k < |pending| :: erased[k].exactRecorded;
    }
  }

  lemma EntryErased(pending: seq<PendingOperation>, k: nat, entry: PendingOperation)
    requires k < |pending|
    ensures ErasePending(RemoveAt(ErasePending(pending), k)) == ErasePending(RemoveAt(pending, k))
    ensures ErasePending(ErasePending(pending)[k := EraseEntry(entry)]) == ErasePending(pending[k := entry])
  {
  }

  lemma PushErased(pending: seq<PendingOperation>, entry: PendingOperation, other: PendingOperation)
    requires EraseEntry(entry) == EraseEntry(other)
    ensures ErasePending(ErasePending(pending) + [other]) == ErasePending(pending + [entry])
  {
  }

  lemma MoveErased(c: Core, s: UInt64, t: UInt64, target: Rect)
    requires c.follower.Some?
    ensures EraseReply(MoveFollower(Erase(c), t, target)) == EraseReply(MoveFollower(c, s, target))
  {
    FindExpectingErased(c.pending, target, 0);
    PendingErased(c.pending);
    if c.operationGeneration < UINT64_MAX {
      PushErased(c.pending, PendingOperation(c.operationGeneration + 1, s, target, false, false),
                 PendingOperation(c.operationGeneration + 1, t, target, false, false));
    }
  }

  lemma PlanErased(c: Core, s: UInt64, t: UInt64, leaderRect: Rect)
    ensures EraseReply(PlanFollower(Erase(c), t, leaderRect)) == EraseReply(PlanFollower(c, s, leaderRect))
  {
    PendingErased(c.pending);
    assert FollowerTarget(Erase(c), leaderRect) == FollowerTarget(c, leaderRect);
    var target := FollowerTarget(c, leaderRect);
    if target.Returned? && target.value.Some? {
      MoveErased(c, s, t, target.value.value);
    }
  }

  function Located(c: Core): Core {
    c.(stats := c.stats.(leaderLocations := c.stats.leaderLocations + 1))
  }

  lemma EraseTwice(c: Core)
    ensures Erase(Erase(c)) == Erase(c) && Erase(Located(Erase(c))) == Erase(Located(c)) == Erase(c)
  {
    PendingErased(c.pending);
  }

  lemma LeaderEventErased(c: Core, receipt: Receipt, t: UInt64)
    ensures EraseReply(OnLeaderEvent(Erase(c), receipt.(sequence := t))) == EraseReply(OnLeaderEvent(c, receipt))
  {
    EraseTwice(c);
    match receipt.kind
    case MoveResizeStarted =>
    case GeometryChanged =>
      if c.state.Active? && receipt.visibleRect.Some? {
        var rect := receipt.visibleRect.value;
        PlanErased(Located(c), receipt.sequence, t, rect);
        PlanErased(Located(Erase(c)), t, t, rect);
        assert OnLeaderEvent(c, receipt) == PlanFollower(Located(c), receipt.sequence, rect);
        assert OnLeaderEvent(Erase(c), receipt.(sequence := t)) == PlanFollower(Located(Erase(c)), t, rect);
      }
    case MoveResizeEnded =>
  }

  lemma FeedbackErased(c: Core, rect: Rect)
    ensures EraseReply(OnFeedback(Erase(c), rect)) == EraseReply(OnFeedback(c, rect))
  {
    EraseTwice(c);
    FindExpectingErased(c.pending, rect, 0);
    var found := FindExpecting(c.pending, rect, 0);
    if found.Some? {
      FindExpectingErased(c.pending, rect, found.value + 1);
      EntryErased(c.pending, found.value, c.pending[found.value].(feedbackObserved := true));
    }
  }

  function Heard(c: Core): Core {
    c.(stats := c.stats.(feedback := c.stats.feedback + 1))
  }

  lemma FollowerEventErased(c: Core, receipt: Receipt, t: UInt64)
    ensures EraseReply(OnFollowerEvent(Erase(c), receipt.(sequence := t))) == EraseReply(OnFollowerEvent(c, receipt))
  {
    EraseTwice(c);
    if receipt.kind.GeometryChanged? && (c.state.Active? || c.state.Completing?) && receipt.visibleRect.Some? {
      var rect := receipt.visibleRect.value;
      assert Heard(Erase(c)) == Erase(Heard(c));
      assert OnFollowerEvent(Erase(c), receipt.(sequence := t)) == OnFeedback(Heard(Erase(c)), rect);
      FeedbackErased(Heard(c), rect);
    }
  }

  // A receipt that is in order leads to the same erased reply whatever its sequence.
  lemma EventErased(c: Core, receipt: Receipt)
    requires receipt.sequence > c.lastSequence
    ensures EraseReply(OnEvent(Erase(c), receipt.(sequence := 1))) == EraseReply(OnEvent(c, receipt))
  {
    EraseTwice(c);
    var seen := c.(lastSequence := receipt.sequence);
    var again := Erase(c).(lastSequence := 1);
    assert Erase(seen) == Erase(c) == Erase(again);
    match receipt.role
    case Leader =>
      LeaderEventErased(seen, receipt, 1);
      LeaderEventErased(again, receipt.(sequence := 1), 1);
    case Follower =>
      FollowerEventErased(seen, receipt, 1);
      FollowerEventErased(again, receipt.(sequence := 1), 1);
    case Unrelated =>
  }

  lemma ExactResultErased(c: Core, k: nat, actual: Option<Rect>)
    requires k < |c.pending|
    ensures Erase(OnExactResult(Erase(c), k, actual).core) == Erase(OnExactResult(c, k, actual).core)
  {
    EraseTwice(c);
    EntryErased(c.pending, k, c.pending[k].(exactRecorded := true));
  }

  lemma MatchedResultErased(c: Core, k: nat, outcome: OperationOutcome, actual: Option<Rect>)
    requires k < |c.pending|
    ensures Erase(OnMatchedResult(Erase(c), k, outcome, actual).core) ==
            Erase(OnMatchedResult(c, k, outcome, actual).core)
  {
    EraseTwice(c);
    ExactResultErased(c, k, actual);
  }

  lemma ResultErased(c: Core, result: OperationResult)
    ensures Erase(OnOperationResult(Erase(c), result).core) == Erase(OnOperationResult(c, result).core)
  {
    EraseTwice(c);
    FindOperationErased(c.pending, result.operation, 0);
    var found := FindOperation(c.pending, result.operation, 0);
    if found.Some? {
      MatchedResultErased(c, found.value, result.outcome, result.actual);
    }
  }

  lemma ExecuteErased(reply: Reply, execute: Executor)
    ensures EraseFed(Execute(EraseReply(reply), execute)) == EraseFed(Execute(reply, execute))
  {
    EraseTwice(reply.core);
    if reply.outcome.Returned? {
      match CommandOf(reply.outcome)
      case None =>
      case Some(command) =>
        var answer := execute(command.operation, command.target);
        ResultErased(reply.core, OperationResult(command.session, command.operation, command.follower,
                                                 answer.outcome, answer.actual));
    }
  }

  // Two coordinators that differ only in what is erased stay so when each is fed
  // a receipt that is in order for it and differs at most in its sequence.
  lemma FeedOneSame(a: Core, b: Core, x: QuantumEvent, y: QuantumEvent, samples: Samples, execute: Executor)
    requires Erase(a) == Erase(b) && !x.kind.Destroyed? && x.kind == y.kind && x.role == y.role
    requires x.sequence > a.lastSequence && y.sequence > b.lastSequence
    ensures EraseFed(FeedOne(a, x, samples, execute)) == EraseFed(FeedOne(b, y, samples, execute))
  {
    var p, q := ReceiptOf(x, a.sessionGeneration, samples), ReceiptOf(y, b.sessionGeneration, samples);
    EventErased(a, p);
    EventErased(b, q);
    assert p.(sequence := 1) == q.(sequence := 1);
    ExecuteErased(OnEvent(a, p), execute);
    ExecuteErased(OnEvent(b, q), execute);
  }

  // --- Whole batches ---

  // Receipts arrive in order: strictly increasing and above the last one seen.
  ghost predicate InOrder(events: seq<QuantumEvent>, last: UInt64) {
    && (forall k | 0 <= k < |events| :: !events[k].kind.Destroyed? && events[k].sequence > last)
    && (forall j, k | 0 <= j < k < |events| :: events[j].sequence < events[k].sequence)
  }

  lemma EventLastSequence(c: Core, receipt: Receipt)
    requires receipt.sequence > c.lastSequence
    ensures OnEvent(c, receipt).core.lastSequence <= receipt.sequence
  {
  }

  lemma FeedOneLast(c: Core, event: QuantumEvent, samples: Samples, execute: Executor)
    requires !event.kind.Destroyed? && event.sequence > c.lastSequence
    ensures FeedOne(c, event, samples, execute).core.lastSequence <= event.sequence
  {
    EventLastSequence(c, ReceiptOf(event, c.sessionGeneration, samples));
  }

  lemma {:induction false} FeedSame(a: Core, b: Core, events: seq<QuantumEvent>, samples: Samples, execute: Executor)
    requires Erase(a) == Erase(b) && InOrder(events, a.lastSequence) && InOrder(events, b.lastSequence)
    ensures EraseFed(Feed(a, events, samples, execute)) == EraseFed(Feed(b, events, samples, execute))
    decreases |events|
  {
    if events != [] {
      FeedOneSame(a, b, events[0], events[0], samples, execute);
      FeedOneLast(a, events[0], samples, execute);
      FeedOneLast(b, events[0], samples, execute);
      var f, g := FeedOne(a, events[0], samples, execute), FeedOne(b, events[0], samples, execute);
      assert EraseFed(f).thrown == f.thrown && EraseFed(g).thrown == g.thrown;
      if f.thrown.None? {
        FeedSame(f.core, g.core, events[1..], samples, execute);
        var fRest, gRest := Feed(f.core, events[1..], samples, execute), Feed(g.core, events[1..], samples, execute);
        CommandsJoin(f.commands, fRest.commands);
        CommandsJoin(g.commands, gRest.commands);
      }
    }
  }

  lemma CommandsJoin(a: seq<Command>, b: seq<Command>)
    ensures EraseCommands(a + b) == EraseCommands(a) + EraseCommands(b)
  {
  }

  // --- A second leader location with the same sample changes nothing ---

  // The follower already stands where this leader sample puts it, or the session is over.
  ghost predicate Rested(c: Core, leader: Rect) {
    || Terminal(c.state)
    || (c.state.Active? && AllExact(c.pending) && FollowerTarget(c, leader) == Returned(Some(c.currentFollower)))
  }

  lemma RestedStays(c: Core, event: QuantumEvent, samples: Samples, execute: Executor)
    requires Rested(c, samples.leader) && IsLeaderLocation(event) && event.sequence > c.lastSequence
    ensures var fed := FeedOne(c, event, samples, execute);
            fed.thrown.None? && fed.commands == [] && Erase(fed.core) == Erase(c)
  {
    if c.state.Active? {
      var seen := Located(c.(lastSequence := event.sequence));
      assert FollowerTarget(seen, samples.leader) == FollowerTarget(c, samples.leader);
    }
  }

  lemma AnswerRests(c: Core, s: UInt64, leader: Rect, answer: Answer)
    requires LedgerOk(c) && c.state.Active? && PlanFollower(c, s, leader).outcome.Returned?
    requires PlanFollower(c, s, leader).outcome.value.FollowerMoveRequested?
    ensures var reply := PlanFollower(c, s, leader);
            var command := reply.outcome.value.command;
            var result :=
              OperationResult(command.session, command.operation, command.follower, answer.outcome, answer.actual);
            Rested(OnOperationResult(reply.core, result).core, leader)
  {
    var reply := PlanFollower(c, s, leader);
    var command := reply.outcome.value.command;
    var entry := PendingOperation(command.operation, s, command.target, false, false);
    assert reply.core.pending == c.pending + [entry];
    FindPushed(c.pending, c.maxPending, c.operationGeneration, entry);
    assert FollowerTarget(c, leader) == Returned(Some(command.target));
    var after := OnExactResult(reply.core, |c.pending|, answer.actual).core;
    assert answer.actual == Some(command.target) ==>
      after.pending == c.pending + [entry.(exactRecorded := true)] && after.currentFollower == command.target;
  }

  lemma LocationRests(c: Core, event: QuantumEvent, samples: Samples, execute: Executor)
    requires Inv(c) && IsLeaderLocation(event) && event.sequence > c.lastSequence
    requires FeedOne(c, event, samples, execute).thrown.None?
    ensures Rested(FeedOne(c, event, samples, execute).core, samples.leader)
  {
    if c.state.Active? {
      var seen := Located(c.(lastSequence := event.sequence));
      var reply := PlanFollower(seen, event.sequence, samples.leader);
      assert OnEvent(c, ReceiptOf(event, c.sessionGeneration, samples)) == reply;
      assert FollowerTarget(seen, samples.leader) == FollowerTarget(c, samples.leader);
      match CommandOf(reply.outcome)
      case None =>
      case Some(command) =>
        AnswerRests(seen, event.sequence, samples.leader, execute(command.operation, command.target));
    }
  }

  // --- Thinning ---

  // Every leader location followed at once by another one is dropped.
  function Thin(events: seq<QuantumEvent>): (thinned: seq<QuantumEvent>)
    ensures forall k | 0 <= k < |thinned| :: thinned[k] in events
  {
    if events == [] then []
    else if IsLeaderLocation(events[0]) && |events| > 1 && IsLeaderLocation(events[1]) then Thin(events[1..])
    else [events[0]] + Thin(events[1..])
  }

  lemma DropFirst(c: Core, events: seq<QuantumEvent>, samples: Samples, execute: Executor)
    requires Inv(c) && InOrder(events, c.lastSequence)
    requires |events| > 1 && IsLeaderLocation(events[0]) && IsLeaderLocation(events[1])
    ensures EraseFed(Feed(c, events, samples, execute)) == EraseFed(Feed(c, events[1..], samples, execute))
  {
    var first := FeedOne(c, events[0], samples, execute);
    var only := FeedOne(c, events[1], samples, execute);
    FeedOneSame(c, c, events[0], events[1], samples, execute);
    assert EraseFed(first).thrown == first.thrown && EraseFed(only).thrown == only.thrown;
    FeedOneLast(c, events[0], samples, execute);
    FeedOneLast(c, events[1], samples, execute);
    if first.thrown.None? {
      LocationRests(c, events[0], samples, execute);
      RestedStays(first.core, events[1], samples, execute);
      var second := FeedOne(first.core, events[1], samples, execute);
      FeedOneLast(first.core, events[1], samples, execute);
      var rest := events[1..][1..];
      assert rest == events[2..];
      FeedSame(second.core, only.core, rest, samples, execute);
      var a, b := Feed(second.core, rest, samples, execute), Feed(only.core, rest, samples, execute);
      assert Feed(first.core, events[1..], samples, execute) == Fed(a.core, [] + a.commands, a.thrown);
      assert [] + a.commands == a.commands;
      CommandsJoin(first.commands, a.commands);
      CommandsJoin(only.commands, b.commands);
    }
  }

  lemma FeedOneKeepsInv(c: Core, event: QuantumEvent, samples: Samples, execute: Executor)
    requires Inv(c) && !event.kind.Destroyed?
    ensures Inv(FeedOne(c, event, samples, execute).core)
  {
    var input := EventInput(ReceiptOf(event, c.sessionGeneration, samples));
    StepKeepsInv(c, input);
    var reply := Step(c, input);
    if reply.outcome.Returned? && reply.outcome.value.FollowerMoveRequested? {
      var command := reply.outcome.value.command;
      var answer := execute(command.operation, command.target);
      StepKeepsInv(reply.core, ResultInput(OperationResult(command.session, command.operation, command.follower,
                                                           answer.outcome, answer.actual)));
    }
  }

  lemma {:induction false} ThinFeedsAlike(c: Core, events: seq<QuantumEvent>, samples: Samples, execute: Executor)
    requires Inv(c) && InOrder(events, c.lastSequence)
    ensures EraseFed(Feed(c, events, samples, execute)) == EraseFed(Feed(c, Thin(events), samples, execute))
    decreases |events|
  {
    if events == [] {
    } else if IsLeaderLocation(events[0]) && |events| > 1 && IsLeaderLocation(events[1]) {
      DropFirst(c, events, samples, execute);
      ThinFeedsAlike(c, events[1..], samples, execute);
    } else {
      var first := FeedOne(c, events[0], samples, execute);
      FeedOneLast(c, events[0], samples, execute);
      FeedOneKeepsInv(c, events[0], samples, execute);
      ThinFeedsAlike(first.core, events[1..], samples, execute);
      var thinned := [events[0]] + Thin(events[1..]);
      assert thinned[0] == events[0] && thinned[1..] == Thin(events[1..]);
      var a, b := Feed(first.core, events[1..], samples, execute), Feed(first.core, Thin(events[1..]), samples, execute);
      CommandsJoin(first.commands, a.commands);
      CommandsJoin(first.commands, b.commands);
    }
  }

  // Within one barrier-free stretch no follower receipt lies between two leader locations.
  ghost predicate Contiguous(events: seq<QuantumEvent>) {
    forall i, j, k | 0 <= i < j < k < |events| && IsLeaderLocation(events[i]) && IsLeaderLocation(events[k]) &&
      BarrierFree(events, i, k) :: events[j].role.LeaderRole?
  }

  predicate FollowedByLocation(events: seq<QuantumEvent>, i: nat)
    requires i < |events|
  {
    IsLeaderLocation(events[i]) && i + 1 < |events| && IsLeaderLocation(events[i + 1])
  }

  lemma SupersededWhenContiguous(events: seq<QuantumEvent>, i: nat)
    requires Contiguous(events) && i < |events|
    ensures Superseded(events, i) <==> FollowedByLocation(events, i)
  {
    if Superseded(events, i) {
      var j :| i < j < |events| && IsLeaderLocation(events[j]) && BarrierFree(events, i, j);
      assert events[i + 1].kind.Location?;
    }
    if FollowedByLocation(events, i) {
      assert BarrierFree(events, i, i + 1);
    }
  }

  lemma {:induction false} KeepIsThin(events: seq<QuantumEvent>, selected: seq<bool>)
    requires |selected| == |events|
    requires forall i | 0 <= i < |events| :: selected[i] <==> !FollowedByLocation(events, i)
    ensures Keep(events, selected) == Thin(events)
  {
    if events != [] {
      forall i | 0 <= i < |events[1..]| ensures selected[1..][i] <==> !FollowedByLocation(events[1..], i) {
        assert selected[1..][i] == selected[i + 1];
      }
      KeepIsThin(events[1..], selected[1..]);
    }
  }

  // For every reachable coordinator and every environment: feeding only the
  // selected receipts of a batch issues the same commands and ends in the same
  // state, abort reason or exception as feeding all of them. Only the counts of
  // leader locations and no-ops and the sequence numbers can differ.
  lemma ThinningIsInvisible(maxPending: nat, inputs: seq<Input>, events: seq<QuantumEvent>, selected: seq<bool>,
                            samples: Samples, execute: Executor)
    requires InOrder(events, Run(Initial(maxPending), inputs).lastSequence) && Contiguous(events)
    requires |selected| == |events| && forall i | 0 <= i < |events| :: selected[i] <==> !Superseded(events, i)
    ensures var c := Run(Initial(maxPending), inputs);
            && (forall k | 0 <= k < |Keep(events, selected)| :: !Keep(events, selected)[k].kind.Destroyed?)
            && EraseFed(Feed(c, Keep(events, selected), samples, execute)) == EraseFed(Feed(c, events, samples, execute))
  {
    forall i | 0 <= i < |events| ensures selected[i] <==> !FollowedByLocation(events, i) {
      SupersededWhenContiguous(events, i);
    }
    KeepIsThin(events, selected);
    ReachableInv(maxPending, inputs);
    ThinFeedsAlike(Run(Initial(maxPending), inputs), events, samples, execute);
  }

  // --- The condition on follower receipts is needed ---

  // A pair side by side, moving, with room for one pending operation, which has
  // been executed and whose feedback has not arrived.
  const LEADER_ARMED: Rect := RectBounds(0, 0, 10, 10)
  const FOLLOWER_ARMED: Rect := RectBounds(10, 0, 20, 10)
  const AWAITING_STATS := NO_STATS.(leaderStarts := 1, leaderLocations := 1, operations := 1, maxPendingDepth := 1)

  function ArmedPair(): Core {
    Initial(1).(state := State.Armed, sessionGeneration := 1,
                session := Some(Session("A", LEADER_ARMED, PairGraph().windows)),
                follower := Some("B"), initialLeader := LEADER_ARMED, currentFollower := FOLLOWER_ARMED)
  }

  function Awaiting(): Core {
    ArmedPair().(state := State.Active, operationGeneration := 1, lastSequence := 2, currentFollower := FOLLOWER_AT,
                 pending := [PendingOperation(1, 2, FOLLOWER_AT, true, false)], stats := AWAITING_STATS)
  }

  function PairGraph(): Graph {
    Graph([WindowGeometry("A", LEADER_ARMED), WindowGeometry("B", FOLLOWER_ARMED)],
          [AdjacencyRelation("A", "B", Right, Left, 0, 10)])
  }

  lemma PairAdjacent()
    ensures Adjacency(PairGraph().windows[0], PairGraph().windows[1], 0) == Returned(Some(PairGraph().relations[0]))
  {
    SideBySide(WindowGeometry("A", LEADER_ARMED), WindowGeometry("B", FOLLOWER_ARMED));
  }

  lemma PairGraphValid()
    ensures Valid(PairGraph()) && IsPairGraph(PairGraph(), "A", "B")
  {
    var g := PairGraph();
    assert HasRelations(g, 0) by {
      PairAdjacent();
      TwoWindows(g.windows, 0, g.relations[0]);
    }
    assert StrictlySorted(g.windows);
    assert g.windows[0].id == "A" && g.windows[1].id == "B";
  }

  lemma PairRects()
    ensures RectOf(PairGraph().windows, "A") == LEADER_ARMED && RectOf(PairGraph().windows, "B") == FOLLOWER_ARMED
  {
    assert PairGraph().windows[1..][0].id == "B";
  }

  lemma PairIsArmed()
    ensures Step(Initial(1), ArmInput(PairGraph(), "A", "B")).core == ArmedPair()
  {
    PairGraphValid();
    PairRects();
    ArmedState(Initial(1), PairGraph(), "A", "B");
  }

  const MOVED_ONCE: Rect := RectBounds(1, 0, 11, 10)

  // Arming, the leader's start, one location and the exact result lead there.
  function StartIn(): Input {
    EventInput(Receipt(1, 1, Role.Leader, MoveResizeStarted, None))
  }

  function LocationIn(): Input {
    EventInput(Receipt(1, 2, Role.Leader, GeometryChanged, Some(MOVED_ONCE)))
  }

  function ResultIn(): Input {
    ResultInput(OperationResult(1, 1, "B", Exact, Some(FOLLOWER_AT)))
  }

  function Approach(): seq<Input> {
    [ArmInput(PairGraph(), "A", "B")] + ([StartIn()] + ([LocationIn()] + ([ResultIn()] + [])))
  }

  lemma RunFirst(c: Core, input: Input, rest: seq<Input>)
    ensures Run(c, [input] + rest) == Run(Step(c, input).core, rest)
  {
    assert ([input] + rest)[1..] == rest;
  }

  lemma RunFour(c0: Core, c1: Core, c2: Core, c3: Core, c4: Core, i0: Input, i1: Input, i2: Input, i3: Input)
    requires Step(c0, i0).core == c1 && Step(c1, i1).core == c2 && Step(c2, i2).core == c3 && Step(c3, i3).core == c4
    ensures Run(c0, [i0] + ([i1] + ([i2] + ([i3] + [])))) == c4
  {
    RunFirst(c3, i3, []);
    RunFirst(c2, i2, [i3] + []);
    RunFirst(c1, i1, [i2] + ([i3] + []));
    RunFirst(c0, i0, [i1] + ([i2] + ([i3] + [])));
  }

  lemma PairTargets(c: Core, leaderNow: Rect, dx: int)
    requires c.session == ArmedPair().session && c.follower == Some("B") && c.initialLeader == LEADER_ARMED
    requires 0 < dx < 100 && leaderNow == RectBounds(dx, 0, 10 + dx, 10)
    ensures FollowerTarget(c, leaderNow) == Returned(Some(RectBounds(10 + dx, 0, 20 + dx, 10)))
  {
    var windows := PairGraph().windows;
    assert windows[1..][1..] == [];
    assert Followers("A", windows[1..]) == windows[1..];
    assert Followers("A", windows) == [windows[1]];
    FollowerTargetIsPairTarget(c, leaderNow);
  }

  // The pair has started to move, and a location has asked for the follower's move.
  function MovingOff(): Core {
    ArmedPair().(state := State.Active, lastSequence := 1, stats := NO_STATS.(leaderStarts := 1))
  }

  function Commanded(): Core {
    MovingOff().(lastSequence := 2, operationGeneration := 1, stats := AWAITING_STATS,
               pending := [PendingOperation(1, 2, FOLLOWER_AT, false, false)])
  }

  lemma StartStarts()
    ensures Step(ArmedPair(), StartIn()).core == MovingOff()
  {
  }

  lemma LocationCommands()
    ensures Step(MovingOff(), LocationIn()).core == Commanded()
  {
    var seen := MovingOff().(lastSequence := 2, stats := MovingOff().stats.(leaderLocations := 1));
    PairTargets(seen, MOVED_ONCE, 1);
    assert OnEvent(MovingOff(), LocationIn().receipt) == PlanFollower(seen, 2, MOVED_ONCE);
  }

  lemma ResultIsRecorded()
    ensures Step(Commanded(), ResultIn()).core == Awaiting()
  {
  }

  lemma AwaitingIsReached()
    ensures Run(Initial(1), Approach()) == Awaiting()
  {
    PairIsArmed();
    StartStarts();
    LocationCommands();
    ResultIsRecorded();
    RunFour(Initial(1), ArmedPair(), MovingOff(), Commanded(), Awaiting(),
            ArmInput(PairGraph(), "A", "B"), StartIn(), LocationIn(), ResultIn());
  }

  const LEADER_AT := RectBounds(2, 0, 12, 10)
  const FOLLOWER_AT := RectBounds(11, 0, 21, 10)
  const FOLLOWER_DUE := RectBounds(12, 0, 22, 10)

  lemma AwaitingFacts()
    ensures Inv(Awaiting()) && FollowerTarget(Awaiting(), LEADER_AT) == Returned(Some(FOLLOWER_DUE))
  {
    AwaitingIsReached();
    ReachableInv(1, Approach());
    PairTargets(Awaiting(), LEADER_AT, 2);
  }

  lemma FullLedgerAborts(location: QuantumEvent, execute: Executor)
    requires IsLeaderLocation(location) && location.sequence == 3
    ensures var fed := FeedOne(Awaiting(), location, Samples(LEADER_AT, FOLLOWER_AT), execute);
            fed.thrown.None? && fed.core.state.Aborted? && fed.core.abortReason == Some(PendingLedgerOverflow)
  {
    AwaitingFacts();
    var c := Awaiting();
    assert FollowerTarget(Located(c.(lastSequence := 3)), LEADER_AT) == FollowerTarget(c, LEADER_AT);
  }

  lemma FeedbackMakesRoom(echo: QuantumEvent, execute: Executor)
    requires echo.kind.Location? && echo.role.FollowerRole? && echo.sequence > 2
    ensures var fed := FeedOne(Awaiting(), echo, Samples(LEADER_AT, FOLLOWER_AT), execute);
            && fed.thrown.None? && fed.core.pending == []
            && fed.core == Awaiting().(pending := [], lastSequence := echo.sequence,
                                       lastAcknowledged := Some(FOLLOWER_AT),
                                       stats := AWAITING_STATS.(feedback := 1, suppressed := 1))
  {
    assert Awaiting().pending[0].expected == FOLLOWER_AT;
  }

  lemma SecondMove(c: Core, execute: Executor)
    requires c.state.Active? && c.maxPending == 1 && c.pending == [] && c.currentFollower == FOLLOWER_AT
    requires c.operationGeneration == 1 && c.sessionGeneration == 1 && c.follower == Some("B")
    requires execute(2, FOLLOWER_DUE) == Answer(Exact, Some(FOLLOWER_DUE))
    ensures Execute(MoveFollower(c, 5, FOLLOWER_DUE), execute).core.state.Active?
  {
    var moved := MoveFollower(c, 5, FOLLOWER_DUE);
    assert moved.core.pending == [PendingOperation(2, 5, FOLLOWER_DUE, false, false)];
    assert FindOperation(moved.core.pending, 2, 0) == Some(0);
  }

  lemma RoomForOneMore(c: Core, again: QuantumEvent, execute: Executor)
    requires c == Awaiting().(pending := [], lastSequence := 4, lastAcknowledged := Some(FOLLOWER_AT),
                              stats := AWAITING_STATS.(feedback := 1, suppressed := 1))
    requires again == QuantumEvent(Location, LeaderRole, 5)
    requires execute(2, FOLLOWER_DUE) == Answer(Exact, Some(FOLLOWER_DUE))
    ensures FeedOne(c, again, Samples(LEADER_AT, FOLLOWER_AT), execute).core.state.Active?
  {
    var seen := Located(c.(lastSequence := 5));
    PairTargets(seen, LEADER_AT, 2);
    var reply := OnEvent(c, ReceiptOf(again, 1, Samples(LEADER_AT, FOLLOWER_AT)));
    assert reply == PlanFollower(seen, 5, LEADER_AT) == MoveFollower(seen, 5, FOLLOWER_DUE);
    SecondMove(seen, execute);
  }

  const THREE := [QuantumEvent(Location, LeaderRole, 3), QuantumEvent(Location, FollowerRole, 4),
                  QuantumEvent(Location, LeaderRole, 5)]

  lemma FirstOfThreeIsDropped()
    ensures InOrder(THREE, 2) && Superseded(THREE, 0)
  {
    assert BarrierFree(THREE, 0, 2) && IsLeaderLocation(THREE[2]);
  }

  // Its feedback between two leader locations: fed whole, the first location
  // finds the ledger full and aborts.
  lemma InterleavedFeedbackWhole(execute: Executor)
    ensures InOrder(THREE, Awaiting().lastSequence) && Superseded(THREE, 0)
    ensures Feed(Awaiting(), THREE, Samples(LEADER_AT, FOLLOWER_AT), execute).core.abortReason ==
            Some(PendingLedgerOverflow)
  {
    var c, samples := Awaiting(), Samples(LEADER_AT, FOLLOWER_AT);
    FirstOfThreeIsDropped();
    FullLedgerAborts(THREE[0], execute);
    TerminalStays(FeedOne(c, THREE[0], samples, execute).core, THREE[1..], samples, execute);
  }

  // Thinned, the feedback makes room first, and the session goes on.
  lemma InterleavedFeedbackThinned(execute: Executor)
    requires execute(2, FOLLOWER_DUE) == Answer(Exact, Some(FOLLOWER_DUE))
    ensures Feed(Awaiting(), THREE[1..], Samples(LEADER_AT, FOLLOWER_AT), execute).core.state.Active?
  {
    var c, samples := Awaiting(), Samples(LEADER_AT, FOLLOWER_AT);
    FeedbackMakesRoom(THREE[1], execute);
    var heard := FeedOne(c, THREE[1], samples, execute).core;
    RoomForOneMore(heard, THREE[2], execute);
    assert THREE[1..][0] == THREE[1] && THREE[1..][1..] == [THREE[2]] && [THREE[2]][1..] == [];
    assert Feed(heard, [THREE[2]], samples, execute).core == FeedOne(heard, THREE[2], samples, execute).core;
  }

  // A session that is over ignores everything.
  lemma {:induction false} TerminalStays(c: Core, events: seq<QuantumEvent>, samples: Samples, execute: Executor)
    requires Terminal(c.state) && forall k | 0 <= k < |events| :: !events[k].kind.Destroyed?
    ensures Feed(c, events, samples, execute) == Fed(c, [], None)
    decreases |events|
  {
    if events != [] {
      TerminalStays(c, events[1..], samples, execute);
    }
  }
}
