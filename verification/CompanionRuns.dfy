/** Controller and target together, over two first-in first-out pipes: every
    interleaving of the two processes, with timeouts, failed writes and the end of
    the process as steps of the environment. */
module CompanionRuns {
  import opened Wrappers
  import L = CompanionLedger
  import opened CompanionFrames
  import opened CompanionProtocol

  datatype System = System(
    controller: Controller,
    target: Target,
    exit: Option<nat>,
    processEnded: bool,
    commands: seq<Message>,
    responses: seq<Message>,
    answered: seq<(Message, Message)>,
    accepted: seq<(Message, Message)>)

  datatype Step =
    | CallBegins(call: Call, env: CallEnv, delivered: bool)
    | CallEnds(outcome: ReadOutcome, running: bool, ending: Departure)
    | TargetTurn(ui: UiAnswer, recorded: seq<L.LogicalId>, writeOk: bool, delivered: bool)
    | TargetStops(code: nat)
    | ProcessEnds
    | ProcessChecked(running: bool)
    | TokenUsed(token: L.Token, running: bool, window: WindowAnswer)
    | OtherSessions(next: UInt64)

  // One lock serializes the calls of a session; an ended process stays ended, and
  // only a written response can be read.
  ghost predicate Enabled(s: System, step: Step) {
    match step
    case CallBegins(_, env, _) =>
      s.controller.pending.None? && (env.runningBefore || env.running || env.runningAfter ==> !s.processEnded)
    case CallEnds(outcome, running, _) =>
      && s.controller.pending.Some? && (running ==> !s.processEnded)
      && (outcome.Frame? ==> s.responses != [] && outcome.message == s.responses[0])
      && (outcome.ProcessExited? ==> s.processEnded)
    case TargetTurn(ui, recorded, _, _) =>
      && s.exit.None? && !s.processEnded && s.commands != []
      && |recorded| <= MAXIMUM_EVIDENCE_RECORDS && (forall k | 0 <= k < |recorded| :: L.IsLogicalId(recorded[k]))
      && (ui.status.Succeeded? ==> ui.applied)
    case TargetStops(code) => s.exit.None? && (code == 0 || code == 20)
    case ProcessEnds => true
    case ProcessChecked(running) => s.controller.pending.None? && (running ==> !s.processEnded)
    case TokenUsed(_, running, _) => s.controller.pending.None? && (running ==> !s.processEnded)
    case OtherSessions(next) => s.controller.nextId <= next
  }

  function Appended(pipe: seq<Message>, m: Option<Message>, delivered: bool): seq<Message> {
    if m.Some? && delivered then pipe + [m.value] else pipe
  }

  // A write that succeeds delivers its frame; one that fails may or may not have.
  ghost function Next(s: System, step: Step): System
    requires Enabled(s, step)
  {
    match step
    case CallBegins(call, env, delivered) =>
      var b := Begin(s.controller, call, env);
      s.(controller := b.controller, commands := Appended(s.commands, b.written, env.writeOk || delivered))
    case CallEnds(outcome, running, ending) =>
      var p := s.controller.pending.value;
      var taken := outcome.Frame? && Accepts(s.controller, p, outcome.message);
      s.(controller := Finish(s.controller, outcome, running, ending).0,
         responses := if outcome.Frame? then s.responses[1..] else s.responses,
         accepted := if taken then s.accepted + [(p.request, outcome.message)] else s.accepted)
    case TargetTurn(ui, recorded, writeOk, delivered) =>
      var h := Handle(s.target, s.commands[0], ui, recorded);
      s.(target := h.target, exit := ExitAfter(h, writeOk), commands := s.commands[1..],
         responses := Appended(s.responses, Some(h.response), writeOk || delivered),
         answered := s.answered + [(s.commands[0], h.response)])
    case TargetStops(code) => s.(exit := Some(code))
    case ProcessEnds => s.(processEnded := true)
    case ProcessChecked(running) => s.(controller := Refresh(s.controller, running))
    case TokenUsed(token, running, window) => s.(controller := ResolveLive(s.controller, token, running, window).0)
    case OtherSessions(next) => s.(controller := s.controller.(nextId := next))
  }

  ghost predicate Possible(s: System, steps: seq<Step>)
    decreases |steps|
  {
    steps == [] || (Enabled(s, steps[0]) && Possible(Next(s, steps[0]), steps[1..]))
  }

  ghost function Run(s: System, steps: seq<Step>): System
    requires Possible(s, steps)
    decreases |steps|
  {
    if steps == [] then s else Run(Next(s, steps[0]), steps[1..])
  }

  // --- Dead sessions ---

  predicate Live(c: Controller) {
    c.usable && c.alive
  }

  // A session that is no longer live has no capabilities left.
  predicate Dead(c: Controller) {
    !Live(c) && !c.ledger.sessionActive && c.pending.None?
  }

  lemma {:induction false} DeadStaysDead(s: System, steps: seq<Step>)
    requires Dead(s.controller) && Possible(s, steps)
    ensures Dead(Run(s, steps).controller) && Run(s, steps).accepted == s.accepted
    decreases |steps|
  {
    if steps != [] {
      assert Dead(Next(s, steps[0]).controller) && Next(s, steps[0]).accepted == s.accepted;
      DeadStaysDead(Next(s, steps[0]), steps[1..]);
    }
  }

  // No answer of the target stands behind this status.
  predicate Refused(status: CallStatus) {
    && !status.Completed? && !status.NativeFailed? && !status.TargetRejected?
    && (status.ShutdownEnded? ==> !status.acknowledged)
  }

  // On a dead session every call fails at once, writing nothing, and no token resolves.
  lemma DeadRefusesEverything(c: Controller, call: Call, env: CallEnv, token: L.Token)
    requires Dead(c)
    ensures var b := Begin(c, call, env);
            b.written.None? && b.status.Some? && Refused(b.status.value)
    ensures L.Resolve(c.ledger, token).None?
    ensures !ResolveLive(c, token, env.runningBefore, env.window).1.Resolved?
  {
  }

  // A read leaves the session live exactly when it is an accepted response and the
  // call was not the last one; every other outcome kills the session for good.
  lemma OnlyAcceptedResponsesKeepLife(c: Controller, outcome: ReadOutcome, running: bool, ending: Departure)
    requires c.pending.Some? && Live(c)
    requires outcome.ProcessExited? ==> !running
    ensures var (c1, status) := Finish(c, outcome, running, ending);
            var accepted := outcome.Frame? && Accepts(c, c.pending.value, outcome.message);
            var last := c.pending.value.call.ShutdownCall?;
            && (Live(c1) <==> accepted && !last)
            && (!Live(c1) ==> Dead(c1))
            && (!accepted ==> Refused(status))
            && (accepted && !last ==> status == StatusOf(outcome.message))
            && (last ==> status == ShutdownEnded(ending, accepted && StatusOf(outcome.message).Completed?))
  {
  }

  // A write that fails kills the session as well.
  lemma FailedWriteKills(c: Controller, call: Call, env: CallEnv)
    requires c.pending.None? && Begin(c, call, env).written.Some? && !env.writeOk
    ensures Dead(Begin(c, call, env).controller)
  {
  }

  // --- Requests and replies ---

  predicate CallOk(call: Call) {
    && (call.SetStepCall? ==> IsValidSelection(call.mask, call.offset, call.requested))
    && (call.DestroyCall? ==> L.IsLogicalId(call.token.logicalId))
  }

  // A request as the target should receive it.
  predicate Sound(m: Message, session: L.SessionMarker) {
    && BodySize(m.body) <= MAX_PAYLOAD
    && m.header == HeaderFor(session, m.header.kind, m.header.requestId, BodySize(m.body))
    && SET_STEP <= m.header.kind <= SHUTDOWN
    && (m.header.kind == SET_STEP ==> m.body.SetStep? && ValidateSetStep(m.body.mask, m.body.offset))
    && (m.header.kind == DESTROY_WINDOW ==> m.body.Destroy? && m.body.reserved == 0 && L.IsLogicalId(m.body.logicalId))
    && (m.header.kind == QUERY_EVIDENCE || m.header.kind == SHUTDOWN ==> m.body.Nothing?)
  }

  // A reply that answers exactly this request: its identifier, kind, step and window.
  predicate Replies(request: Message, reply: Message) {
    && reply.header.session == request.header.session && reply.header.requestId == request.header.requestId
    && reply.header.kind == (if request.header.kind == QUERY_EVIDENCE then EVIDENCE else COMMAND_RESULT)
    && (if request.header.kind == QUERY_EVIDENCE then reply.body.Evidence?
        else reply.body.Result? && reply.body.command == request.header.kind)
    && (request.body.SetStep? && reply.body.Result? ==> reply.body.answeredStep == request.body.stepId)
    && (request.body.Destroy? && reply.body.Result? ==> reply.body.answeredId == request.body.logicalId)
  }

  // The windows carry the step of the request.
  predicate Applied(t: Target, request: Message) {
    request.body.SetStep? ==>
      t == Stepped(t, request.body.mask, request.body.offset, request.body.stepId)
  }

  lemma RequestIsSound(session: L.SessionMarker, id: UInt64, call: Call)
    requires CallOk(call)
    ensures Sound(RequestOf(session, id, call), session)
  {
    if call.SetStepCall? {
      SelectionIsTargetCheck(call.mask, call.offset, call.requested);
    }
  }

  // What the target makes of a sound request that is newer than the last one.
  lemma SoundIsAnswered(t: Target, m: Message, ui: UiAnswer, recorded: seq<L.LogicalId>)
    requires Sound(m, t.session) && m.header.requestId > t.lastId && |recorded| <= MAXIMUM_EVIDENCE_RECORDS
    requires ui.status.Succeeded? ==> ui.applied
    ensures var h := Handle(t, m, ui, recorded);
            && HeaderOk(t, m.header) && Replies(m, h.response)
            && h.exit == (if m.header.kind == SHUTDOWN then Some(0) else None) && h.target.lastId == m.header.requestId
            && h.target.session == t.session && h.target.process == t.process && h.target.uiThread == t.uiThread
            && (h.response.body.Result? && h.response.body.status.Succeeded? ==> Applied(h.target, m))
            && (h.response.body.Result? ==> h.response.body.status == ui.status)
  {
  }

  // The controller takes what the target answers.
  lemma AnswerIsAccepted(c: Controller, p: Pending, t: Target, ui: UiAnswer, recorded: seq<L.LogicalId>)
    requires t.session == c.session && t.process == c.process && t.uiThread == c.uiThread
    requires CallOk(p.call) && p.request == RequestOf(c.session, p.request.header.requestId, p.call)
    requires p.request.header.requestId > t.lastId && |recorded| <= MAXIMUM_EVIDENCE_RECORDS
    requires forall k | 0 <= k < |recorded| :: L.IsLogicalId(recorded[k])
    ensures Accepts(c, p, Handle(t, p.request, ui, recorded).response)
  {
    if p.call.SetStepCall? {
      SelectionIsTargetCheck(p.call.mask, p.call.offset, p.call.requested);
    }
  }

  // --- The invariant ---

  ghost predicate HistoryOk(answered: seq<(Message, Message)>, lastId: UInt64) {
    && (forall k | 0 <= k < |answered| ::
          Replies(answered[k].0, answered[k].1) && answered[k].0.header.requestId <= lastId)
    && (forall i, j | 0 <= i < j < |answered| :: answered[i].0.header.requestId < answered[j].0.header.requestId)
  }

  predicate CommandsOk(commands: seq<Message>, session: L.SessionMarker, lastId: UInt64, nextId: UInt64) {
    && |commands| <= 1
    && (commands != [] ==> Sound(commands[0], session) && lastId < commands[0].header.requestId < nextId)
  }

  predicate PendingOk(c: Controller) {
    c.pending.Some? ==>
      var p := c.pending.value;
      && Live(c) && CallOk(p.call) && p.request.header.requestId < c.nextId
      && p.request == RequestOf(c.session, p.request.header.requestId, p.call)
  }

  // The target has answered the pending request, and its answer is on its way or lost.
  predicate Answering(s: System, p: Pending) {
    && s.answered != []
    && var (request, reply) := s.answered[|s.answered| - 1];
       && s.accepted == s.answered[..|s.answered| - 1] && request == p.request && Accepts(s.controller, p, reply)
       && s.commands == [] && (s.responses == [reply] || (s.responses == [] && s.exit.Some?))
       && (reply.body.Result? && reply.body.status.Succeeded? ==> Applied(s.target, request))
       && (request.header.kind == SHUTDOWN ==> s.exit == Some(0) || s.exit == Some(22))
  }

  // A live session and its target never get out of step.
  predicate Lockstep(s: System) {
    match s.controller.pending
    case None => s.commands == [] && s.responses == [] && s.accepted == s.answered
    case Some(p) =>
      || (s.commands == [p.request] && s.responses == [] && s.accepted == s.answered)
      || Answering(s, p)
  }

  ghost predicate Inv(s: System) {
    var c, t := s.controller, s.target;
    && t.session == c.session && t.process == c.process && t.uiThread == c.uiThread
    && t.lastId < c.nextId && s.exit != Some(21)
    && PendingOk(c) && L.LedgerOk(c.ledger)
    && CommandsOk(s.commands, c.session, t.lastId, c.nextId)
    && HistoryOk(s.answered, t.lastId) && s.accepted <= s.answered
    && if Live(c) then Lockstep(s) else Dead(c)
  }

  // A session as it is once the handshake is accepted.
  ghost predicate Initial(s: System) {
    && s.target.session == s.controller.session && s.target.process == s.controller.process
    && s.target.uiThread == s.controller.uiThread
    && s.target.lastId == 0 && s.controller.nextId >= 1 && s.exit.None?
    && s.controller.pending.None? && Live(s.controller) && L.LedgerOk(s.controller.ledger)
    && s.commands == [] && s.responses == [] && s.answered == [] && s.accepted == []
  }

  // The parts of the controller's state that hold by themselves.
  predicate SameFacts(c: Controller, c': Controller) {
    c'.session == c.session && c'.process == c.process && c'.uiThread == c.uiThread && c.nextId <= c'.nextId
  }

  lemma ResolveLiveKeeps(c: Controller, token: L.Token, running: bool, window: WindowAnswer)
    requires L.LedgerOk(c.ledger) && c.pending.None? && (Live(c) || Dead(c))
    ensures var (c1, resolution) := ResolveLive(c, token, running, window);
            && SameFacts(c, c1) && c1.nextId == c.nextId && c1.pending.None? && L.LedgerOk(c1.ledger)
            && (Live(c1) || Dead(c1)) && (Live(c1) ==> Live(c))
            && (resolution.Resolved? ==> c1 == c && Live(c) && L.IsLogicalId(token.logicalId))
  {
  }

  // What beginning a call does, in the same words for every kind of call.
  ghost predicate Keeps(c: Controller, call: Call, env: CallEnv, b: Begun) {
    && SameFacts(c, b.controller) && PendingOk(b.controller) && L.LedgerOk(b.controller.ledger)
    && (Live(b.controller) || Dead(b.controller)) && (Live(b.controller) ==> Live(c))
    && (b.written.None? ==> b.controller.pending.None?)
    && (b.written.Some? ==>
          && Live(c) && CallOk(call) && b.written.value == RequestOf(c.session, c.nextId, call)
          && b.controller.nextId == c.nextId + 1
          && if env.writeOk then b.controller.pending == Some(Pending(call, b.written.value)) else Dead(b.controller))
  }

  lemma ExchangeKeeps(c: Controller, call: Call, env: CallEnv)
    requires L.LedgerOk(c.ledger) && c.pending.None? && (Live(c) || Dead(c)) && CallOk(call)
    ensures Keeps(c, call, env, Exchange(c, call, env))
  {
  }

  lemma ShutdownKeeps(c: Controller, env: CallEnv)
    requires L.LedgerOk(c.ledger) && c.pending.None? && (Live(c) || Dead(c))
    ensures Keeps(c, ShutdownCall, env, Begin(c, ShutdownCall, env))
  {
    var c1 := Refresh(c, env.runningBefore);
    if Live(c1) {
      ExchangeKeeps(c1, ShutdownCall, env);
    }
  }

  lemma BeginKeeps(c: Controller, call: Call, env: CallEnv)
    requires L.LedgerOk(c.ledger) && c.pending.None? && (Live(c) || Dead(c))
    ensures Keeps(c, call, env, Begin(c, call, env))
  {
    match call
    case SetStepCall(_, _, _, _) =>
      if CallOk(call) {
        ExchangeKeeps(c, call, env);
      }
    case DestroyCall(token) =>
      ResolveLiveKeeps(c, token, env.runningBefore, env.window);
      if CallOk(call) {
        ExchangeKeeps(c, call, env);
      }
    case QueryCall => ExchangeKeeps(c, call, env);
    case ShutdownCall => ShutdownKeeps(c, env);
  }

  lemma BeginKeepsInv(s: System, call: Call, env: CallEnv, delivered: bool)
    requires Inv(s) && Enabled(s, CallBegins(call, env, delivered))
    ensures Inv(Next(s, CallBegins(call, env, delivered)))
  {
    BeginKeeps(s.controller, call, env);
    if CallOk(call) {
      RequestIsSound(s.controller.session, s.controller.nextId, call);
    }
  }

  lemma ReceivedKeeps(c: Controller, p: Pending, outcome: ReadOutcome, running: bool)
    requires L.LedgerOk(c.ledger)
    ensures var c1 := Received(c, p, outcome, running).0;
            SameFacts(c, c1) && c1.nextId == c.nextId && c1.pending == c.pending && L.LedgerOk(c1.ledger)
  {
    if p.call.DestroyCall? {
      L.ApplyKeepsOk(c.ledger, L.RetireOp(p.call.token.logicalId));
    }
  }

  lemma FinishKeeps(c: Controller, outcome: ReadOutcome, running: bool, ending: Departure)
    requires L.LedgerOk(c.ledger) && c.pending.Some?
    ensures var c1 := Finish(c, outcome, running, ending).0;
            SameFacts(c, c1) && c1.nextId == c.nextId && c1.pending.None? && L.LedgerOk(c1.ledger)
  {
    ReceivedKeeps(c.(pending := None), c.pending.value, outcome, running);
  }

  lemma EndKeepsInv(s: System, outcome: ReadOutcome, running: bool, ending: Departure)
    requires Inv(s) && Enabled(s, CallEnds(outcome, running, ending))
    ensures Inv(Next(s, CallEnds(outcome, running, ending)))
  {
    OnlyAcceptedResponsesKeepLife(s.controller, outcome, running, ending);
    FinishKeeps(s.controller, outcome, running, ending);
  }

  lemma QuietKeepsInv(s: System, step: Step)
    requires Inv(s) && Enabled(s, step) && (step.ProcessChecked? || step.TokenUsed? || step.OtherSessions?)
    ensures Inv(Next(s, step))
  {
    if step.TokenUsed? {
      ResolveLiveKeeps(s.controller, step.token, step.running, step.window);
    }
  }

  lemma HistoryGrows(answered: seq<(Message, Message)>, lastId: UInt64, pair: (Message, Message))
    requires HistoryOk(answered, lastId) && Replies(pair.0, pair.1) && lastId < pair.0.header.requestId
    ensures HistoryOk(answered + [pair], pair.0.header.requestId)
  {
  }

  lemma TurnKeepsInv(s: System, ui: UiAnswer, recorded: seq<L.LogicalId>, writeOk: bool, delivered: bool)
    requires Inv(s) && Enabled(s, TargetTurn(ui, recorded, writeOk, delivered))
    ensures Inv(Next(s, TargetTurn(ui, recorded, writeOk, delivered)))
  {
    var request := s.commands[0];
    SoundIsAnswered(s.target, request, ui, recorded);
    var h := Handle(s.target, request, ui, recorded);
    HistoryGrows(s.answered, s.target.lastId, (request, h.response));
    if Live(s.controller) {
      var p := s.controller.pending.value;
      AnswerIsAccepted(s.controller, p, s.target, ui, recorded);
      var s' := Next(s, TargetTurn(ui, recorded, writeOk, delivered));
      assert s'.answered[..|s'.answered| - 1] == s.answered;
      assert Answering(s', p);
    }
  }

  lemma StepKeepsInv(s: System, step: Step)
    requires Inv(s) && Enabled(s, step)
    ensures Inv(Next(s, step))
  {
    match step
    case CallBegins(call, env, delivered) => BeginKeepsInv(s, call, env, delivered);
    case CallEnds(outcome, running, ending) => EndKeepsInv(s, outcome, running, ending);
    case TargetTurn(ui, recorded, writeOk, delivered) => TurnKeepsInv(s, ui, recorded, writeOk, delivered);
    case TargetStops(_) =>
    case ProcessEnds =>
    case _ => QuietKeepsInv(s, step);
  }

  lemma {:induction false} ReachableInv(s: System, steps: seq<Step>)
    requires Inv(s) && Possible(s, steps)
    ensures Inv(Run(s, steps))
    decreases |steps|
  {
    if steps != [] {
      StepKeepsInv(s, steps[0]);
      ReachableInv(Next(s, steps[0]), steps[1..]);
    }
  }

  // --- What holds in every run ---

  // Each accepted response is what the target answered to that very request, and
  // none is skipped: the accepted exchanges are the first the target answered, in order.
  lemma AcceptedAnswersItsRequest(s: System, steps: seq<Step>)
    requires Initial(s) && Possible(s, steps)
    ensures var e := Run(s, steps);
            && e.accepted <= e.answered
            && (forall k | 0 <= k < |e.accepted| :: Replies(e.accepted[k].0, e.accepted[k].1))
            && (forall i, j | 0 <= i < j < |e.accepted| ::
                  e.accepted[i].0.header.requestId < e.accepted[j].0.header.requestId)
    ensures var e := Run(s, steps);
            Live(e.controller) && e.controller.pending.None? ==>
              e.accepted == e.answered && e.commands == [] && e.responses == []
  {
    ReachableInv(s, steps);
  }

  // The target never meets an identifier that is not new, never refuses a header
  // and never finds a step or a window identifier invalid.
  lemma TargetNeverRefuses(s: System, steps: seq<Step>, turn: Step)
    requires Initial(s) && Possible(s, steps) && turn.TargetTurn? && Enabled(Run(s, steps), turn)
    ensures var e := Run(s, steps);
            var h := Handle(e.target, e.commands[0], turn.ui, turn.recorded);
            && HeaderOk(e.target, e.commands[0].header) && e.commands[0].header.requestId > e.target.lastId
            && (e.commands[0].header.kind == SET_STEP ==>
                  e.commands[0].body.SetStep? && ValidateSetStep(e.commands[0].body.mask, e.commands[0].body.offset))
            && Replies(e.commands[0], h.response)
            && (h.response.body.Result? ==> h.response.body.status == turn.ui.status)
            && Next(e, turn).exit != Some(21)
  {
    ReachableInv(s, steps);
    var e := Run(s, steps);
    SoundIsAnswered(e.target, e.commands[0], turn.ui, turn.recorded);
  }

  // Against this target no response is ever mismatched: the session dies only by
  // time, by the end of the process or by failing pipes, or when it is shut down.
  lemma ResponsesNeverMismatch(s: System, steps: seq<Step>, m: Message, running: bool, ending: Departure)
    requires Initial(s) && Possible(s, steps) && Enabled(Run(s, steps), CallEnds(ReadOutcome.Frame(m), running, ending))
    ensures var e := Run(s, steps);
            var (c, status) := Finish(e.controller, ReadOutcome.Frame(m), running, ending);
            && Accepts(e.controller, e.controller.pending.value, m) && c.usable
            && status == (if e.controller.pending.value.call.ShutdownCall?
                          then ShutdownEnded(ending, StatusOf(m).Completed?) else StatusOf(m))
  {
    ReachableInv(s, steps);
  }

  // A step that the controller sees completed is the one the windows carry.
  lemma CompletedStepIsApplied(s: System, steps: seq<Step>, m: Message, running: bool, ending: Departure)
    requires Initial(s) && Possible(s, steps) && Enabled(Run(s, steps), CallEnds(ReadOutcome.Frame(m), running, ending))
    requires Run(s, steps).controller.pending.value.call.SetStepCall?
    requires Finish(Run(s, steps).controller, ReadOutcome.Frame(m), running, ending).1.Completed?
    ensures var e := Run(s, steps);
            var call := e.controller.pending.value.call;
            e.target.stepId == call.stepId && e.target.dOffset == call.offset
  {
    ReachableInv(s, steps);
  }

  // The target exits with zero once the answer to a shutdown is written, with 22 when
  // an answer cannot be written, and otherwise goes on.
  lemma TargetExitsExactly(s: System, steps: seq<Step>, turn: Step)
    requires Initial(s) && Possible(s, steps) && turn.TargetTurn? && Enabled(Run(s, steps), turn)
    ensures Next(Run(s, steps), turn).exit ==
            if !turn.writeOk then Some(22)
            else if Run(s, steps).commands[0].header.kind == SHUTDOWN then Some(0)
            else None
  {
    ReachableInv(s, steps);
    var e := Run(s, steps);
    SoundIsAnswered(e.target, e.commands[0], turn.ui, turn.recorded);
  }

  // A shutdown that the controller sees answered has ended the target's loop.
  lemma AnsweredShutdownStopped(s: System, steps: seq<Step>, m: Message, running: bool, ending: Departure)
    requires Initial(s) && Possible(s, steps) && Enabled(Run(s, steps), CallEnds(ReadOutcome.Frame(m), running, ending))
    requires Run(s, steps).controller.pending.value.call.ShutdownCall?
    ensures Run(s, steps).exit == Some(0) || Run(s, steps).exit == Some(22)
  {
    ReachableInv(s, steps);
  }

  // Nothing stands in the way of the call: identifiers are left, the process runs, the
  // step is valid or the token names its live window.
  ghost predicate MayCall(c: Controller, call: Call, env: CallEnv) {
    && c.nextId < UINT64_MAX && env.runningBefore && env.running && env.writeOk
    && (call.SetStepCall? ==> call.stepId != 0 && IsValidSelection(call.mask, call.offset, call.requested))
    && (call.DestroyCall? ==>
          && env.window.SameWindow? && L.Resolve(c.ledger, call.token).Some?
          && L.Resolve(c.ledger, call.token).value.process == c.process
          && L.Resolve(c.ledger, call.token).value.thread == c.uiThread)
  }

  lemma MayCallSends(c: Controller, call: Call, env: CallEnv)
    requires Live(c) && c.pending.None? && c.nextId >= 1 && MayCall(c, call, env)
    ensures var request := RequestOf(c.session, c.nextId, call);
            Begin(c, call, env) == Begun(c.(nextId := c.nextId + 1, pending := Some(Pending(call, request))), None,
                                         Some(request))
  {
  }

  // Request, turn and read, one after the other.
  function RoundTrip(call: Call, env: CallEnv, ui: UiAnswer, recorded: seq<L.LogicalId>, reply: Message,
                     ending: Departure): seq<Step>
  {
    [CallBegins(call, env, true)] +
    ([TargetTurn(ui, recorded, true, true)] + ([CallEnds(ReadOutcome.Frame(reply), true, ending)] + []))
  }

  lemma RunFirst(s: System, step: Step, rest: seq<Step>)
    requires Enabled(s, step) && Possible(Next(s, step), rest)
    ensures Possible(s, [step] + rest) && Run(s, [step] + rest) == Run(Next(s, step), rest)
  {
    assert ([step] + rest)[1..] == rest;
  }

  lemma CallGoesOut(s: System, call: Call, env: CallEnv)
    requires Inv(s) && Live(s.controller) && s.controller.pending.None? && s.exit.None? && !s.processEnded
    requires MayCall(s.controller, call, env)
    ensures var c := s.controller;
            var request := RequestOf(c.session, c.nextId, call);
            && Enabled(s, CallBegins(call, env, true))
            && Next(s, CallBegins(call, env, true)) ==
               s.(controller := c.(nextId := c.nextId + 1, pending := Some(Pending(call, request))),
                  commands := [request])
  {
    MayCallSends(s.controller, call, env);
    assert [] + [RequestOf(s.controller.session, s.controller.nextId, call)] ==
           [RequestOf(s.controller.session, s.controller.nextId, call)];
  }

  // An undisturbed call in any reachable live session is answered by the target and
  // succeeds with the window thread's status, and the session is idle again, or given
  // up after a shutdown.
  lemma UndisturbedCallSucceeds(s: System, steps: seq<Step>, call: Call, env: CallEnv, ui: UiAnswer,
                                recorded: seq<L.LogicalId>, ending: Departure)
    requires Initial(s) && Possible(s, steps) && ui == UiAnswer(CommandStatus.Succeeded, 0, true)
    requires var e := Run(s, steps);
             && Live(e.controller) && e.controller.pending.None? && e.exit.None? && !e.processEnded
             && MayCall(e.controller, call, env)
    requires |recorded| <= MAXIMUM_EVIDENCE_RECORDS && forall k | 0 <= k < |recorded| :: L.IsLogicalId(recorded[k])
    ensures var e := Run(s, steps);
            var request := RequestOf(e.controller.session, e.controller.nextId, call);
            var reply := Handle(e.target, request, ui, recorded).response;
            var round := RoundTrip(call, env, ui, recorded, reply, ending);
            && Possible(e, round)
            && var after := Run(e, round);
               && after.accepted == e.accepted + [(request, reply)] && after.controller.pending.None?
               && (Live(after.controller) <==> !call.ShutdownCall?)
               && after.exit == (if call.ShutdownCall? then Some(0) else None)
               && (call.SetStepCall? ==> after.target.stepId == call.stepId && after.target.dOffset == call.offset)
               && (call.DestroyCall? ==> L.Resolve(after.controller.ledger, call.token).None?)
  {
    ReachableInv(s, steps);
    var e := Run(s, steps);
    CallGoesOut(e, call, env);
    var request := RequestOf(e.controller.session, e.controller.nextId, call);
    var reply := Handle(e.target, request, ui, recorded).response;
    StepKeepsInv(e, CallBegins(call, env, true));
    var asked := Next(e, CallBegins(call, env, true));
    AnswerAndRead(asked, ui, recorded, ending);
    var turn, read := TargetTurn(ui, recorded, true, true), CallEnds(ReadOutcome.Frame(reply), true, ending);
    RunFirst(Next(asked, turn), read, []);
    RunFirst(asked, turn, [read] + []);
    RunFirst(e, CallBegins(call, env, true), [turn] + ([read] + []));
  }

  lemma AnswerAndRead(s: System, ui: UiAnswer, recorded: seq<L.LogicalId>, ending: Departure)
    requires Inv(s) && Live(s.controller) && s.controller.pending.Some? && s.exit.None? && !s.processEnded
    requires s.commands != [] && ui == UiAnswer(CommandStatus.Succeeded, 0, true)
    requires |recorded| <= MAXIMUM_EVIDENCE_RECORDS && forall k | 0 <= k < |recorded| :: L.IsLogicalId(recorded[k])
    ensures var p := s.controller.pending.value;
            var reply := Handle(s.target, s.commands[0], ui, recorded).response;
            var turn, read := TargetTurn(ui, recorded, true, true), CallEnds(ReadOutcome.Frame(reply), true, ending);
            && Enabled(s, turn) && Enabled(Next(s, turn), read)
            && var after := Next(Next(s, turn), read);
               && after.accepted == s.accepted + [(p.request, reply)] && after.controller.pending.None?
               && (Live(after.controller) <==> !p.call.ShutdownCall?)
               && after.exit == (if p.call.ShutdownCall? then Some(0) else None)
               && (p.call.SetStepCall? ==> after.target.stepId == p.call.stepId && after.target.dOffset == p.call.offset)
               && (p.call.DestroyCall? ==> L.Resolve(after.controller.ledger, p.call.token).None?)
  {
    var p := s.controller.pending.value;
    assert s.commands == [p.request];
    var turn := TargetTurn(ui, recorded, true, true);
    SoundIsAnswered(s.target, p.request, ui, recorded);
    AnswerIsAccepted(s.controller, p, s.target, ui, recorded);
    StepKeepsInv(s, turn);
    var reply := Handle(s.target, p.request, ui, recorded).response;
    assert Next(s, turn).responses == [reply];
    OnlyAcceptedResponsesKeepLife(Next(s, turn).controller, ReadOutcome.Frame(reply), true, ending);
    if p.call.DestroyCall? {
      L.RetireOnlyOne(s.controller.ledger, p.call.token.logicalId, p.call.token);
    }
  }

  // After a timeout, a failed read or the end of the process, nothing that happens
  // later lets a call succeed, be answered or write, or a token resolve.
  lemma FailureIsFinal(s: System, steps: seq<Step>, outcome: ReadOutcome, running: bool, ending: Departure,
                       later: seq<Step>,
                       call: Call, env: CallEnv, token: L.Token)
    requires Initial(s) && Possible(s, steps) && Enabled(Run(s, steps), CallEnds(outcome, running, ending))
    requires !outcome.Frame? && Possible(Next(Run(s, steps), CallEnds(outcome, running, ending)), later)
    ensures var e := Run(Next(Run(s, steps), CallEnds(outcome, running, ending)), later);
            var b := Begin(e.controller, call, env);
            && e.accepted == Run(s, steps).accepted
            && b.written.None? && b.status.Some? && Refused(b.status.value)
            && L.Resolve(e.controller.ledger, token).None?
  {
    ReachableInv(s, steps);
    var e := Run(s, steps);
    OnlyAcceptedResponsesKeepLife(e.controller, outcome, running, ending);
    var next := Next(e, CallEnds(outcome, running, ending));
    DeadStaysDead(next, later);
    DeadRefusesEverything(Run(next, later).controller, call, env, token);
  }
}
