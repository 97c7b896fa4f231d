/** Exactly when a call of the controller is sent, how every other call ends, which
    responses are taken, and what each of them leaves of the capabilities. */
module CompanionCalls {
  import opened Wrappers
  import L = CompanionLedger
  import opened CompanionFrames
  import opened CompanionProtocol
  import opened CompanionLoop
  import R = CompanionRuns

  // --- Tokens ---

  // The token resolves to a window of the launched process on its window thread.
  predicate Names(c: Controller, token: L.Token) {
    var entry := L.Resolve(c.ledger, token);
    entry.Some? && entry.value.process == c.process && entry.value.thread == c.uiThread
  }

  // What a use of a token answers.
  function TokenAnswer(c: Controller, token: L.Token, running: bool, window: WindowAnswer): Resolution {
    if !c.usable then Poisoned
    else if !c.alive || !running then Exited
    else if L.Resolve(c.ledger, token).None? then Stale
    else if L.Resolve(c.ledger, token).value.process != c.process then WrongProcess
    else match window
      case HandleChanged => WrongProcess
      case NotAWindow => Resolution.InvalidWindow
      case OtherProcess => WrongProcess
      case OtherThread => WrongThread
      case _ =>
        if L.Resolve(c.ledger, token).value.thread != c.uiThread then WrongThread
        else if window.OtherClass? then WrongClass
        else if window.OtherShape? then NotTopLevel
        else if window.OtherMarker? then MarkerMissing
        else Resolved
  }

  // A process that is gone or not the launched one takes every token with it; a window
  // that fails its checks takes its own; nothing else is lost.
  ghost predicate TokensAfter(c: Controller, c1: Controller, token: L.Token, window: WindowAnswer, answer: Resolution) {
    var entry := L.Resolve(c.ledger, token);
    var launched := entry.Some? && entry.value.process == c.process;
    var ends := answer.Exited? || (answer.WrongProcess? && (!launched || window.HandleChanged?));
    var drops := !answer.Resolved? && !answer.Poisoned? && !answer.Stale? && !ends;
    && (c1.alive <==> c.alive && !ends) && c1.usable == c.usable
    && forall t ::
         L.Resolve(c1.ledger, t) ==
         if c.alive && (ends || (drops && t.logicalId == token.logicalId)) then None else L.Resolve(c.ledger, t)
  }

  lemma RetiredOne(l: L.Ledger, id: L.LogicalId)
    requires L.LedgerOk(l)
    ensures forall t :: L.Resolve(L.Retire(l, id), t) == if t.logicalId == id then None else L.Resolve(l, t)
  {
    forall t ensures L.Resolve(L.Retire(l, id), t) == if t.logicalId == id then None else L.Resolve(l, t) {
      L.RetireOnlyOne(l, id, t);
    }
  }

  lemma RetiredAll(l: L.Ledger)
    ensures forall t :: L.Resolve(L.RetireAll(l), t).None?
  {
  }

  lemma TokenUsedExactly(c: Controller, token: L.Token, running: bool, window: WindowAnswer)
    requires L.LedgerOk(c.ledger)
    ensures var (c1, answer) := ResolveLive(c, token, running, window);
            && answer == TokenAnswer(c, token, running, window)
            && (answer.Resolved? <==> R.Live(c) && running && Names(c, token) && window.SameWindow?)
            && (answer.Resolved? ==> c1 == c)
            && TokensAfter(c, c1, token, window, answer)
  {
    RetiredAll(c.ledger);
    RetiredOne(c.ledger, token.logicalId);
  }

  // --- Calls ---

  // A step that may be sent: it singles out window D, if any, and by at most 64.
  predicate StepOk(call: Call)
    requires call.SetStepCall?
  {
    && call.stepId != 0 && -64 <= call.offset <= 64 && (call.mask == 0 || call.mask == 8)
    && (call.mask == 0 ==> call.offset == 0) && call.mask & !call.requested == 0
  }

  lemma StepOkExactly(call: Call)
    requires call.SetStepCall?
    ensures StepOk(call) <==> call.stepId != 0 && IsValidSelection(call.mask, call.offset, call.requested)
  {
    SelectionIsTargetCheck(call.mask, call.offset, call.requested);
    OnlyMaskD(call.mask, call.offset);
  }

  // Checks of a call before the exchange: how it ends there, if it does.
  function EndsBefore(c: Controller, call: Call, env: CallEnv): Option<CallStatus> {
    match call
    case SetStepCall(_, _, _, _) => if StepOk(call) then None else Some(InvalidRequest)
    case DestroyCall(token) =>
      if !c.usable then Some(SessionPoisoned)
      else if !c.alive || !env.runningBefore then Some(SessionExited)
      else if !Names(c, token) || !env.window.SameWindow? then Some(StaleToken)
      else None
    case QueryCall => None
    case ShutdownCall =>
      if !c.alive || !env.runningBefore then Some(ShutdownEnded(Signalled, false))
      else if !c.usable then Some(ShutdownEnded(env.ending, false))
      else None
  }

  // How an exchange ends that does not wait for its response.
  function ExchangeEnds(c: Controller, env: CallEnv): Option<CallStatus> {
    if c.nextId == 0 || c.nextId == UINT64_MAX then Some(ProtocolFailure)
    else if !c.usable then Some(SessionPoisoned)
    else if !c.alive || !env.running then Some(SessionExited)
    else if env.writeOk then None
    else if env.runningAfter then Some(SessionPoisoned)
    else Some(SessionExited)
  }

  lemma ExchangeExactly(c: Controller, call: Call, env: CallEnv)
    ensures var b := Exchange(c, call, env);
            && b.status == ExchangeEnds(c, env)
            && b.written == (if c.nextId != 0 && c.nextId != UINT64_MAX && R.Live(c) && env.running
                             then Some(RequestOf(c.session, c.nextId, call)) else None)
            && b.controller.nextId == (if c.nextId == 0 || c.nextId == UINT64_MAX then c.nextId else c.nextId + 1)
            && b.controller.pending == (if b.status.None? then Some(Pending(call, b.written.value)) else c.pending)
  {
  }

  lemma DestroyBegins(c: Controller, call: Call, env: CallEnv)
    requires L.LedgerOk(c.ledger) && call.DestroyCall?
    ensures var b := Begin(c, call, env);
            match EndsBefore(c, call, env)
            case None => b == Exchange(c, call, env)
            case Some(status) => b.status == Some(status) && b.written.None? && b.controller.nextId == c.nextId
  {
    TokenUsedExactly(c, call.token, env.runningBefore, env.window);
  }

  lemma ShutdownBegins(c: Controller, env: CallEnv)
    ensures var b := Begin(c, ShutdownCall, env);
            match EndsBefore(c, ShutdownCall, env)
            case Some(status) => b.status == Some(status) && b.written.None? && b.controller.nextId == c.nextId
            case None =>
              var exchange := Exchange(c, ShutdownCall, env);
              && b.written == exchange.written && b.controller.nextId == exchange.controller.nextId
              && b.status == if exchange.status.None? then None else Some(ShutdownEnded(env.ending, false))
  {
  }

  // A call is sent, with the next identifier and its own payload, exactly when it passes
  // its checks, identifiers are left and the process runs on usable pipes. Every other
  // call ends at once, and uses up an identifier only if it got as far as the exchange.
  lemma CallBeginsExactly(c: Controller, call: Call, env: CallEnv)
    requires L.LedgerOk(c.ledger)
    ensures var b := Begin(c, call, env);
            var before := EndsBefore(c, call, env);
            var spent := c.nextId == 0 || c.nextId == UINT64_MAX;
            && (b.written.Some? <==> before.None? && !spent && R.Live(c) && env.running)
            && (b.written.Some? ==> b.written.value == RequestOf(c.session, c.nextId, call))
            && b.controller.nextId == (if before.None? && !spent then c.nextId + 1 else c.nextId)
            && b.status == (if before.Some? then before
                            else if ExchangeEnds(c, env).None? then None
                            else if call.ShutdownCall? then Some(ShutdownEnded(env.ending, false))
                            else ExchangeEnds(c, env))
  {
    ExchangeExactly(c, call, env);
    match call
    case SetStepCall(_, _, _, _) => StepOkExactly(call);
    case DestroyCall(_) => DestroyBegins(c, call, env);
    case QueryCall =>
    case ShutdownCall => ShutdownBegins(c, env);
  }

  // The request carries the call, and nothing of another session or an earlier request.
  lemma RequestCarriesCall(session: L.SessionMarker, id: UInt64, call: Call)
    ensures var m := RequestOf(session, id, call);
            && m.header.magic == 0x3143_4250 && m.header.version == 1 && m.header.flags == 0
            && m.header.session == session && m.header.requestId == id
            && match call
               case SetStepCall(stepId, mask, offset, _) =>
                 m.header.kind == 2 && m.header.payloadSize == 16 && m.body == SetStep(mask, offset, stepId)
               case DestroyCall(token) =>
                 m.header.kind == 3 && m.header.payloadSize == 8 && m.body == Destroy(token.logicalId, 0)
               case QueryCall => m.header.kind == 4 && m.header.payloadSize == 0 && m.body == Nothing
               case ShutdownCall => m.header.kind == 5 && m.header.payloadSize == 0 && m.body == Nothing
  {
  }

  // --- Responses ---

  // The response comes from the launched process, in every record.
  ghost predicate ComesFrom(m: Message, process: UInt32, uiThread: UInt32) {
    match m.body
    case Result(_, _, _, p, t, _, _) => p == process && t == uiThread
    case Evidence(count, p, t, records) =>
      && p == process && t == uiThread && count <= |records| == 512
      && forall k | 0 <= k < count ::
           records[k].process == process && records[k].uiThread == uiThread && 1 <= records[k].logicalId <= 4
    case _ => false
  }

  // For any peer: a response is taken exactly when it has the protocol's mark, replies
  // to the pending request and comes from the launched process.
  lemma TakenExactly(c: Controller, p: Pending, m: Message)
    requires p.request == RequestOf(c.session, p.request.header.requestId, p.call)
    ensures Accepts(c, p, m) <==>
            && m.header.magic == 0x3143_4250 && m.header.version == 1
            && R.Replies(p.request, m) && ComesFrom(m, c.process, c.uiThread)
  {
  }

  // What a taken response does to the capabilities: a window reported destroyed loses its
  // tokens, and no other response takes any away, unless it ends the session.
  lemma TakenLeavesTokens(c: Controller, m: Message, running: bool, ending: Departure, t: L.Token)
    requires L.LedgerOk(c.ledger) && c.pending.Some? && Accepts(c, c.pending.value, m)
    ensures var call := c.pending.value.call;
            var (c1, status) := Finish(c, ReadOutcome.Frame(m), running, ending);
            var done := m.body.Evidence? || m.body.status.Succeeded?;
            && L.Resolve(c1.ledger, t) ==
               (if call.ShutdownCall? || (call.DestroyCall? && done && t.logicalId == call.token.logicalId) then None
                else L.Resolve(c.ledger, t))
            && status == (if call.ShutdownCall? then ShutdownEnded(ending, done)
                          else if done then Completed
                          else if m.body.status.NativeFailure? then NativeFailed
                          else TargetRejected)
  {
    var call := c.pending.value.call;
    if call.DestroyCall? {
      L.RetireOnlyOne(c.ledger, call.token.logicalId, t);
    }
  }

  // A read that gives no response ends the session: poisoned after a timeout, a payload
  // that is too large or a failed read, given up when the process is gone.
  lemma UntakenEnds(c: Controller, outcome: ReadOutcome, running: bool, ending: Departure)
    requires c.pending.Some? && R.Live(c) && (outcome.Frame? ==> !Accepts(c, c.pending.value, outcome.message))
    ensures var (c1, status) := Finish(c, outcome, running, ending);
            var exits := outcome.ProcessExited? || (outcome.ReadFailed? && !running);
            && status == (if c.pending.value.call.ShutdownCall? then ShutdownEnded(ending, false)
                          else if exits then SessionExited else SessionPoisoned)
            && (c1.usable <==> exits)
            && (!exits && !c.pending.value.call.ShutdownCall? ==> c1.alive)
  {
  }
}
