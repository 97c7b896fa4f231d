/** The request and response protocol of a companion session: what the controller
    sends and accepts, and what the target answers. Payloads are decoded here; the
    bytes that carry them are the subject of CompanionFrames. */
module CompanionProtocol {
  import opened Wrappers
  import L = CompanionLedger
  import opened CompanionFrames
  import opened CompanionHandshake

  type UInt32 = L.UInt32
  type Int32 = x: int | -0x8000_0000 <= x < 0x8000_0000

  // --- Messages ---

  const SET_STEP: UInt16 := 2
  const DESTROY_WINDOW: UInt16 := 3
  const QUERY_EVIDENCE: UInt16 := 4
  const SHUTDOWN: UInt16 := 5
  const COMMAND_RESULT: UInt16 := 6
  const EVIDENCE: UInt16 := 7
  const FATAL_ERROR: UInt16 := 8

  const MAXIMUM_TEST_OFFSET: int := 64
  const MAXIMUM_EVIDENCE_RECORDS: nat := 512

  const ERROR_INVALID_DATA: UInt32 := 13
  const ERROR_NOT_SUPPORTED: UInt32 := 50
  const ERROR_INVALID_PARAMETER: UInt32 := 87

  type UnlistedCode = x: int | 8 <= x < 0x1_0000 witness 8

  // The listed codes from zero to seven; any other code may arrive over the wire.
  datatype CommandStatus =
    | Succeeded | InvalidFrame | InvalidPayload | InvalidWindow | UiThreadUnavailable | NativeFailure
    | SessionMismatch | UnsupportedCommand | Unlisted(code: UnlistedCode)

  // The identity fields of one evidence record.
  datatype EvidenceRecord = EvidenceRecord(logicalId: L.LogicalId, process: UInt32, uiThread: UInt32)

  // A payload by what its exact size decodes it to; any other size is Undecoded.
  datatype Body =
    | Nothing
    | SetStep(mask: bv32, offset: Int32, stepId: UInt64)
    | Destroy(logicalId: L.LogicalId, reserved: UInt32)
    | Result(command: UInt16, status: CommandStatus, nativeError: UInt32, process: UInt32, uiThread: UInt32,
             answeredId: L.LogicalId, answeredStep: UInt64)
    | Evidence(count: UInt32, process: UInt32, uiThread: UInt32, records: seq<EvidenceRecord>)
    | Undecoded(size: nat)

  function BodySize(b: Body): nat {
    match b
    case Nothing => 0
    case SetStep(_, _, _) => 16
    case Destroy(_, _) => 8
    case Result(_, _, _, _, _, _, _) => 32
    case Evidence(_, _, _, _) => 49184
    case Undecoded(size) => size
  }

  datatype Message = Message(header: Header, body: Body)

  function MessageOf(session: L.SessionMarker, kind: UInt16, id: UInt64, body: Body): Message
    requires BodySize(body) <= MAX_PAYLOAD
  {
    Message(HeaderFor(session, kind, id, BodySize(body)), body)
  }

  // --- The offsets a test step may ask for ---

  // The bit of window D, the only one a test step may single out.
  const D_BIT: bv32 := 8

  lemma DBitNamesD()
    ensures D_BIT == LogicalBit(L.WINDOW_D)
  {
  }

  predicate IsValidSelection(mask: bv32, offset: Int32, requested: bv32) {
    && mask & !D_BIT == 0
    && mask & !requested == 0
    && -MAXIMUM_TEST_OFFSET <= offset <= MAXIMUM_TEST_OFFSET
    && (offset == 0 || mask == D_BIT)
  }

  predicate ValidateSetStep(mask: bv32, offset: Int32) {
    && mask & !D_BIT == 0
    && -MAXIMUM_TEST_OFFSET <= offset <= MAXIMUM_TEST_OFFSET
    && (offset == 0 || mask & D_BIT != 0)
  }

  lemma OnlyBitD(mask: bv32)
    requires mask & !D_BIT == 0
    ensures mask == D_BIT <==> mask & D_BIT != 0
  {
  }

  // The controller's check is the target's check and that only requested windows are named.
  lemma SelectionIsTargetCheck(mask: bv32, offset: Int32, requested: bv32)
    ensures IsValidSelection(mask, offset, requested) <==>
            ValidateSetStep(mask, offset) && mask & !requested == 0
  {
    if mask & !D_BIT == 0 {
      OnlyBitD(mask);
    }
  }

  // --- The controller ---

  datatype Call =
    | SetStepCall(stepId: UInt64, mask: bv32, offset: Int32, requested: bv32)
    | DestroyCall(token: L.Token)
    | QueryCall
    | ShutdownCall

  datatype CallStatus =
    | Completed | InvalidRequest | StaleToken | SessionPoisoned | SessionExited | ProtocolFailure
    | NativeFailed | TargetRejected
    | ShutdownEnded(ending: Departure, acknowledged: bool)

  // How the wait for the process after a shutdown ends: it is gone (success), it still
  // runs after its termination (timeout), or it could not be terminated (native failure).
  datatype Departure = Signalled | StillRunning | TerminateRefused

  datatype Pending = Pending(call: Call, request: Message)

  datatype Controller = Controller(
    session: L.SessionMarker, process: UInt32, uiThread: UInt32,
    nextId: UInt64, usable: bool, alive: bool, ledger: L.Ledger, pending: Option<Pending>)

  function KindOf(call: Call): UInt16 {
    match call
    case SetStepCall(_, _, _, _) => SET_STEP
    case DestroyCall(_) => DESTROY_WINDOW
    case QueryCall => QUERY_EVIDENCE
    case ShutdownCall => SHUTDOWN
  }

  function BodyOf(call: Call): (b: Body)
    ensures BodySize(b) <= MAX_PAYLOAD
  {
    match call
    case SetStepCall(stepId, mask, offset, _) => SetStep(mask, offset, stepId)
    case DestroyCall(token) => Destroy(token.logicalId, 0)
    case QueryCall => Nothing
    case ShutdownCall => Nothing
  }

  function RequestOf(session: L.SessionMarker, id: UInt64, call: Call): Message {
    MessageOf(session, KindOf(call), id, BodyOf(call))
  }

  // The counter all sessions share; zero when it is used up.
  function IssueId(next: UInt64): (UInt64, UInt64) {
    if next == 0 || next == UINT64_MAX then (0, next) else (next, next + 1)
  }

  function Refresh(c: Controller, running: bool): Controller {
    if c.alive && !running then c.(alive := false, ledger := L.RetireAll(c.ledger)) else c
  }

  function Poison(c: Controller): Controller {
    if c.usable then c.(usable := false, ledger := L.RetireAll(c.ledger)) else c
  }

  // What the native window behind a resolved token turns out to be, by the first
  // check that it fails.
  datatype WindowAnswer =
    | SameWindow | HandleChanged | NotAWindow | OtherProcess | OtherThread | OtherClass | OtherShape | OtherMarker

  datatype Resolution =
    | Resolved | Poisoned | Exited | Stale | WrongProcess | InvalidWindow | WrongThread | WrongClass | NotTopLevel
    | MarkerMissing

  // The checks on the window of a live entry, in their order.
  function CheckWindow(window: WindowAnswer, entry: L.Entry, uiThread: UInt32): Resolution {
    if window.NotAWindow? then Resolution.InvalidWindow
    else if window.OtherProcess? then WrongProcess
    else if window.OtherThread? || entry.thread != uiThread then WrongThread
    else if window.OtherClass? then WrongClass
    else if window.OtherShape? then NotTopLevel
    else if window.OtherMarker? then MarkerMissing
    else Resolved
  }

  // The checks before a token is used. A process that is not the launched one ends the
  // session; a window that fails a check loses its own token only.
  function ResolveLive(c: Controller, token: L.Token, running: bool, window: WindowAnswer): (Controller, Resolution) {
    if !c.usable then (c, Poisoned)
    else
      var c1 := Refresh(c, running);
      if !c1.alive then (c1, Exited)
      else match L.Resolve(c1.ledger, token)
        case None => (c1, Stale)
        case Some(entry) =>
          if window.HandleChanged? || entry.process != c1.process then
            (c1.(alive := false, ledger := L.RetireAll(c1.ledger)), WrongProcess)
          else
            var resolution := CheckWindow(window, entry, c1.uiThread);
            (if resolution.Resolved? then c1 else c1.(ledger := L.Retire(c1.ledger, entry.logicalId)), resolution)
  }

  // How a refused token is reported to the caller of a command.
  function RefusalOf(r: Resolution): CallStatus {
    if r.Exited? then SessionExited else if r.Poisoned? then SessionPoisoned else StaleToken
  }

  // What happens around one call: process observations, the write, and the end of a shutdown.
  datatype CallEnv = CallEnv(runningBefore: bool, window: WindowAnswer, running: bool, writeOk: bool, runningAfter: bool,
                             ending: Departure)

  // A call that has begun: it is over with a status, or it waits for its response.
  datatype Begun = Begun(controller: Controller, status: Option<CallStatus>, written: Option<Message>)

  function Exchange(c: Controller, call: Call, env: CallEnv): Begun {
    var (id, next) := IssueId(c.nextId);
    var c1 := c.(nextId := next);
    if id == 0 then Begun(c1, Some(ProtocolFailure), None)
    else if !c1.usable then Begun(c1, Some(SessionPoisoned), None)
    else
      var c2 := Refresh(c1, env.running);
      if !c2.alive then Begun(c2, Some(SessionExited), None)
      else
        var request := RequestOf(c2.session, id, call);
        if env.writeOk then Begun(c2.(pending := Some(Pending(call, request))), None, Some(request))
        else
          var c3 := Refresh(c2, env.runningAfter);
          if c3.alive then Begun(Poison(c3), Some(SessionPoisoned), Some(request))
          else Begun(c3, Some(SessionExited), Some(request))
  }

  // Whatever became of the request, a shutdown call gives the process up.
  function AfterShutdown(c: Controller): Controller {
    c.(alive := false, ledger := L.RetireAll(c.ledger))
  }

  function Begin(c: Controller, call: Call, env: CallEnv): Begun {
    match call
    case SetStepCall(stepId, mask, offset, requested) =>
      if stepId == 0 || !IsValidSelection(mask, offset, requested) then Begun(c, Some(InvalidRequest), None)
      else Exchange(c, call, env)
    case DestroyCall(token) =>
      var (c1, resolution) := ResolveLive(c, token, env.runningBefore, env.window);
      if !resolution.Resolved? then Begun(c1, Some(RefusalOf(resolution)), None) else Exchange(c1, call, env)
    case QueryCall => Exchange(c, call, env)
    case ShutdownCall =>
      var c1 := Refresh(c, env.runningBefore);
      if !c1.alive then Begun(c1, Some(ShutdownEnded(Signalled, false)), None)
      else if !c1.usable then Begun(AfterShutdown(c1), Some(ShutdownEnded(env.ending, false)), None)
      else
        var b := Exchange(c1, call, env);
        if b.status.None? then b
        else b.(controller := AfterShutdown(b.controller), status := Some(ShutdownEnded(env.ending, false)))
  }

  // --- Responses ---

  datatype ReadOutcome = Frame(message: Message) | Timeout | ProcessExited | ReadFailed | PayloadTooLarge

  predicate EnvelopeMatches(h: Header, session: L.SessionMarker, kind: UInt16, id: UInt64) {
    h.magic == FRAME_MAGIC && h.version == PROTOCOL_VERSION && h.kind == kind && h.session == session &&
    h.requestId == id
  }

  predicate RecordOk(r: EvidenceRecord, process: UInt32, uiThread: UInt32) {
    L.IsLogicalId(r.logicalId) && r.process == process && r.uiThread == uiThread
  }

  predicate EvidenceHeadOk(m: Message, process: UInt32, uiThread: UInt32) {
    && m.body.Evidence? && |m.body.records| == MAXIMUM_EVIDENCE_RECORDS
    && m.body.count <= MAXIMUM_EVIDENCE_RECORDS && m.body.process == process && m.body.uiThread == uiThread
  }

  predicate ResultOk(m: Message, call: Call, process: UInt32, uiThread: UInt32) {
    && m.body.Result? && m.body.command == KindOf(call) && m.body.process == process && m.body.uiThread == uiThread
    && (call.DestroyCall? ==> m.body.answeredId == call.token.logicalId)
    && (call.SetStepCall? ==> m.body.answeredStep == call.stepId)
  }

  // A response the controller takes as the answer to its pending request.
  predicate Accepts(c: Controller, p: Pending, m: Message) {
    && EnvelopeMatches(m.header, c.session, if p.call.QueryCall? then EVIDENCE else COMMAND_RESULT,
                       p.request.header.requestId)
    && (p.call.QueryCall? ==>
          && EvidenceHeadOk(m, c.process, c.uiThread)
          && forall k | 0 <= k < m.body.count :: RecordOk(m.body.records[k], c.process, c.uiThread))
    && (!p.call.QueryCall? ==> ResultOk(m, p.call, c.process, c.uiThread))
  }

  function StatusOf(m: Message): CallStatus {
    if !m.body.Result? || m.body.status.Succeeded? then Completed
    else if m.body.status.NativeFailure? then NativeFailed
    else TargetRejected
  }

  function Received(c: Controller, p: Pending, outcome: ReadOutcome, running: bool): (Controller, CallStatus) {
    match outcome
    case Frame(m) =>
      if !Accepts(c, p, m) then (Poison(c), SessionPoisoned)
      else if p.call.DestroyCall? && StatusOf(m).Completed? then
        (c.(ledger := L.Retire(c.ledger, p.call.token.logicalId)), Completed)
      else (c, StatusOf(m))
    case Timeout => (Poison(c), SessionPoisoned)
    case PayloadTooLarge => (Poison(c), SessionPoisoned)
    case ProcessExited => (Refresh(c, running), SessionExited)
    case ReadFailed =>
      var c1 := Refresh(c, running);
      if c1.alive then (Poison(c1), SessionPoisoned) else (c1, SessionExited)
  }

  function Finish(c: Controller, outcome: ReadOutcome, running: bool, ending: Departure): (Controller, CallStatus)
    requires c.pending.Some?
  {
    var p := c.pending.value;
    var (c1, status) := Received(c.(pending := None), p, outcome, running);
    if p.call.ShutdownCall? then (AfterShutdown(c1), ShutdownEnded(ending, status.Completed?)) else (c1, status)
  }

  // --- The target ---

  datatype Target = Target(session: L.SessionMarker, process: UInt32, uiThread: UInt32, lastId: UInt64,
                           stepId: UInt64, dOffset: Int32)

  // What the window thread did with a request it was handed.
  datatype UiAnswer = UiAnswer(status: CommandStatus, nativeError: UInt32, applied: bool)

  datatype Handled = Handled(target: Target, response: Message, exit: Option<nat>)

  function Answer(t: Target, kind: UInt16, id: UInt64, command: UInt16, status: CommandStatus, nativeError: UInt32,
                  logicalId: L.LogicalId, stepId: UInt64): Message
  {
    MessageOf(t.session, kind, id, Result(command, status, nativeError, t.process, t.uiThread, logicalId, stepId))
  }

  predicate HeaderOk(t: Target, h: Header) {
    && h.magic == FRAME_MAGIC && h.version == PROTOCOL_VERSION && h.flags == 0
    && h.session == t.session && h.requestId != 0 && h.requestId > t.lastId
  }

  // The windows after the window thread has processed a step.
  function Stepped(t: Target, mask: bv32, offset: Int32, stepId: UInt64): Target {
    t.(stepId := stepId, dOffset := if mask & D_BIT != 0 then offset else 0)
  }

  function Snapshot(t: Target, recorded: seq<L.LogicalId>): Body
    requires |recorded| <= MAXIMUM_EVIDENCE_RECORDS
  {
    Evidence(|recorded|, t.process, t.uiThread,
             seq(MAXIMUM_EVIDENCE_RECORDS, k requires 0 <= k =>
               if k < |recorded| then EvidenceRecord(recorded[k], t.process, t.uiThread) else EvidenceRecord(0, 0, 0)))
  }

  // The answer to a message with a sound header, and whether the loop is over.
  function HandleCommand(t: Target, m: Message, ui: UiAnswer, recorded: seq<L.LogicalId>): Handled
    requires |recorded| <= MAXIMUM_EVIDENCE_RECORDS
  {
    var kind, id := m.header.kind, m.header.requestId;
    if kind == SET_STEP then
      if !m.body.SetStep? || !ValidateSetStep(m.body.mask, m.body.offset) then
        Handled(t, Answer(t, COMMAND_RESULT, id, kind, InvalidPayload, ERROR_INVALID_PARAMETER, 0, 0), None)
      else
        Handled(if ui.applied then Stepped(t, m.body.mask, m.body.offset, m.body.stepId) else t,
                Answer(t, COMMAND_RESULT, id, kind, ui.status, ui.nativeError, 0, m.body.stepId), None)
    else if kind == DESTROY_WINDOW then
      if !m.body.Destroy? || m.body.reserved != 0 || !L.IsLogicalId(m.body.logicalId) then
        Handled(t, Answer(t, COMMAND_RESULT, id, kind, InvalidPayload, ERROR_INVALID_PARAMETER, 0, 0), None)
      else
        Handled(t, Answer(t, COMMAND_RESULT, id, kind, ui.status, ui.nativeError, m.body.logicalId, 0), None)
    else if kind == QUERY_EVIDENCE then
      if m.header.payloadSize != 0 then
        Handled(t, Answer(t, COMMAND_RESULT, id, kind, InvalidPayload, ERROR_INVALID_PARAMETER, 0, 0), None)
      else
        Handled(t, MessageOf(t.session, EVIDENCE, id, Snapshot(t, recorded)), None)
    else if kind == SHUTDOWN then
      if m.header.payloadSize != 0 then
        Handled(t, Answer(t, COMMAND_RESULT, id, kind, InvalidPayload, ERROR_INVALID_PARAMETER, 0, 0), None)
      else
        Handled(t, Answer(t, COMMAND_RESULT, id, kind, ui.status, ui.nativeError, 0, 0), Some(0))
    else
      Handled(t, Answer(t, COMMAND_RESULT, id, kind, UnsupportedCommand, ERROR_NOT_SUPPORTED, 0, 0), None)
  }

  function Handle(t: Target, m: Message, ui: UiAnswer, recorded: seq<L.LogicalId>): Handled
    requires |recorded| <= MAXIMUM_EVIDENCE_RECORDS
  {
    if !HeaderOk(t, m.header) then
      Handled(t, Answer(t, FATAL_ERROR, m.header.requestId, m.header.kind,
                        if m.header.session == t.session then InvalidFrame else SessionMismatch, ERROR_INVALID_DATA, 0, 0),
              Some(21))
    else HandleCommand(t.(lastId := m.header.requestId), m, ui, recorded)
  }

  // How the loop goes on after trying to write the response.
  function ExitAfter(h: Handled, writeOk: bool): Option<nat> {
    if writeOk || h.exit == Some(21) then h.exit else Some(22)
  }

  // --- The loop of the target ---

  // One iteration's input: a frame, what the window thread does with it, and the write.
  datatype Turn = Turn(frame: Message, ui: UiAnswer, recorded: seq<L.LogicalId>, writeOk: bool)

  ghost predicate TurnsOk(turns: seq<Turn>) {
    forall k | 0 <= k < |turns| :: |turns[k].recorded| <= MAXIMUM_EVIDENCE_RECORDS
  }

  datatype Served = Served(target: Target, code: nat, written: seq<Message>)

  // All turns until one ends the loop; then the stream ends or a read fails.
  ghost function Serve(t: Target, turns: seq<Turn>, cleanEnd: bool): Served
    requires TurnsOk(turns)
    decreases |turns|
  {
    if turns == [] then Served(t, if cleanEnd then 0 else 20, [])
    else
      var h := Handle(t, turns[0].frame, turns[0].ui, turns[0].recorded);
      var exit := ExitAfter(h, turns[0].writeOk);
      var written := if turns[0].writeOk then [h.response] else [];
      if exit.Some? then Served(h.target, exit.value, written)
      else
        var rest := Serve(h.target, turns[1..], cleanEnd);
        rest.(written := written + rest.written)
  }

  // What is still to be served, after responses that are already out.
  ghost function ServedAfter(written: seq<Message>, t: Target, turns: seq<Turn>, cleanEnd: bool): Served
    requires TurnsOk(turns)
  {
    var rest := Serve(t, turns, cleanEnd);
    rest.(written := written + rest.written)
  }

  lemma ServedAfterStep(written: seq<Message>, t: Target, turns: seq<Turn>, cleanEnd: bool)
    requires TurnsOk(turns) && turns != []
    ensures var h := Handle(t, turns[0].frame, turns[0].ui, turns[0].recorded);
            var exit := ExitAfter(h, turns[0].writeOk);
            var more := written + if turns[0].writeOk then [h.response] else [];
            ServedAfter(written, t, turns, cleanEnd) ==
            if exit.Some? then Served(h.target, exit.value, more)
            else ServedAfter(more, h.target, turns[1..], cleanEnd)
  {
    var h := Handle(t, turns[0].frame, turns[0].ui, turns[0].recorded);
    var one := if turns[0].writeOk then [h.response] else [];
    if ExitAfter(h, turns[0].writeOk).None? {
      var rest := Serve(h.target, turns[1..], cleanEnd).written;
      assert written + (one + rest) == (written + one) + rest;
    }
  }

  method RunCommandLoop(start: Target, turns: seq<Turn>, cleanEnd: bool)
    returns (target: Target, code: nat, written: seq<Message>)
    requires TurnsOk(turns)
    ensures Served(target, code, written) == Serve(start, turns, cleanEnd)
  {
    target, written := start, [];
    var shutdownRequested := false;
    var k := 0;
    while !shutdownRequested
      invariant k <= |turns|
      invariant ServedAfter([], start, turns, cleanEnd) ==
                if shutdownRequested then Served(target, 0, written)
                else ServedAfter(written, target, turns[k..], cleanEnd)
      decreases !shutdownRequested, |turns| - k
    {
      if k == |turns| {
        return target, if cleanEnd then 0 else 20, written;
      }
      var turn := turns[k];
      ServedAfterStep(written, target, turns[k..], cleanEnd);
      var header := turn.frame.header;
      var commonHeaderValid := header.magic == FRAME_MAGIC && header.version == PROTOCOL_VERSION && header.flags == 0;
      if !commonHeaderValid || header.session != target.session || header.requestId == 0 ||
         header.requestId <= target.lastId
      {
        var status := if header.session == target.session then InvalidFrame else SessionMismatch;
        if turn.writeOk {
          written := written +
            [Answer(target, FATAL_ERROR, header.requestId, header.kind, status, ERROR_INVALID_DATA, 0, 0)];
        }
        assert written + [] == written;
        return target, 21, written;
      }
      target := target.(lastId := header.requestId);
      var handled := HandleCommand(target, turn.frame, turn.ui, turn.recorded);
      target := handled.target;
      if !turn.writeOk {
        assert written + [] == written;
        return target, 22, written;
      }
      written := written + [handled.response];
      if handled.exit.Some? {
        shutdownRequested := true;
      } else {
        k := k + 1;
      }
    }
    return target, 0, written;
  }

  // --- The session object of the controller ---

  class CompanionSession {
    const session: L.SessionMarker
    const process: UInt32
    const uiThread: UInt32
    const ledger: L.TokenLedger
    var nextId: UInt64
    var usable: bool
    var alive: bool
    var pending: Option<Pending>

    ghost function Value(): Controller
      reads this, ledger
    {
      Controller(session, process, uiThread, nextId, usable, alive, ledger.Value(), pending)
    }

    constructor (session: L.SessionMarker, process: UInt32, uiThread: UInt32, ledger: L.TokenLedger, nextId: UInt64)
      ensures Value() == Controller(session, process, uiThread, nextId, true, true, ledger.Value(), None)
      ensures this.ledger == ledger
    {
      this.session, this.process, this.uiThread, this.ledger := session, process, uiThread, ledger;
      this.nextId, usable, alive, pending := nextId, true, true, None;
    }

    method IssueMonotonic() returns (id: UInt64)
      modifies this`nextId
      ensures (id, nextId) == IssueId(old(nextId))
    {
      id := 0;
      if nextId != 0 && nextId != UINT64_MAX {
        id := nextId;
        nextId := nextId + 1;
      }
    }

    method RefreshProcessState(running: bool) returns (ok: bool)
      modifies this`alive, ledger
      ensures Value() == Refresh(old(Value()), running) && ok == alive
    {
      if !alive {
        return false;
      }
      if !running {
        alive := false;
        ledger.RetireEverything();
        return false;
      }
      return true;
    }

    method PoisonProtocol()
      modifies this`usable, ledger
      ensures Value() == Poison(old(Value()))
    {
      if !usable {
        return;
      }
      usable := false;
      ledger.RetireEverything();
    }

    method GiveUpProcess()
      modifies this`alive, ledger
      ensures Value() == AfterShutdown(old(Value()))
    {
      alive := false;
      ledger.RetireEverything();
    }

    method BeginExchange(call: Call, env: CallEnv) returns (status: Option<CallStatus>, written: Option<Message>)
      modifies this, ledger
      ensures Begun(Value(), status, written) == Exchange(old(Value()), call, env)
    {
      var id := IssueMonotonic();
      if id == 0 {
        return Some(ProtocolFailure), None;
      }
      if !usable {
        return Some(SessionPoisoned), None;
      }
      var ok := RefreshProcessState(env.running);
      if !ok {
        return Some(SessionExited), None;
      }
      var request := RequestOf(session, id, call);
      if !env.writeOk {
        ok := RefreshProcessState(env.runningAfter);
        if ok {
          PoisonProtocol();
          return Some(SessionPoisoned), Some(request);
        }
        return Some(SessionExited), Some(request);
      }
      pending := Some(Pending(call, request));
      return None, Some(request);
    }

    // The native answer stands for one check after the other on the live window.
    method ResolveToken(token: L.Token, running: bool, window: WindowAnswer) returns (resolution: Resolution)
      requires L.LedgerOk(ledger.Value())
      modifies this, ledger
      ensures (Value(), resolution) == ResolveLive(old(Value()), token, running, window)
    {
      if !usable {
        return Poisoned;
      }
      var ok := RefreshProcessState(running);
      if !ok {
        return Exited;
      }
      var found := ledger.ResolveToken(token);
      if found.None? {
        return Stale;
      }
      var entry := found.value;
      if window.HandleChanged? || entry.process != process {
        GiveUpProcess();
        return WrongProcess;
      }
      resolution := CheckWindow(window, entry, uiThread);
      if !resolution.Resolved? {
        var _ := ledger.RetireToken(entry.logicalId);
      }
    }

    method StartDestroy(call: Call, env: CallEnv) returns (status: Option<CallStatus>, written: Option<Message>)
      requires L.LedgerOk(ledger.Value()) && call.DestroyCall?
      modifies this, ledger
      ensures Begun(Value(), status, written) == Begin(old(Value()), call, env)
    {
      var resolution := ResolveToken(call.token, env.runningBefore, env.window);
      if !resolution.Resolved? {
        return Some(RefusalOf(resolution)), None;
      }
      status, written := BeginExchange(call, env);
    }

    // A process that has already exited counts as shut down. Otherwise the request is
    // sent if the pipes are still usable, and the process is given up unless its
    // response is awaited.
    method StartShutdown(env: CallEnv) returns (status: Option<CallStatus>, written: Option<Message>)
      modifies this, ledger
      ensures Begun(Value(), status, written) == Begin(old(Value()), ShutdownCall, env)
    {
      var ok := RefreshProcessState(env.runningBefore);
      if !ok {
        return Some(ShutdownEnded(Signalled, false)), None;
      }
      written := None;
      if usable {
        status, written := BeginExchange(ShutdownCall, env);
        if status.None? {
          return;
        }
      }
      GiveUpProcess();
      status := Some(ShutdownEnded(env.ending, false));
    }

    method Start(call: Call, env: CallEnv) returns (status: Option<CallStatus>, written: Option<Message>)
      requires L.LedgerOk(ledger.Value())
      modifies this, ledger
      ensures Begun(Value(), status, written) == Begin(old(Value()), call, env)
    {
      match call
      case SetStepCall(stepId, mask, offset, requested) =>
        if stepId == 0 || !IsValidSelection(mask, offset, requested) {
          return Some(InvalidRequest), None;
        }
        status, written := BeginExchange(call, env);
      case DestroyCall(_) =>
        status, written := StartDestroy(call, env);
      case QueryCall =>
        status, written := BeginExchange(call, env);
      case ShutdownCall =>
        status, written := StartShutdown(env);
    }

    // The checks on a whole response; evidence is checked record by record.
    method CheckResponse(p: Pending, m: Message) returns (accepted: bool)
      ensures accepted <==> Accepts(Value(), p, m)
    {
      var expected := if p.call.QueryCall? then EVIDENCE else COMMAND_RESULT;
      if !EnvelopeMatches(m.header, session, expected, p.request.header.requestId) {
        return false;
      }
      if !p.call.QueryCall? {
        return ResultOk(m, p.call, process, uiThread);
      }
      if !EvidenceHeadOk(m, process, uiThread) {
        return false;
      }
      for k := 0 to m.body.count
        invariant forall j | 0 <= j < k :: RecordOk(m.body.records[j], process, uiThread)
      {
        if !RecordOk(m.body.records[k], process, uiThread) {
          return false;
        }
      }
      return true;
    }

    method ReceiveOutcome(p: Pending, outcome: ReadOutcome, running: bool) returns (status: CallStatus)
      requires L.LedgerOk(ledger.Value())
      modifies this`usable, this`alive, ledger
      ensures (Value(), status) == Received(old(Value()), p, outcome, running)
    {
      match outcome {
        case Frame(m) =>
          var accepted := CheckResponse(p, m);
          if !accepted {
            PoisonProtocol();
            return SessionPoisoned;
          }
          status := StatusOf(m);
          if p.call.DestroyCall? && status.Completed? {
            var _ := ledger.RetireToken(p.call.token.logicalId);
          }
        case Timeout =>
          PoisonProtocol();
          return SessionPoisoned;
        case PayloadTooLarge =>
          PoisonProtocol();
          return SessionPoisoned;
        case ProcessExited =>
          var _ := RefreshProcessState(running);
          return SessionExited;
        case ReadFailed =>
          var ok := RefreshProcessState(running);
          if ok {
            PoisonProtocol();
          }
          return if ok then SessionPoisoned else SessionExited;
      }
    }

    method Receive(outcome: ReadOutcome, running: bool, ending: Departure) returns (status: CallStatus)
      requires pending.Some? && L.LedgerOk(ledger.Value())
      modifies this, ledger
      ensures (Value(), status) == Finish(old(Value()), outcome, running, ending)
    {
      var p := pending.value;
      pending := None;
      status := ReceiveOutcome(p, outcome, running);
      if p.call.ShutdownCall? {
        GiveUpProcess();
        status := ShutdownEnded(ending, status.Completed?);
      }
    }
  }
}
