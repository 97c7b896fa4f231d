/** When and how the target's command loop ends, and what it answers to each frame,
    told by the frames alone. */
module CompanionLoop {
  import opened Wrappers
  import L = CompanionLedger
  import opened CompanionFrames
  import opened CompanionProtocol

  // --- What one frame leads to ---

  // A header of this session that is newer than the last one.
  predicate HeaderSound(h: Header, session: L.SessionMarker, lastId: UInt64) {
    h.magic == 0x3143_4250 && h.version == 1 && h.flags == 0 && h.session == session && h.requestId > lastId
  }

  // The payload its command demands; a step may single out window D alone, by at most 64.
  predicate PayloadFits(m: Message) {
    match m.header.kind
    case 2 =>
      m.body.SetStep? && (m.body.mask == 0 || m.body.mask == 8) && -64 <= m.body.offset <= 64 &&
      (m.body.mask == 0 ==> m.body.offset == 0)
    case 3 => m.body.Destroy? && m.body.reserved == 0 && 1 <= m.body.logicalId <= 4
    case _ => m.header.payloadSize == 0
  }

  predicate IsCommand(kind: UInt16) {
    2 <= kind <= 5
  }

  lemma OnlyMaskD(mask: bv32, offset: Int32)
    ensures ValidateSetStep(mask, offset) <==>
            (mask == 0 || mask == 8) && -64 <= offset <= 64 && (mask == 0 ==> offset == 0)
  {
    if mask & !D_BIT == 0 {
      assert mask == 0 || mask == 8;
    }
  }

  // A result of the target, for the request with this identifier.
  predicate IsResult(t: Target, r: Message, kind: UInt16, m: Message, status: CommandStatus, nativeError: UInt32) {
    && r.header == Header(0x3143_4250, 1, kind, 32, 0, t.session, m.header.requestId)
    && r.body.Result? && r.body.command == m.header.kind && r.body.status == status
    && r.body.nativeError == nativeError && r.body.process == t.process && r.body.uiThread == t.uiThread
  }

  // The step the windows carry after a frame.
  function WindowsAfter(t: Target, m: Message, applied: bool): (UInt64, Int32) {
    if m.header.kind == 2 && PayloadFits(m) && applied then (m.body.stepId, m.body.offset) else (t.stepId, t.dOffset)
  }

  // What a frame with a sound header is answered: what its command demands is done by
  // the window thread, whose status is reported with the step or the window; another
  // payload or an unknown command is refused, and leaves the windows alone.
  lemma SoundHeaderAnswered(t: Target, m: Message, ui: UiAnswer, recorded: seq<L.LogicalId>)
    requires HeaderSound(m.header, t.session, t.lastId) && |recorded| <= MAXIMUM_EVIDENCE_RECORDS && m.header.kind != 4
    ensures var h := Handle(t, m, ui, recorded);
            && (h.target.stepId, h.target.dOffset) == WindowsAfter(t, m, ui.applied)
            && h.target == t.(lastId := m.header.requestId, stepId := h.target.stepId, dOffset := h.target.dOffset)
            && (if !IsCommand(m.header.kind) then IsResult(t, h.response, 6, m, UnsupportedCommand, 50)
                else if !PayloadFits(m) then IsResult(t, h.response, 6, m, InvalidPayload, 87)
                else IsResult(t, h.response, 6, m, ui.status, ui.nativeError))
            && h.response.body.answeredStep ==
               (if m.header.kind == 2 && PayloadFits(m) then m.body.stepId else 0)
            && h.response.body.answeredId ==
               (if m.header.kind == 3 && PayloadFits(m) then m.body.logicalId else 0)
            && h.exit == (if m.header.kind == 5 && PayloadFits(m) then Some(0) else None)
  {
    if m.header.kind == 2 && m.body.SetStep? {
      OnlyMaskD(m.body.mask, m.body.offset);
    }
  }

  // A query is answered with what has been recorded, in order, in a list of fixed length.
  lemma QueryAnswered(t: Target, m: Message, ui: UiAnswer, recorded: seq<L.LogicalId>)
    requires HeaderSound(m.header, t.session, t.lastId) && |recorded| <= MAXIMUM_EVIDENCE_RECORDS && m.header.kind == 4
    ensures var h := Handle(t, m, ui, recorded);
            && h.exit.None? && h.target == t.(lastId := m.header.requestId)
            && if !PayloadFits(m) then IsResult(t, h.response, 6, m, InvalidPayload, 87)
               else
                 && h.response.header == Header(0x3143_4250, 1, 7, 49184, 0, t.session, m.header.requestId)
                 && h.response.body.Evidence? && h.response.body.count == |recorded| && |h.response.body.records| == 512
                 && h.response.body.process == t.process && h.response.body.uiThread == t.uiThread
                 && forall k | 0 <= k < 512 ::
                      h.response.body.records[k] == if k < |recorded|
                                                    then EvidenceRecord(recorded[k], t.process, t.uiThread)
                                                    else EvidenceRecord(0, 0, 0)
  {
  }

  // Any other header is fatal, told apart only by the session it names.
  lemma UnsoundHeaderAnswered(t: Target, m: Message, ui: UiAnswer, recorded: seq<L.LogicalId>)
    requires !HeaderSound(m.header, t.session, t.lastId) && |recorded| <= MAXIMUM_EVIDENCE_RECORDS
    ensures var h := Handle(t, m, ui, recorded);
            && h.exit == Some(21) && h.target == t
            && IsResult(t, h.response, 8, m, if m.header.session == t.session then InvalidFrame else SessionMismatch, 13)
  {
  }

  // --- How the loop ends ---

  predicate SoundTurn(start: Target, turns: seq<Turn>, k: nat)
    requires k < |turns|
  {
    HeaderSound(turns[k].frame.header, start.session,
                if k == 0 then start.lastId else turns[k - 1].frame.header.requestId)
  }

  predicate IsShutdown(m: Message) {
    m.header.kind == 5 && m.header.payloadSize == 0
  }

  // A turn after which the loop goes on.
  predicate GoesOn(start: Target, turns: seq<Turn>, k: nat)
    requires k < |turns|
  {
    SoundTurn(start, turns, k) && turns[k].writeOk && !IsShutdown(turns[k].frame)
  }

  ghost predicate AllGoOn(start: Target, turns: seq<Turn>) {
    forall k | 0 <= k < |turns| :: GoesOn(start, turns, k)
  }

  // The first turn after which it does not.
  ghost predicate EndsAt(start: Target, turns: seq<Turn>, k: nat) {
    k < |turns| && !GoesOn(start, turns, k) && forall j | 0 <= j < k :: GoesOn(start, turns, j)
  }

  // What the end of the loop is, by the turn that ends it.
  predicate EndedBy(start: Target, turns: seq<Turn>, k: nat, code: nat, written: nat)
    requires k < |turns|
  {
    if !SoundTurn(start, turns, k) then code == 21 && written == k + (if turns[k].writeOk then 1 else 0)
    else if !turns[k].writeOk then code == 22 && written == k
    else code == 0 && written == k + 1
  }

  lemma TurnAnswered(t: Target, turn: Turn)
    requires |turn.recorded| <= MAXIMUM_EVIDENCE_RECORDS
    ensures var h := Handle(t, turn.frame, turn.ui, turn.recorded);
            var sound := HeaderSound(turn.frame.header, t.session, t.lastId);
            && h.exit == (if !sound then Some(21) else if IsShutdown(turn.frame) then Some(0) else None)
            && h.target.session == t.session && (sound ==> h.target.lastId == turn.frame.header.requestId)
  {
    if HeaderSound(turn.frame.header, t.session, t.lastId) {
      if turn.frame.header.kind == 4 {
        QueryAnswered(t, turn.frame, turn.ui, turn.recorded);
      } else {
        SoundHeaderAnswered(t, turn.frame, turn.ui, turn.recorded);
      }
    } else {
      UnsoundHeaderAnswered(t, turn.frame, turn.ui, turn.recorded);
    }
  }

  lemma RestOfTurns(start: Target, next: Target, turns: seq<Turn>, k: nat)
    requires 0 < k < |turns| && next.session == start.session && next.lastId == turns[0].frame.header.requestId
    ensures SoundTurn(start, turns, k) <==> SoundTurn(next, turns[1..], k - 1)
    ensures GoesOn(start, turns, k) <==> GoesOn(next, turns[1..], k - 1)
  {
  }

  lemma {:induction false} LoopEndsAt(start: Target, turns: seq<Turn>, cleanEnd: bool, k: nat)
    requires TurnsOk(turns) && EndsAt(start, turns, k)
    ensures var s := Serve(start, turns, cleanEnd); EndedBy(start, turns, k, s.code, |s.written|)
    decreases |turns|
  {
    TurnAnswered(start, turns[0]);
    if k > 0 {
      assert GoesOn(start, turns, 0);
      var next := Handle(start, turns[0].frame, turns[0].ui, turns[0].recorded).target;
      forall j | 0 <= j < k ensures GoesOn(start, turns, j + 1) <==> GoesOn(next, turns[1..], j) {
        RestOfTurns(start, next, turns, j + 1);
      }
      RestOfTurns(start, next, turns, k);
      LoopEndsAt(next, turns[1..], cleanEnd, k - 1);
    }
  }

  lemma {:induction false} LoopRunsOut(start: Target, turns: seq<Turn>, cleanEnd: bool)
    requires TurnsOk(turns) && AllGoOn(start, turns)
    ensures var s := Serve(start, turns, cleanEnd); s.code == (if cleanEnd then 0 else 20) && |s.written| == |turns|
    decreases |turns|
  {
    if turns != [] {
      TurnAnswered(start, turns[0]);
      assert GoesOn(start, turns, 0);
      var next := Handle(start, turns[0].frame, turns[0].ui, turns[0].recorded).target;
      forall j | 0 <= j < |turns[1..]| ensures GoesOn(next, turns[1..], j) {
        assert GoesOn(start, turns, j + 1);
        RestOfTurns(start, next, turns, j + 1);
      }
      LoopRunsOut(next, turns[1..], cleanEnd);
    }
  }

  lemma {:induction false} SomeTurnEnds(start: Target, turns: seq<Turn>, k: nat) returns (first: nat)
    requires k < |turns| && !GoesOn(start, turns, k)
    ensures first <= k && EndsAt(start, turns, first)
  {
    first := 0;
    while GoesOn(start, turns, first)
      invariant first <= k && forall j | 0 <= j < first :: GoesOn(start, turns, j)
      decreases k - first
    {
      first := first + 1;
    }
  }

  // The responses written are those to the first turns, in their order.
  lemma {:induction false} ResponsesInOrder(start: Target, turns: seq<Turn>, cleanEnd: bool)
    requires TurnsOk(turns)
    ensures var written := Serve(start, turns, cleanEnd).written;
            && |written| <= |turns|
            && forall j | 0 <= j < |written| ::
                 && written[j].header.requestId == turns[j].frame.header.requestId
                 && written[j].header.session == start.session
    decreases |turns|
  {
    if turns != [] {
      TurnAnswered(start, turns[0]);
      ResponsesInOrder(Handle(start, turns[0].frame, turns[0].ui, turns[0].recorded).target, turns[1..], cleanEnd);
    }
  }

  // A shutdown whose response is written ends the loop with zero, whatever follows it.
  lemma ShutdownEndsLoop(start: Target, turns: seq<Turn>, cleanEnd: bool, k: nat)
    requires TurnsOk(turns) && k < |turns| && (forall j | 0 <= j < k :: GoesOn(start, turns, j))
    requires SoundTurn(start, turns, k) && IsShutdown(turns[k].frame) && turns[k].writeOk
    ensures var s := Serve(start, turns, cleanEnd); s.code == 0 && |s.written| == k + 1
  {
    LoopEndsAt(start, turns, cleanEnd, k);
  }

  ghost predicate EndsUnsound(start: Target, turns: seq<Turn>) {
    exists k: nat :: EndsAt(start, turns, k) && !SoundTurn(start, turns, k)
  }

  ghost predicate EndsUnwritten(start: Target, turns: seq<Turn>) {
    exists k: nat :: EndsAt(start, turns, k) && SoundTurn(start, turns, k) && !turns[k].writeOk
  }

  ghost predicate EndsShutDown(start: Target, turns: seq<Turn>) {
    exists k: nat :: EndsAt(start, turns, k) && SoundTurn(start, turns, k) && turns[k].writeOk
  }

  lemma OneTurnEnds(start: Target, turns: seq<Turn>, k: nat)
    requires EndsAt(start, turns, k)
    ensures EndsUnsound(start, turns) <==> !SoundTurn(start, turns, k)
    ensures EndsUnwritten(start, turns) <==> SoundTurn(start, turns, k) && !turns[k].writeOk
    ensures EndsShutDown(start, turns) <==> SoundTurn(start, turns, k) && turns[k].writeOk
  {
    forall j: nat | EndsAt(start, turns, j) ensures j == k {
      FirstIsOne(start, turns, j, k);
    }
  }

  lemma FirstIsOne(start: Target, turns: seq<Turn>, j: nat, k: nat)
    requires EndsAt(start, turns, j) && EndsAt(start, turns, k)
    ensures j == k
  {
  }

  // Exactly when each code is returned: zero after the end of the stream or a written
  // answer to a shutdown, 20 after a failed read, 21 after an unsound header and 22
  // after a failed write.
  lemma CodesExactly(start: Target, turns: seq<Turn>, cleanEnd: bool)
    requires TurnsOk(turns)
    ensures var code := Serve(start, turns, cleanEnd).code;
            && (code == 20 <==> AllGoOn(start, turns) && !cleanEnd)
            && (code == 21 <==> EndsUnsound(start, turns))
            && (code == 22 <==> EndsUnwritten(start, turns))
            && (code == 0 <==> (AllGoOn(start, turns) && cleanEnd) || EndsShutDown(start, turns))
            && code in {0, 20, 21, 22}
  {
    if AllGoOn(start, turns) {
      LoopRunsOut(start, turns, cleanEnd);
    } else {
      var k :| 0 <= k < |turns| && !GoesOn(start, turns, k);
      var first := SomeTurnEnds(start, turns, k);
      LoopEndsAt(start, turns, cleanEnd, first);
      OneTurnEnds(start, turns, first);
    }
  }
}
