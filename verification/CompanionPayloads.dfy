/** The bytes of command and result payloads, and messages as frames on a pipe. */
module CompanionPayloads {
  import opened Wrappers
  import L = CompanionLedger
  import opened CompanionFrames
  import opened CompanionProtocol

  // --- Numbers and codes ---

  // Two's complement in 32 bits.
  function Unsigned(x: Int32): nat {
    if x < 0 then x + 0x1_0000_0000 else x
  }

  function Signed(n: nat): Int32
    requires n < 0x1_0000_0000
  {
    if n < 0x8000_0000 then n else n - 0x1_0000_0000
  }

  function CodeOf(status: CommandStatus): nat {
    match status
    case Succeeded => 0
    case InvalidFrame => 1
    case InvalidPayload => 2
    case InvalidWindow => 3
    case UiThreadUnavailable => 4
    case NativeFailure => 5
    case SessionMismatch => 6
    case UnsupportedCommand => 7
    case Unlisted(code) => code
  }

  function StatusAt(code: UInt16): CommandStatus {
    match code
    case 0 => CommandStatus.Succeeded
    case 1 => InvalidFrame
    case 2 => InvalidPayload
    case 3 => CommandStatus.InvalidWindow
    case 4 => UiThreadUnavailable
    case 5 => NativeFailure
    case 6 => SessionMismatch
    case 7 => UnsupportedCommand
    case _ => Unlisted(code)
  }

  // --- Payloads ---

  // Evidence is modelled by its identity fields only and has no bytes here.
  predicate HasBytes(b: Body) {
    !b.Evidence? && !b.Undecoded?
  }

  function EncodeBody(b: Body): (bytes: seq<Byte>)
    requires HasBytes(b)
    ensures |bytes| == BodySize(b)
  {
    match b
    case Nothing => []
    case SetStep(mask, offset, stepId) => ToBytes(mask as nat, 4) + ToBytes(Unsigned(offset), 4) + ToBytes(stepId, 8)
    case Destroy(logicalId, reserved) => ToBytes(logicalId, 4) + ToBytes(reserved, 4)
    case Result(_, _, _, _, _, _, _) => ResultHead(b) + ResultTail(b)
  }

  function ResultHead(b: Body): (bytes: seq<Byte>)
    requires b.Result?
    ensures |bytes| == 12
  {
    ToBytes(b.command, 2) + ToBytes(CodeOf(b.status), 2) + ToBytes(b.nativeError, 4) + ToBytes(b.process, 4)
  }

  function ResultTail(b: Body): (bytes: seq<Byte>)
    requires b.Result?
    ensures |bytes| == 20
  {
    ToBytes(b.uiThread, 4) + ToBytes(b.answeredId, 4) + ToBytes(0, 4) + ToBytes(b.answeredStep, 8)
  }

  function DecodeSetStep(bytes: seq<Byte>): Body
    requires |bytes| == 16
  {
    Widths();
    SetStep(FromBytes(bytes[..4]) as bv32, Signed(FromBytes(bytes[4..8])), FromBytes(bytes[8..]))
  }

  function DecodeDestroy(bytes: seq<Byte>): Body
    requires |bytes| == 8
  {
    Widths();
    Destroy(FromBytes(bytes[..4]), FromBytes(bytes[4..]))
  }

  function DecodeResult(bytes: seq<Byte>): Body
    requires |bytes| == 32
  {
    Widths();
    Result(FromBytes(bytes[..2]), StatusAt(FromBytes(bytes[2..4])), FromBytes(bytes[4..8]), FromBytes(bytes[8..12]),
           FromBytes(bytes[12..16]), FromBytes(bytes[16..20]), FromBytes(bytes[24..]))
  }

  // A payload is what its exact size decodes to.
  function DecodeBody(bytes: seq<Byte>): Body {
    if |bytes| == 0 then Nothing
    else if |bytes| == 16 then DecodeSetStep(bytes)
    else if |bytes| == 8 then DecodeDestroy(bytes)
    else if |bytes| == 32 then DecodeResult(bytes)
    else Undecoded(|bytes|)
  }

  lemma MaskSurvives(mask: bv32)
    ensures mask as nat < 0x1_0000_0000 && (mask as nat) as bv32 == mask
  {
  }

  lemma SetStepSurvives(mask: bv32, offset: Int32, stepId: UInt64)
    ensures DecodeSetStep(EncodeBody(SetStep(mask, offset, stepId))) == SetStep(mask, offset, stepId)
  {
    Widths();
    MaskSurvives(mask);
    var bytes := EncodeBody(SetStep(mask, offset, stepId));
    assert bytes[..4] == ToBytes(mask as nat, 4);
    assert bytes[4..8] == ToBytes(Unsigned(offset), 4) && bytes[8..] == ToBytes(stepId, 8);
    FromToBytes(mask as nat, 4);
    FromToBytes(Unsigned(offset), 4);
    FromToBytes(stepId, 8);
  }

  lemma DestroySurvives(logicalId: L.LogicalId, reserved: UInt32)
    ensures DecodeDestroy(EncodeBody(Destroy(logicalId, reserved))) == Destroy(logicalId, reserved)
  {
    Widths();
    var bytes := EncodeBody(Destroy(logicalId, reserved));
    assert bytes[..4] == ToBytes(logicalId, 4) && bytes[4..] == ToBytes(reserved, 4);
    FromToBytes(logicalId, 4);
    FromToBytes(reserved, 4);
  }

  lemma ResultParts(b: Body)
    requires b.Result?
    ensures var bytes := EncodeBody(b);
            && bytes[..2] == ToBytes(b.command, 2) && bytes[2..4] == ToBytes(CodeOf(b.status), 2)
            && bytes[4..8] == ToBytes(b.nativeError, 4) && bytes[8..12] == ToBytes(b.process, 4)
            && bytes[12..16] == ToBytes(b.uiThread, 4) && bytes[16..20] == ToBytes(b.answeredId, 4)
            && bytes[24..] == ToBytes(b.answeredStep, 8)
  {
    var bytes, head, tail := EncodeBody(b), ResultHead(b), ResultTail(b);
    assert head[..2] == ToBytes(b.command, 2) && head[2..4] == ToBytes(CodeOf(b.status), 2);
    assert head[4..8] == ToBytes(b.nativeError, 4) && head[8..12] == ToBytes(b.process, 4);
    assert tail[..4] == ToBytes(b.uiThread, 4) && tail[4..8] == ToBytes(b.answeredId, 4);
    assert tail[12..] == ToBytes(b.answeredStep, 8);
    assert bytes == head + tail;
  }

  lemma ResultHeadSurvives(b: Body)
    requires b.Result?
    ensures var r := DecodeResult(EncodeBody(b));
            r.command == b.command && r.status == b.status && r.nativeError == b.nativeError && r.process == b.process
  {
    Widths();
    ResultParts(b);
    FromToBytes(b.command, 2);
    FromToBytes(CodeOf(b.status), 2);
    FromToBytes(b.nativeError, 4);
    FromToBytes(b.process, 4);
  }

  lemma ResultSurvives(b: Body)
    requires b.Result?
    ensures DecodeResult(EncodeBody(b)) == b
  {
    Widths();
    ResultHeadSurvives(b);
    ResultParts(b);
    FromToBytes(b.uiThread, 4);
    FromToBytes(b.answeredId, 4);
    FromToBytes(b.answeredStep, 8);
  }

  // Requests and results are read back as they were written.
  lemma PayloadRoundTrip(b: Body)
    requires HasBytes(b)
    ensures DecodeBody(EncodeBody(b)) == b
  {
    match b
    case Nothing =>
    case SetStep(mask, offset, stepId) => SetStepSurvives(mask, offset, stepId);
    case Destroy(logicalId, reserved) => DestroySurvives(logicalId, reserved);
    case Result(_, _, _, _, _, _, _) => ResultSurvives(b);
  }

  // --- The layout of payloads ---

  // The codes of the statuses on the wire.
  lemma StatusCodes()
    ensures CodeOf(CommandStatus.Succeeded) == 0 && CodeOf(InvalidFrame) == 1 && CodeOf(InvalidPayload) == 2
    ensures CodeOf(CommandStatus.InvalidWindow) == 3 && CodeOf(UiThreadUnavailable) == 4 && CodeOf(NativeFailure) == 5
    ensures CodeOf(SessionMismatch) == 6 && CodeOf(UnsupportedCommand) == 7
  {
  }

  // Where the fields of a step lie; a negative offset is written in two's complement.
  lemma SetStepLayout(mask: bv32, offset: Int32, stepId: UInt64)
    ensures var bytes := EncodeBody(SetStep(mask, offset, stepId));
            && |bytes| == 16 && Word(bytes, 0) == mask as nat && Long(bytes, 8) == stepId
            && Word(bytes, 4) == if offset >= 0 then offset else 0x1_0000_0000 + offset
  {
    Widths();
    MaskSurvives(mask);
    var bytes := EncodeBody(SetStep(mask, offset, stepId));
    assert bytes[0..4] == ToBytes(mask as nat, 4);
    assert bytes[4..8] == ToBytes(Unsigned(offset), 4) && bytes[8..16] == ToBytes(stepId, 8);
    FromToBytes(mask as nat, 4);
    FromToBytes(Unsigned(offset), 4);
    FromToBytes(stepId, 8);
    FromFour(bytes, 0);
    FromFour(bytes, 4);
    FromEight(bytes, 8);
  }

  // Where those of the other payloads are read.
  lemma DestroyLayout(bytes: seq<Byte>)
    requires |bytes| == 8
    ensures DecodeDestroy(bytes).logicalId == Word(bytes, 0) && DecodeDestroy(bytes).reserved == Word(bytes, 4)
  {
    Widths();
    FromFour(bytes, 0);
    FromFour(bytes, 4);
    assert bytes[..4] == bytes[0..4] && bytes[4..] == bytes[4..8];
  }

  lemma ResultLayout(bytes: seq<Byte>)
    requires |bytes| == 32
    ensures var r := DecodeResult(bytes);
            && r.command == Half(bytes, 0) && CodeOf(r.status) == Half(bytes, 2) && r.nativeError == Word(bytes, 4)
            && r.process == Word(bytes, 8) && r.uiThread == Word(bytes, 12) && r.answeredId == Word(bytes, 16)
            && r.answeredStep == Long(bytes, 24)
  {
    Widths();
    FromTwo(bytes, 0);
    FromTwo(bytes, 2);
    FromFour(bytes, 4);
    FromFour(bytes, 8);
    FromFour(bytes, 12);
    FromFour(bytes, 16);
    FromEight(bytes, 24);
    assert bytes[..2] == bytes[0..2] && bytes[24..] == bytes[24..32];
  }

  // What a payload's exact size decodes it to.
  lemma SizesDecode(bytes: seq<Byte>)
    ensures DecodeBody(bytes).Nothing? <==> |bytes| == 0
    ensures DecodeBody(bytes).SetStep? <==> |bytes| == 16
    ensures DecodeBody(bytes).Destroy? <==> |bytes| == 8
    ensures DecodeBody(bytes).Result? <==> |bytes| == 32
    ensures |bytes| !in {0, 8, 16, 32} <==> DecodeBody(bytes) == Undecoded(|bytes|)
  {
  }

  // --- Messages as frames ---

  predicate Framed(m: Message) {
    HasBytes(m.body) && m.header.payloadSize == BodySize(m.body)
  }

  function FrameOf(m: Message): Frame
    requires Framed(m)
  {
    CompanionFrames.Frame.Frame(m.header, EncodeBody(m.body))
  }

  function MessageIn(f: Frame): Message {
    Message(f.header, DecodeBody(f.payload))
  }

  function FramesOf(messages: seq<Message>): (frames: seq<Frame>)
    requires forall k | 0 <= k < |messages| :: Framed(messages[k])
    ensures |frames| == |messages|
    ensures forall k | 0 <= k < |frames| :: frames[k] == FrameOf(messages[k])
  {
    seq(|messages|, k requires 0 <= k < |messages| => FrameOf(messages[k]))
  }

  // Messages written to a pipe one after the other are read back as these messages,
  // and the stream then ends cleanly.
  lemma MessagesSurvive(messages: seq<Message>)
    requires forall k | 0 <= k < |messages| :: Framed(messages[k])
    ensures var (frames, ending) := ParseAll(EncodeAll(FramesOf(messages)));
            && ending == CleanEnd && |frames| == |messages|
            && forall k | 0 <= k < |messages| :: MessageIn(frames[k]) == messages[k]
  {
    var frames := FramesOf(messages);
    forall k | 0 <= k < |frames| ensures WellSized(frames[k]) && MessageIn(frames[k]) == messages[k] {
      PayloadRoundTrip(messages[k].body);
    }
    StreamRoundTrip(frames);
  }

  // In particular every request of the controller, and every answer of the target but
  // evidence, travels as a frame.
  lemma RequestsAreFramed(session: L.SessionMarker, id: UInt64, call: Call)
    ensures Framed(RequestOf(session, id, call))
  {
  }

  lemma AnswersAreFramed(t: Target, m: Message, ui: UiAnswer, recorded: seq<L.LogicalId>)
    requires |recorded| <= MAXIMUM_EVIDENCE_RECORDS
    ensures var response := Handle(t, m, ui, recorded).response; response.body.Result? ==> Framed(response)
  {
  }
}
