/** Frames on the companion pipes: little-endian headers, exact reads and writes in
    chunks of any size, and reading a whole stream back. */
module CompanionFrames {
  import opened Wrappers
  import opened CompanionLedger

  type Byte = x: int | 0 <= x < 256
  type UInt16 = x: int | 0 <= x < 0x1_0000

  const FRAME_MAGIC: UInt32 := 0x3143_4250
  const PROTOCOL_VERSION: UInt16 := 1
  const HEADER_BYTES: nat := 40
  const MAX_PAYLOAD: nat := 64 * 1024

  // --- Little-endian numbers ---

  function Power256(count: nat): nat {
    if count == 0 then 1 else 256 * Power256(count - 1)
  }

  function ToBytes(value: nat, count: nat): (bytes: seq<Byte>)
    ensures |bytes| == count
  {
    if count == 0 then [] else [value % 256] + ToBytes(value / 256, count - 1)
  }

  function FromBytes(bytes: seq<Byte>): (value: nat)
    ensures value < Power256(|bytes|)
  {
    if bytes == [] then 0 else bytes[0] + 256 * FromBytes(bytes[1..])
  }

  lemma {:induction false} FromToBytes(value: nat, count: nat)
    requires value < Power256(count)
    ensures FromBytes(ToBytes(value, count)) == value
  {
    if count > 0 {
      FromToBytes(value / 256, count - 1);
      assert ToBytes(value, count)[1..] == ToBytes(value / 256, count - 1);
    }
  }

  lemma {:induction false} ToFromBytes(bytes: seq<Byte>)
    ensures ToBytes(FromBytes(bytes), |bytes|) == bytes
  {
    if bytes != [] {
      ToFromBytes(bytes[1..]);
      assert bytes == [bytes[0]] + bytes[1..];
    }
  }

  lemma Widths()
    ensures Power256(2) == 0x1_0000 && Power256(4) == 0x1_0000_0000 && Power256(8) == UINT64_MAX + 1
  {
    assert Power256(1) == 256;
    assert Power256(3) == 256 * 0x1_0000;
    assert Power256(5) == 256 * 0x1_0000_0000;
    assert Power256(6) == 256 * 256 * 0x1_0000_0000;
    assert Power256(7) == 256 * 256 * 256 * 0x1_0000_0000;
  }

  // --- Headers ---

  datatype Header = Header(magic: UInt32, version: UInt16, kind: UInt16, payloadSize: UInt32, flags: UInt32,
                           session: SessionMarker, requestId: UInt64)

  function EncodeHeader(h: Header): (bytes: seq<Byte>)
    ensures |bytes| == HEADER_BYTES
  {
    ToBytes(h.magic, 4) + ToBytes(h.version, 2) + ToBytes(h.kind, 2) + ToBytes(h.payloadSize, 4) + ToBytes(h.flags, 4) +
    ToBytes(h.session.high, 8) + ToBytes(h.session.low, 8) + ToBytes(h.requestId, 8)
  }

  function DecodeHeader(bytes: seq<Byte>): Header
    requires |bytes| == HEADER_BYTES
  {
    Widths();
    Header(FromBytes(bytes[..4]), FromBytes(bytes[4..6]), FromBytes(bytes[6..8]), FromBytes(bytes[8..12]),
           FromBytes(bytes[12..16]), SessionMarker(FromBytes(bytes[16..24]), FromBytes(bytes[24..32])),
           FromBytes(bytes[32..]))
  }

  lemma HeaderRoundTrip(h: Header)
    ensures DecodeHeader(EncodeHeader(h)) == h
  {
    Widths();
    var bytes := EncodeHeader(h);
    assert bytes[..4] == ToBytes(h.magic, 4) && bytes[4..6] == ToBytes(h.version, 2);
    assert bytes[6..8] == ToBytes(h.kind, 2) && bytes[8..12] == ToBytes(h.payloadSize, 4);
    assert bytes[12..16] == ToBytes(h.flags, 4) && bytes[16..24] == ToBytes(h.session.high, 8);
    assert bytes[24..32] == ToBytes(h.session.low, 8) && bytes[32..] == ToBytes(h.requestId, 8);
    FromToBytes(h.magic, 4);
    FromToBytes(h.version, 2);
    FromToBytes(h.kind, 2);
    FromToBytes(h.payloadSize, 4);
    FromToBytes(h.flags, 4);
    FromToBytes(h.session.high, 8);
    FromToBytes(h.session.low, 8);
    FromToBytes(h.requestId, 8);
  }

  // --- The layout, byte by byte ---

  // The numbers in two, four and eight bytes from a place on, the low byte first.
  function Half(bytes: seq<Byte>, at: nat): nat
    requires at + 2 <= |bytes|
  {
    (bytes[at] as int) + 0x100 * (bytes[at + 1] as int)
  }

  function Word(bytes: seq<Byte>, at: nat): nat
    requires at + 4 <= |bytes|
  {
    Half(bytes, at) + 0x1_0000 * Half(bytes, at + 2)
  }

  function Long(bytes: seq<Byte>, at: nat): nat
    requires at + 8 <= |bytes|
  {
    Word(bytes, at) + 0x1_0000_0000 * Word(bytes, at + 4)
  }

  lemma FromPair(bytes: seq<Byte>)
    requires |bytes| >= 2
    ensures FromBytes(bytes) == (bytes[0] as int) + 0x100 * (bytes[1] as int) + 0x1_0000 * FromBytes(bytes[2..])
  {
    assert bytes[1..][1..] == bytes[2..];
  }

  lemma FromTwo(bytes: seq<Byte>, at: nat)
    requires at + 2 <= |bytes|
    ensures FromBytes(bytes[at..at + 2]) == Half(bytes, at)
  {
    FromPair(bytes[at..at + 2]);
  }

  lemma FromFour(bytes: seq<Byte>, at: nat)
    requires at + 4 <= |bytes|
    ensures FromBytes(bytes[at..at + 4]) == Word(bytes, at)
  {
    FromPair(bytes[at..at + 4]);
    FromTwo(bytes, at + 2);
    assert bytes[at..at + 4][2..] == bytes[at + 2..at + 4];
  }

  lemma FromEight(bytes: seq<Byte>, at: nat)
    requires at + 8 <= |bytes|
    ensures FromBytes(bytes[at..at + 8]) == Long(bytes, at)
  {
    FromPair(bytes[at..at + 8]);
    FromPair(bytes[at + 2..at + 8]);
    FromFour(bytes, at + 4);
    assert bytes[at..at + 8][2..] == bytes[at + 2..at + 8] && bytes[at + 2..at + 8][2..] == bytes[at + 4..at + 8];
  }

  // The fields of a header lie one behind the other, low bytes first.
  lemma HeaderLayout(bytes: seq<Byte>)
    requires |bytes| == HEADER_BYTES
    ensures var h := DecodeHeader(bytes);
            && h.magic == Word(bytes, 0) && h.version == Half(bytes, 4) && h.kind == Half(bytes, 6)
            && h.payloadSize == Word(bytes, 8) && h.flags == Word(bytes, 12)
            && h.session.high == Long(bytes, 16) && h.session.low == Long(bytes, 24) && h.requestId == Long(bytes, 32)
    ensures EncodeHeader(DecodeHeader(bytes)) == bytes
  {
    Widths();
    FromFour(bytes, 0);
    FromTwo(bytes, 4);
    FromTwo(bytes, 6);
    FromFour(bytes, 8);
    FromFour(bytes, 12);
    FromEight(bytes, 16);
    FromEight(bytes, 24);
    FromEight(bytes, 32);
    assert bytes[..4] == bytes[0..4] && bytes[32..] == bytes[32..40];
    HeaderRebuilt(bytes);
  }

  lemma HeaderRebuilt(bytes: seq<Byte>)
    requires |bytes| == HEADER_BYTES
    ensures EncodeHeader(DecodeHeader(bytes)) == bytes
  {
    ToFromBytes(bytes[..4]);
    ToFromBytes(bytes[4..6]);
    ToFromBytes(bytes[6..8]);
    ToFromBytes(bytes[8..12]);
    ToFromBytes(bytes[12..16]);
    ToFromBytes(bytes[16..24]);
    ToFromBytes(bytes[24..32]);
    ToFromBytes(bytes[32..]);
    assert bytes == bytes[..4] + bytes[4..6] + bytes[6..8] + bytes[8..12] + bytes[12..16] + bytes[16..24] +
                    bytes[24..32] + bytes[32..];
  }

  // --- Frames and streams of frames ---

  datatype Frame = Frame(header: Header, payload: seq<Byte>)

  predicate WellSized(f: Frame) {
    f.header.payloadSize == |f.payload| <= MAX_PAYLOAD
  }

  function Encode(f: Frame): seq<Byte> {
    EncodeHeader(f.header) + f.payload
  }

  function EncodeAll(frames: seq<Frame>): seq<Byte> {
    if frames == [] then [] else Encode(frames[0]) + EncodeAll(frames[1..])
  }

  datatype Parsed = Got(frame: Frame, rest: seq<Byte>) | AtEnd | TooLarge(rest: seq<Byte>)

  // What one read of a frame gives when the stream holds exactly these bytes.
  function Parse(data: seq<Byte>): Parsed {
    if |data| < HEADER_BYTES then AtEnd
    else
      var header := DecodeHeader(data[..HEADER_BYTES]);
      var rest := data[HEADER_BYTES..];
      if header.payloadSize > MAX_PAYLOAD then TooLarge(rest)
      else if |rest| < header.payloadSize then AtEnd
      else Got(Frame(header, rest[..header.payloadSize]), rest[header.payloadSize..])
  }

  // When a read gives a frame, told by the bytes: the size in the header is at most the
  // limit and that many bytes follow; a larger size is refused, fewer bytes are the end.
  lemma ParseExactly(data: seq<Byte>)
    ensures match Parse(data)
            case TooLarge(rest) => |data| >= 40 && Word(data, 8) > 65536 && rest == data[40..]
            case AtEnd => |data| < 40 || (Word(data, 8) <= 65536 && |data| < 40 + Word(data, 8))
            case Got(frame, rest) =>
              && |data| >= 40 && Word(data, 8) <= 65536 && WellSized(frame) && |frame.payload| == Word(data, 8)
              && data == Encode(frame) + rest
  {
    if |data| >= HEADER_BYTES {
      HeaderLayout(data[..HEADER_BYTES]);
    }
  }

  datatype Ending = CleanEnd | Refused

  // All frames up to the first read that does not give one.
  function ParseAll(data: seq<Byte>): (seq<Frame>, Ending)
    decreases |data|
  {
    match Parse(data)
    case AtEnd => ([], CleanEnd)
    case TooLarge(_) => ([], Refused)
    case Got(frame, rest) =>
      var (frames, ending) := ParseAll(rest);
      ([frame] + frames, ending)
  }

  lemma ParseEncoded(f: Frame, rest: seq<Byte>)
    requires WellSized(f)
    ensures Parse(Encode(f) + rest) == Got(f, rest)
  {
    var data := Encode(f) + rest;
    assert data[..HEADER_BYTES] == EncodeHeader(f.header);
    HeaderRoundTrip(f.header);
    assert data[HEADER_BYTES..] == f.payload + rest;
  }

  // A frame cut short gives no frame.
  lemma ParseCut(f: Frame, cut: nat)
    requires WellSized(f) && cut < |Encode(f)|
    ensures Parse(Encode(f)[..cut]) == AtEnd
  {
    if cut >= HEADER_BYTES {
      assert Encode(f)[..cut][..HEADER_BYTES] == EncodeHeader(f.header);
      HeaderRoundTrip(f.header);
    }
  }

  // How many frames lie wholly before the cut.
  function WholeFrames(frames: seq<Frame>, cut: nat): (k: nat)
    ensures k <= |frames|
  {
    if frames == [] || cut < |Encode(frames[0])| then 0
    else 1 + WholeFrames(frames[1..], cut - |Encode(frames[0])|)
  }

  lemma {:induction false} WholeFramesCount(frames: seq<Frame>, cut: nat)
    requires cut <= |EncodeAll(frames)|
    ensures var k := WholeFrames(frames, cut);
            && |EncodeAll(frames[..k])| <= cut
            && (k < |frames| ==> cut < |EncodeAll(frames[..k + 1])|)
  {
    if frames != [] {
      var first := |Encode(frames[0])|;
      if cut < first {
        assert frames[..1] == [frames[0]];
      } else {
        WholeFramesCount(frames[1..], cut - first);
        var k := WholeFrames(frames[1..], cut - first);
        assert frames[..k + 1][1..] == frames[1..][..k] && frames[..k + 1][0] == frames[0];
        if k < |frames[1..]| {
          assert frames[..k + 2][1..] == frames[1..][..k + 1] && frames[..k + 2][0] == frames[0];
        }
      }
    }
  }

  lemma ParseAllEncoded(f: Frame, rest: seq<Byte>)
    requires WellSized(f)
    ensures ParseAll(Encode(f) + rest) == ([f] + ParseAll(rest).0, ParseAll(rest).1)
  {
    ParseEncoded(f, rest);
  }

  lemma ParseAllCut(f: Frame, rest: seq<Byte>, cut: nat)
    requires WellSized(f) && cut < |Encode(f)|
    ensures ParseAll((Encode(f) + rest)[..cut]) == ([], CleanEnd)
  {
    assert (Encode(f) + rest)[..cut] == Encode(f)[..cut];
    ParseCut(f, cut);
  }

  lemma ParseAllPast(f: Frame, rest: seq<Byte>, cut: nat, others: seq<Frame>)
    requires WellSized(f) && |Encode(f)| <= cut <= |Encode(f)| + |rest|
    requires ParseAll(rest[..cut - |Encode(f)|]) == (others, CleanEnd)
    ensures ParseAll((Encode(f) + rest)[..cut]) == ([f] + others, CleanEnd)
  {
    assert (Encode(f) + rest)[..cut] == Encode(f) + rest[..cut - |Encode(f)|];
    ParseAllEncoded(f, rest[..cut - |Encode(f)|]);
  }

  lemma FirstAndMore<T>(s: seq<T>, k: nat)
    requires s != [] && k <= |s[1..]|
    ensures [s[0]] + s[1..][..k] == s[..k + 1]
  {
  }

  // However a stream of written frames is cut, reading it gives the frames that
  // lie wholly before the cut, and then a clean end.
  lemma {:induction false} CutStreamGivesWholeFrames(frames: seq<Frame>, cut: nat)
    requires forall k | 0 <= k < |frames| :: WellSized(frames[k])
    requires cut <= |EncodeAll(frames)|
    ensures ParseAll(EncodeAll(frames)[..cut]) == (frames[..WholeFrames(frames, cut)], CleanEnd)
  {
    if frames != [] {
      var first, rest := Encode(frames[0]), EncodeAll(frames[1..]);
      assert EncodeAll(frames) == first + rest;
      if cut < |first| {
        ParseAllCut(frames[0], rest, cut);
      } else {
        CutStreamGivesWholeFrames(frames[1..], cut - |first|);
        var k := WholeFrames(frames[1..], cut - |first|);
        ParseAllPast(frames[0], rest, cut, frames[1..][..k]);
        FirstAndMore(frames, k);
      }
    }
  }

  // A complete stream gives back exactly the frames that were written.
  lemma {:induction false} StreamRoundTrip(frames: seq<Frame>)
    requires forall k | 0 <= k < |frames| :: WellSized(frames[k])
    ensures ParseAll(EncodeAll(frames)) == (frames, CleanEnd)
  {
    if frames != [] {
      ParseAllEncoded(frames[0], EncodeAll(frames[1..]));
      StreamRoundTrip(frames[1..]);
      assert [frames[0]] + frames[1..] == frames;
    }
  }

  // --- The pipe and its chunks ---

  datatype IoStatus = Succeeded | EndOfFile | Failed

  // The reading and the writing end of one anonymous pipe whose writers are done
  // or blocked: `data` is what has been written and not yet read. On an unreliable
  // pipe every call may fail, and a write may find the reading end closed.
  class Pipe {
    const reliable: bool
    var data: seq<Byte>
    var last: IoStatus   // how the last call ended, as the operating system reports it

    constructor (reliable: bool)
      ensures this.reliable == reliable && data == []
    {
      this.reliable := reliable;
      data, last := [], IoStatus.Succeeded;
    }

    // Takes some bytes, at least one unless none are left; an empty pipe may also be
    // reported as broken, since its writers are done.
    method ReadFile(requested: nat) returns (status: IoStatus, received: seq<Byte>)
      requires requested > 0
      modifies this
      ensures last == status
      ensures status.Failed? ==> !reliable && data == old(data)
      ensures status.EndOfFile? ==> old(data) == [] == data
      ensures status.Succeeded? ==> old(data) == received + data && |received| <= requested
      ensures status.Succeeded? && old(data) != [] ==> received != []
    {
      received, last := [], IoStatus.Succeeded;
      var fails: bool := *;
      if !reliable && fails {
        last := Failed;
        return Failed, received;
      }
      if data == [] {
        var broken: bool := *;
        last := if broken then EndOfFile else IoStatus.Succeeded;
        return last, received;
      }
      var n :| 1 <= n <= requested && n <= |data|;
      received := data[..n];
      data := data[n..];
      return IoStatus.Succeeded, received;
    }

    // Accepts some of the bytes, at least one unless the pipe is unreliable.
    method WriteFile(bytes: seq<Byte>) returns (status: IoStatus, written: nat)
      requires bytes != []
      modifies this
      ensures last == status
      ensures reliable ==> status.Succeeded? && written > 0
      ensures !status.Succeeded? ==> data == old(data)
      ensures status.Succeeded? ==> written <= |bytes| && data == old(data) + bytes[..written]
    {
      var least := 1;
      last := IoStatus.Succeeded;
      if !reliable {
        last := *;
        if !last.Succeeded? {
          return last, 0;
        }
        least := 0;
      }
      written :| least <= written <= |bytes|;
      data := data + bytes[..written];
      return IoStatus.Succeeded, written;
    }
  }

  method ReadExact(pipe: Pipe, count: nat) returns (status: IoStatus, bytes: seq<Byte>)
    modifies pipe
    ensures pipe.reliable ==> !status.Failed?
    ensures status.Failed? ==> pipe.last.Failed?
    ensures status.Succeeded? ==> |bytes| == count && old(pipe.data) == bytes + pipe.data
    ensures status.EndOfFile? ==> |old(pipe.data)| < count && pipe.data == []
  {
    bytes := [];
    while |bytes| < count
      invariant |bytes| <= count && old(pipe.data) == bytes + pipe.data
      decreases count - |bytes|
    {
      var received: seq<Byte>;
      status, received := pipe.ReadFile(count - |bytes|);
      if !status.Succeeded? {
        return status, bytes;
      }
      if received == [] {
        return EndOfFile, bytes;
      }
      bytes := bytes + received;
    }
    return IoStatus.Succeeded, bytes;
  }

  // All bytes are written, or a prefix of them before the reading end turned out to be
  // closed (end of file) or a write failed or accepted nothing.
  method WriteExact(pipe: Pipe, bytes: seq<Byte>) returns (status: IoStatus)
    modifies pipe
    ensures pipe.reliable ==> status.Succeeded?
    ensures status.Succeeded? ==> pipe.data == old(pipe.data) + bytes
    ensures !status.Succeeded? ==> status == if pipe.last.Succeeded? then Failed else pipe.last
    ensures exists k: nat :: k <= |bytes| && pipe.data == old(pipe.data) + bytes[..k]
  {
    var cursor := 0;
    assert bytes[..0] == [];
    while cursor < |bytes|
      invariant cursor <= |bytes| && pipe.data == old(pipe.data) + bytes[..cursor]
      decreases |bytes| - cursor
    {
      var written: nat;
      status, written := pipe.WriteFile(bytes[cursor..]);
      if !status.Succeeded? {
        return;
      }
      assert bytes[..cursor] + bytes[cursor..][..written] == bytes[..cursor + written];
      if written == 0 {
        return Failed;
      }
      cursor := cursor + written;
    }
    assert bytes[..|bytes|] == bytes;
    return IoStatus.Succeeded;
  }

  function HeaderFor(session: SessionMarker, kind: UInt16, requestId: UInt64, size: UInt32): Header {
    Header(FRAME_MAGIC, PROTOCOL_VERSION, kind, size, 0, session, requestId)
  }

  method WriteFrame(pipe: Pipe, session: SessionMarker, kind: UInt16, requestId: UInt64, payload: seq<Byte>)
    returns (status: IoStatus)
    modifies pipe
    ensures |payload| > MAX_PAYLOAD ==> status.Failed? && pipe.data == old(pipe.data)
    ensures status.Succeeded? ==>
              && |payload| <= MAX_PAYLOAD
              && var frame := Frame(HeaderFor(session, kind, requestId, |payload|), payload);
                 WellSized(frame) && pipe.data == old(pipe.data) + Encode(frame)
    ensures pipe.reliable && |payload| <= MAX_PAYLOAD ==> status.Succeeded?
  {
    if |payload| > MAX_PAYLOAD {
      return Failed;
    }
    var header := HeaderFor(session, kind, requestId, |payload|);
    status := WriteExact(pipe, EncodeHeader(header));
    if !status.Succeeded? {
      return;
    }
    ghost var begun := pipe.data;
    if payload != [] {
      status := WriteExact(pipe, payload);
    }
    assert status.Succeeded? ==> pipe.data == begun + payload;
  }

  // A read of a frame; no frame when the stream ends, is refused or fails.
  method ReadFrame(pipe: Pipe) returns (status: IoStatus, frame: Option<Frame>)
    modifies pipe
    ensures status.Succeeded? <==> frame.Some?
    ensures frame.Some? ==> Parse(old(pipe.data)) == Got(frame.value, pipe.data)
    ensures status.EndOfFile? ==> Parse(old(pipe.data)) == AtEnd
    ensures pipe.reliable && status.Failed? ==> Parse(old(pipe.data)).TooLarge?
  {
    var bytes: seq<Byte>;
    status, bytes := ReadExact(pipe, HEADER_BYTES);
    if !status.Succeeded? {
      return status, None;
    }
    assert old(pipe.data)[..HEADER_BYTES] == bytes && old(pipe.data)[HEADER_BYTES..] == pipe.data;
    var header := DecodeHeader(bytes);
    if header.payloadSize > MAX_PAYLOAD {
      return Failed, None;
    }
    if header.payloadSize == 0 {
      assert pipe.data[..0] == [] && pipe.data[0..] == pipe.data;
      return IoStatus.Succeeded, Some(Frame(header, []));
    }
    ghost var rest := pipe.data;
    var payload: seq<Byte>;
    status, payload := ReadExact(pipe, header.payloadSize);
    if !status.Succeeded? {
      return status, None;
    }
    assert rest[..header.payloadSize] == payload && rest[header.payloadSize..] == pipe.data;
    return IoStatus.Succeeded, Some(Frame(header, payload));
  }

  // Frames read already, followed by those still in the stream.
  function Joined(frames: seq<Frame>, data: seq<Byte>): (seq<Frame>, Ending) {
    var (rest, ending) := ParseAll(data);
    (frames + rest, ending)
  }

  lemma JoinedStep(frames: seq<Frame>, data: seq<Byte>)
    ensures match Parse(data)
            case AtEnd => Joined(frames, data) == (frames, CleanEnd)
            case TooLarge(_) => Joined(frames, data) == (frames, Refused)
            case Got(frame, rest) => Joined(frames, data) == Joined(frames + [frame], rest)
  {
    match Parse(data)
    case Got(frame, rest) =>
      var others := ParseAll(rest).0;
      assert frames + ([frame] + others) == (frames + [frame]) + others;
    case _ => assert frames + [] == frames;
  }

  // Reading until the first failure, as the receiving loop does, whatever the chunks.
  method ReadAll(pipe: Pipe) returns (frames: seq<Frame>, status: IoStatus)
    modifies pipe
    ensures !status.Succeeded?
    ensures pipe.reliable ==>
              (frames, if status.EndOfFile? then CleanEnd else Refused) == ParseAll(old(pipe.data))
  {
    frames := [];
    ghost var all := Joined([], pipe.data);
    assert all == ParseAll(pipe.data) by {
      assert [] + ParseAll(pipe.data).0 == ParseAll(pipe.data).0;
    }
    while true
      invariant Joined(frames, pipe.data) == all
      decreases |pipe.data|
    {
      JoinedStep(frames, pipe.data);
      var frame: Option<Frame>;
      status, frame := ReadFrame(pipe);
      if frame.None? {
        return;
      }
      frames := frames + [frame.value];
    }
  }

  // Frames written to a pipe and read back through it: the same frames, then end of file.
  method EchoFrames(session: SessionMarker, requests: seq<(UInt16, UInt64, seq<Byte>)>) returns (frames: seq<Frame>)
    requires forall k | 0 <= k < |requests| :: |requests[k].2| <= MAX_PAYLOAD
    ensures |frames| == |requests|
    ensures forall k | 0 <= k < |requests| ::
              frames[k] == Frame(HeaderFor(session, requests[k].0, requests[k].1, |requests[k].2|), requests[k].2)
  {
    var pipe := new Pipe(true);
    ghost var sent: seq<Frame> := [];
    for k := 0 to |requests|
      invariant |sent| == k && pipe.data == EncodeAll(sent)
      invariant forall i | 0 <= i < k :: WellSized(sent[i]) &&
                  sent[i] == Frame(HeaderFor(session, requests[i].0, requests[i].1, |requests[i].2|), requests[i].2)
    {
      var status := WriteFrame(pipe, session, requests[k].0, requests[k].1, requests[k].2);
      ghost var frame := Frame(HeaderFor(session, requests[k].0, requests[k].1, |requests[k].2|), requests[k].2);
      EncodeAllAppends(sent, frame);
      sent := sent + [frame];
    }
    StreamRoundTrip(sent);
    var status: IoStatus;
    frames, status := ReadAll(pipe);
  }

  lemma {:induction false} EncodeAllAppends(frames: seq<Frame>, frame: Frame)
    ensures EncodeAll(frames + [frame]) == EncodeAll(frames) + Encode(frame)
  {
    if frames == [] {
      assert [frame][1..] == [];
      assert EncodeAll([frame]) == Encode(frame) + [];
    } else {
      EncodeAllAppends(frames[1..], frame);
      assert (frames + [frame])[1..] == frames[1..] + [frame];
      assert Encode(frames[0]) + (EncodeAll(frames[1..]) + Encode(frame)) ==
             (Encode(frames[0]) + EncodeAll(frames[1..])) + Encode(frame);
    }
  }
}
