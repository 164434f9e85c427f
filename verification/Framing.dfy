/** Frames as byte strings, the parser that inverts the printer, and the reader of
    receive_frame as a machine that is fed arbitrary chunks. */
module Framing {
  import opened Protocol

  datatype Frame = Frame(kind: byte, payload: seq<byte>)

  /** The receiver refuses longer payloads. */
  predicate Sendable(f: Frame) {
    |f.payload| <= FRAME_PAYLOAD_MAXSIZE
  }

  predicate AllSendable(fs: seq<Frame>) {
    forall i | 0 <= i < |fs| :: Sendable(fs[i])
  }

  function FrameBytes(littleEndian: bool, f: Frame): (b: seq<byte>)
    requires Sendable(f)
    ensures |b| == FRAME_HEADER_SIZE + |f.payload|
  {
    HeaderBytes(littleEndian, f.kind, |f.payload|) + f.payload
  }

  /** The bytes of several frames, one after the other. */
  function StreamBytes(littleEndian: bool, fs: seq<Frame>): seq<byte>
    requires AllSendable(fs)
  {
    if fs == [] then [] else FrameBytes(littleEndian, fs[0]) + StreamBytes(littleEndian, fs[1..])
  }

  lemma {:induction false} StreamBytesAppend(littleEndian: bool, fs: seq<Frame>, gs: seq<Frame>)
    requires AllSendable(fs) && AllSendable(gs)
    ensures AllSendable(fs + gs)
    ensures StreamBytes(littleEndian, fs + gs) == StreamBytes(littleEndian, fs) + StreamBytes(littleEndian, gs)
  {
    if fs == [] {
      assert fs + gs == gs;
    } else {
      StreamBytesAppend(littleEndian, fs[1..], gs);
      assert (fs + gs)[1..] == fs[1..] + gs;
      hide FrameBytes;
    }
  }

  lemma StreamBytesSnoc(littleEndian: bool, fs: seq<Frame>, f: Frame)
    requires AllSendable(fs) && Sendable(f)
    ensures AllSendable(fs + [f])
    ensures StreamBytes(littleEndian, fs + [f]) == StreamBytes(littleEndian, fs) + FrameBytes(littleEndian, f)
  {
    StreamBytesAppend(littleEndian, fs, [f]);
    assert StreamBytes(littleEndian, [f]) == FrameBytes(littleEndian, f) + [];
  }

  /** What a byte string holds: its whole frames, then the bytes that follow them.
      `oversize` means that the rest starts with a header the receiver refuses. */
  datatype Parsed = Parsed(frames: seq<Frame>, rest: seq<byte>, oversize: bool)

  function Parse(littleEndian: bool, s: seq<byte>): Parsed {
    if |s| < FRAME_HEADER_SIZE then
      Parsed([], s, false)
    else
      var h := s[..FRAME_HEADER_SIZE];
      var end := FRAME_HEADER_SIZE + HeaderLength(littleEndian, h);
      if end > FRAME_MAXSIZE then
        Parsed([], s, true)
      else if |s| < end then
        Parsed([], s, false)
      else
        var p := Parse(littleEndian, s[end..]);
        p.(frames := [Frame(HeaderKind(h), s[FRAME_HEADER_SIZE..end])] + p.frames)
  }

  lemma ParseOneFrame(littleEndian: bool, f: Frame, more: seq<byte>)
    requires Sendable(f)
    ensures var p := Parse(littleEndian, more);
            Parse(littleEndian, FrameBytes(littleEndian, f) + more) == p.(frames := [f] + p.frames)
  {
    var s := FrameBytes(littleEndian, f) + more;
    HeaderRoundTrip(littleEndian, f.kind, |f.payload|);
    assert s[..FRAME_HEADER_SIZE] == HeaderBytes(littleEndian, f.kind, |f.payload|);
    assert s[FRAME_HEADER_SIZE..FRAME_HEADER_SIZE + |f.payload|] == f.payload;
    assert s[FRAME_HEADER_SIZE + |f.payload|..] == more;
  }

  /** A header whose payload has not arrived in full parses to nothing but itself. */
  lemma ParseIncomplete(littleEndian: bool, kind: byte, dataLen: uint32, got: seq<byte>)
    requires |got| < dataLen <= FRAME_PAYLOAD_MAXSIZE
    ensures var s := HeaderBytes(littleEndian, kind, dataLen) + got;
            Parse(littleEndian, s) == Parsed([], s, false)
  {
    var h := HeaderBytes(littleEndian, kind, dataLen);
    HeaderRoundTrip(littleEndian, kind, dataLen);
    assert (h + got)[..FRAME_HEADER_SIZE] == h;
  }

  lemma ParseCutFrame(littleEndian: bool, f: Frame, cut: nat)
    requires Sendable(f) && cut < FRAME_HEADER_SIZE + |f.payload|
    ensures var s := FrameBytes(littleEndian, f)[..cut];
            Parse(littleEndian, s) == Parsed([], s, false)
  {
    if cut >= FRAME_HEADER_SIZE {
      ParseIncomplete(littleEndian, f.kind, |f.payload|, f.payload[..cut - FRAME_HEADER_SIZE]);
      assert FrameBytes(littleEndian, f)[..cut]
          == HeaderBytes(littleEndian, f.kind, |f.payload|) + f.payload[..cut - FRAME_HEADER_SIZE];
    }
  }

  lemma Regroup<T>(a: seq<T>, b: seq<T>, c: seq<T>)
    ensures (a + b) + c == a + (b + c)
  {
  }

  /** The parser inverts the printer, also when the last frame is still incomplete. */
  lemma {:induction false} ParsePrinted(littleEndian: bool, fs: seq<Frame>, last: Frame, cut: nat)
    requires AllSendable(fs) && Sendable(last) && cut < FRAME_HEADER_SIZE + |last.payload|
    ensures var tail := FrameBytes(littleEndian, last)[..cut];
            Parse(littleEndian, StreamBytes(littleEndian, fs) + tail) == Parsed(fs, tail, false)
  {
    var tail := FrameBytes(littleEndian, last)[..cut];
    if fs == [] {
      ParseCutFrame(littleEndian, last, cut);
      assert StreamBytes(littleEndian, fs) + tail == tail;
    } else {
      var more := StreamBytes(littleEndian, fs[1..]) + tail;
      ParsePrinted(littleEndian, fs[1..], last, cut);
      ParseOneFrame(littleEndian, fs[0], more);
      Regroup(FrameBytes(littleEndian, fs[0]), StreamBytes(littleEndian, fs[1..]), tail);
      assert [fs[0]] + fs[1..] == fs;
    }
  }

  /** Where the first frame of `s` ends, by its header. */
  function FrameEnd(littleEndian: bool, s: seq<byte>): nat
    requires FRAME_HEADER_SIZE <= |s|
  {
    FRAME_HEADER_SIZE + HeaderLength(littleEndian, s[..FRAME_HEADER_SIZE])
  }

  lemma ParseFirst(littleEndian: bool, s: seq<byte>)
    requires Parse(littleEndian, s).frames != []
    ensures FRAME_HEADER_SIZE <= |s| && FrameEnd(littleEndian, s) <= |s|
    ensures var p := Parse(littleEndian, s);
            var later := Parse(littleEndian, s[FrameEnd(littleEndian, s)..]);
            p == later.(frames := [p.frames[0]] + later.frames)
  {
  }

  lemma FirstFrameStays(littleEndian: bool, s: seq<byte>, more: seq<byte>)
    requires Parse(littleEndian, s).frames != []
    ensures FRAME_HEADER_SIZE <= |s| && FrameEnd(littleEndian, s) <= |s|
    ensures var q := Parse(littleEndian, s[FrameEnd(littleEndian, s)..] + more);
            Parse(littleEndian, s + more) == q.(frames := [Parse(littleEndian, s).frames[0]] + q.frames)
  {
    var h := s[..FRAME_HEADER_SIZE];
    var end := FrameEnd(littleEndian, s);
    assert (s + more)[..FRAME_HEADER_SIZE] == h;
    assert (s + more)[FRAME_HEADER_SIZE..end] == s[FRAME_HEADER_SIZE..end];
    assert (s + more)[end..] == s[end..] + more;
  }

  lemma ParseWithoutFrames(littleEndian: bool, s: seq<byte>)
    requires Parse(littleEndian, s).frames == []
    ensures Parse(littleEndian, s).rest == s
  {
  }

  /** Parsing can stop anywhere and resume with the bytes left over. */
  lemma {:induction false} ParseResumes(littleEndian: bool, s: seq<byte>, more: seq<byte>)
    requires !Parse(littleEndian, s).oversize
    ensures var p := Parse(littleEndian, s);
            var q := Parse(littleEndian, p.rest + more);
            Parse(littleEndian, s + more) == q.(frames := p.frames + q.frames)
    decreases |s|
  {
    hide Parse;
    hide HeaderLength;
    var p := Parse(littleEndian, s);
    if p.frames == [] {
      ParseWithoutFrames(littleEndian, s);
    } else {
      ParseFirst(littleEndian, s);
      var end := FrameEnd(littleEndian, s);
      FirstFrameStays(littleEndian, s, more);
      ParseResumes(littleEndian, s[end..], more);
      var later := Parse(littleEndian, s[end..]);
      var q := Parse(littleEndian, later.rest + more);
      Regroup([p.frames[0]], later.frames, q.frames);
    }
  }

  /** What is left over never holds a whole frame. */
  lemma {:induction false} ParseRestIsStuck(littleEndian: bool, s: seq<byte>)
    ensures var p := Parse(littleEndian, s);
            Parse(littleEndian, p.rest) == Parsed([], p.rest, p.oversize)
    decreases |s|
  {
    var p := Parse(littleEndian, s);
    if p.frames != [] {
      var end := FRAME_HEADER_SIZE + HeaderLength(littleEndian, s[..FRAME_HEADER_SIZE]);
      ParseRestIsStuck(littleEndian, s[end..]);
    }
  }

  /** A refused header is refused whatever follows it. */
  lemma {:induction false} OversizeStays(littleEndian: bool, s: seq<byte>, more: seq<byte>)
    requires Parse(littleEndian, s).oversize
    ensures Parse(littleEndian, s + more).oversize
    decreases |s|
  {
    if Parse(littleEndian, s).frames == [] {
      assert (s + more)[..FRAME_HEADER_SIZE] == s[..FRAME_HEADER_SIZE];
    } else {
      ParseFirst(littleEndian, s);
      FirstFrameStays(littleEndian, s, more);
      OversizeStays(littleEndian, s[FrameEnd(littleEndian, s)..], more);
    }
  }

  /** Where receive_frame stands between two recv calls. */
  datatype Reader =
    | AtHeader(got: seq<byte>)
    | AtPayload(kind: byte, dataLen: uint32, got: seq<byte>)
    | AtOversize(header: seq<byte>)

  predicate ValidReader(r: Reader) {
    match r
    case AtHeader(got) => |got| < FRAME_HEADER_SIZE
    case AtPayload(_, dataLen, got) => |got| < dataLen <= FRAME_PAYLOAD_MAXSIZE
    case AtOversize(header) => |header| == FRAME_HEADER_SIZE
  }

  /** How many bytes the next recv asks for. */
  function Wanted(r: Reader): nat
    requires ValidReader(r)
  {
    match r
    case AtHeader(got) => FRAME_HEADER_SIZE - |got|
    case AtPayload(_, dataLen, got) => dataLen - |got|
    case AtOversize(_) => FRAME_MAXSIZE
  }

  /** The bytes received since the last whole frame. */
  function Pending(littleEndian: bool, r: Reader): seq<byte> {
    match r
    case AtHeader(got) => got
    case AtPayload(kind, dataLen, got) => HeaderBytes(littleEndian, kind, dataLen) + got
    case AtOversize(header) => header
  }

  datatype Fed = Fed(reader: Reader, received: seq<Frame>)

  /** One recv that returned `chunk`. After an oversize header the code drops whatever one
      recv returns and starts over at a header. */
  function Feed(littleEndian: bool, r: Reader, chunk: seq<byte>): (f: Fed)
    requires ValidReader(r) && |chunk| <= Wanted(r)
    ensures ValidReader(f.reader)
  {
    match r
    case AtHeader(got) =>
      var h := got + chunk;
      if |h| < FRAME_HEADER_SIZE then
        Fed(AtHeader(h), [])
      else
        var len := HeaderLength(littleEndian, h);
        if len > FRAME_PAYLOAD_MAXSIZE then Fed(AtOversize(h), [])
        else if len == 0 then Fed(AtHeader([]), [Frame(HeaderKind(h), [])])
        else Fed(AtPayload(HeaderKind(h), len, []), [])
    case AtPayload(kind, dataLen, got) =>
      if |got + chunk| < dataLen then Fed(AtPayload(kind, dataLen, got + chunk), [])
      else Fed(AtHeader([]), [Frame(kind, got + chunk)])
    case AtOversize(_) =>
      Fed(AtHeader([]), [])
  }

  lemma ParseLoneFrame(littleEndian: bool, f: Frame)
    requires Sendable(f)
    ensures Parse(littleEndian, FrameBytes(littleEndian, f)) == Parsed([f], [], false)
  {
    ParseOneFrame(littleEndian, f, []);
    assert FrameBytes(littleEndian, f) + [] == FrameBytes(littleEndian, f);
  }

  lemma FeedHeaderIsParse(littleEndian: bool, got: seq<byte>, chunk: seq<byte>)
    requires |got| < FRAME_HEADER_SIZE && |got + chunk| <= FRAME_HEADER_SIZE
    ensures var f := Feed(littleEndian, AtHeader(got), chunk);
            Parse(littleEndian, got + chunk)
            == Parsed(f.received, Pending(littleEndian, f.reader), f.reader.AtOversize?)
  {
    var h := got + chunk;
    if |h| == FRAME_HEADER_SIZE {
      var kind, len := HeaderKind(h), HeaderLength(littleEndian, h);
      HeaderBytesOfHeader(littleEndian, h);
      assert HeaderBytes(littleEndian, kind, len) + [] == h;
      if len == 0 {
        ParseLoneFrame(littleEndian, Frame(kind, []));
      } else if len <= FRAME_PAYLOAD_MAXSIZE {
        ParseIncomplete(littleEndian, kind, len, []);
      } else {
        assert h[..FRAME_HEADER_SIZE] == h;
      }
    }
  }

  /** One recv is one step of the parser, whatever the size of the chunk. */
  lemma FeedIsParse(littleEndian: bool, r: Reader, chunk: seq<byte>)
    requires ValidReader(r) && !r.AtOversize? && |chunk| <= Wanted(r)
    ensures var f := Feed(littleEndian, r, chunk);
            Parse(littleEndian, Pending(littleEndian, r) + chunk)
            == Parsed(f.received, Pending(littleEndian, f.reader), f.reader.AtOversize?)
  {
    hide Parse;
    match r
    case AtHeader(got) =>
      FeedHeaderIsParse(littleEndian, got, chunk);
    case AtPayload(kind, dataLen, got) =>
      Regroup(HeaderBytes(littleEndian, kind, dataLen), got, chunk);
      if |got + chunk| < dataLen {
        ParseIncomplete(littleEndian, kind, dataLen, got + chunk);
      } else {
        ParseLoneFrame(littleEndian, Frame(kind, got + chunk));
      }
  }

  /** After an oversize header the receiver drops whatever one recv returns, and then stands where it stands
      at the start of a stream. */
  lemma OversizeStartsOver(littleEndian: bool, header: seq<byte>, chunk: seq<byte>)
    requires |header| == FRAME_HEADER_SIZE && |chunk| <= FRAME_MAXSIZE
    ensures var f := Feed(littleEndian, AtOversize(header), chunk);
            f.received == [] && ReaderHasParsed(littleEndian, [], f.reader, [])
  {
  }

  /** The reader has seen the bytes `s` and returned the frames `received`. */
  ghost predicate ReaderHasParsed(littleEndian: bool, s: seq<byte>, r: Reader, received: seq<Frame>) {
    && ValidReader(r)
    && Parse(littleEndian, s) == Parsed(received, Pending(littleEndian, r), r.AtOversize?)
  }

  lemma FeedKeepsParsed(littleEndian: bool, s: seq<byte>, r: Reader, received: seq<Frame>, chunk: seq<byte>)
    requires ReaderHasParsed(littleEndian, s, r, received) && !r.AtOversize? && |chunk| <= Wanted(r)
    ensures var f := Feed(littleEndian, r, chunk);
            ReaderHasParsed(littleEndian, s + chunk, f.reader, received + f.received)
  {
    FeedIsParse(littleEndian, r, chunk);
    ParseResumes(littleEndian, s, chunk);
  }

  predicate NoClose(fs: seq<Frame>) {
    forall k :: 0 <= k < |fs| ==> fs[k].kind != FRAME_HDR_CLOSE
  }

  /** The frames up to the first CLOSE, with it. */
  function UpToClose(fs: seq<Frame>): seq<Frame> {
    if fs == [] then []
    else if fs[0].kind == FRAME_HDR_CLOSE then [fs[0]]
    else [fs[0]] + UpToClose(fs[1..])
  }

  lemma {:induction false} UpToCloseSplit(fs: seq<Frame>, gs: seq<Frame>)
    requires NoClose(fs)
    ensures UpToClose(fs + gs) == fs + UpToClose(gs)
  {
    if fs == [] {
      assert fs + gs == gs;
    } else {
      UpToCloseSplit(fs[1..], gs);
      assert (fs + gs)[1..] == fs[1..] + gs;
      Regroup([fs[0]], fs[1..], UpToClose(gs));
    }
  }

  lemma UpToCloseNothing()
    ensures UpToClose([]) == []
  {
  }

  /** Everything if there is no CLOSE, and otherwise what is before the first one, and it. */
  lemma UpToFirstClose(fs: seq<Frame>, f: Frame, more: seq<Frame>)
    requires NoClose(fs)
    ensures UpToClose(fs) == fs
    ensures f.kind == FRAME_HDR_CLOSE ==> UpToClose(fs + [f] + more) == fs + [f]
  {
    UpToCloseSplit(fs, []);
    UpToCloseNothing();
    assert fs + [] == fs;
    Regroup(fs, [f], more);
    UpToCloseSplit(fs, [f] + more);
  }

  // ---------------------------------------------------------------- the format, byte by byte

  /** A frame on the wire: its type, its length as the host stores it, its payload. */
  lemma FrameByBytes(f: Frame)
    requires |f.payload| <= 2048
    ensures Sendable(f)
    ensures var n := |f.payload|;
      && FrameBytes(true, f) == [f.kind, (n % 256) as byte, (n / 256) as byte, 0, 0] + f.payload
      && FrameBytes(false, f) == [f.kind, 0, 0, (n / 256) as byte, (n % 256) as byte] + f.payload
  {
    var n := |f.payload|;
    assert n / 0x1_0000 == 0 && n / 0x100_0000 == 0 && n / 256 % 256 == n / 256;
    assert HeaderBytes(true, f.kind, n) == [f.kind, (n % 256) as byte, (n / 256) as byte, 0, 0];
    assert HeaderBytes(false, f.kind, n) == [f.kind, 0, 0, (n / 256) as byte, (n % 256) as byte];
  }

  /** The receiver refuses a header exactly when its length is more than 2048. */
  lemma RefusedIff(littleEndian: bool, kind: byte, dataLen: uint32, more: seq<byte>)
    ensures dataLen > 2048 ==> Parse(littleEndian, HeaderBytes(littleEndian, kind, dataLen) + more).oversize
    ensures dataLen <= 2048 && dataLen <= |more| ==>
      var p := Parse(littleEndian, HeaderBytes(littleEndian, kind, dataLen) + more);
      p.frames != [] && p.frames[0] == Frame(kind, more[..dataLen])
    ensures dataLen <= 2048 && |more| < dataLen ==>
      !Parse(littleEndian, HeaderBytes(littleEndian, kind, dataLen) + more).oversize
  {
    HeaderRoundTrip(littleEndian, kind, dataLen);
    var h := HeaderBytes(littleEndian, kind, dataLen);
    var s := h + more;
    assert s[..FRAME_HEADER_SIZE] == h;
    if dataLen <= 2048 && dataLen <= |more| {
      assert s[FRAME_HEADER_SIZE..FRAME_HEADER_SIZE + dataLen] == more[..dataLen];
    }
  }
}
