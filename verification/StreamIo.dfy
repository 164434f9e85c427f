/** The send and receive loops of src/peer_net.c over one stream socket. */
module StreamIo {
  import opened Protocol
  import opened Framing
  import SharedStream

  /** A connected socket. Send and Recv may move any positive number of bytes, or fail;
      after a failure the socket moves no more bytes in either direction. */
  class Socket {
    var outgoing: seq<byte>   // every byte the socket has taken
    var incoming: seq<byte>   // the bytes still to be received before the end of the stream
    var broken: bool
    ghost var sends: seq<int> // what each call of Send has returned

    constructor (arriving: seq<byte>)
      ensures outgoing == [] && incoming == arriving && !broken && sends == []
    {
      outgoing, incoming, broken, sends := [], arriving, false, [];
    }

    method Send(data: array<byte>, lo: nat, hi: nat) returns (n: int)
      requires lo < hi <= data.Length
      modifies this
      ensures n <= hi - lo && incoming == old(incoming) && sends == old(sends) + [n]
      ensures n <= 0 ==> broken && outgoing == old(outgoing)
      ensures n > 0 ==> !old(broken) && !broken && outgoing == old(outgoing) + data[lo..lo + n]
    {
      n :| -1 <= n <= hi - lo;
      if broken || n <= 0 {
        n, broken := -1, true;
      } else {
        outgoing := outgoing + data[lo..lo + n];
      }
      sends := sends + [n];
    }

    /** Returns 0 at the end of the stream and -1 on an error. */
    method Recv(buf: array<byte>, lo: nat, hi: nat) returns (n: int)
      requires lo < hi <= buf.Length
      modifies this, buf
      ensures n <= hi - lo && outgoing == old(outgoing) && sends == old(sends)
      ensures n <= 0 ==> incoming == old(incoming) && (broken || incoming == []) && buf[..] == old(buf[..])
      ensures n > 0 ==> n <= |old(incoming)| && broken == old(broken)
      ensures n > 0 ==> incoming == old(incoming)[n..]
      ensures n > 0 ==> buf[..] == old(buf[..lo]) + old(incoming)[..n] + old(buf[lo + n..])
    {
      n :| -1 <= n <= hi - lo;
      if broken || n < 0 {
        n, broken := -1, true;
      } else if incoming == [] {
        n := 0;
      } else {
        if n == 0 || n > |incoming| {
          n := 1;
        }
        forall k | 0 <= k < n {
          buf[lo + k] := incoming[k];
        }
        incoming := incoming[n..];
      }
    }
  }

  /** The calls of a send loop that has `from` bytes behind it and wants to get to `len`: each takes a
      positive number of them until all are taken or one fails. */
  predicate SendLoop(calls: seq<int>, from: nat, len: nat) {
    if from >= len then calls == []
    else
      && calls != [] && calls[0] <= len - from
      && if calls[0] <= 0 then |calls| == 1 else SendLoop(calls[1..], from + calls[0], len)
  }

  /** The calls that have got the loop from `from` to `to`. */
  predicate SendLoopSoFar(calls: seq<int>, from: nat, to: nat, len: nat) {
    if calls == [] then from == to
    else 0 < calls[0] <= len - from && SendLoopSoFar(calls[1..], from + calls[0], to, len)
  }

  lemma {:induction false} SoFarAndMore(calls: seq<int>, from: nat, to: nat, len: nat, n: int)
    requires SendLoopSoFar(calls, from, to, len) && to < len && n <= len - to
    ensures n > 0 ==> SendLoopSoFar(calls + [n], from, to + n, len)
    ensures n <= 0 ==> SendLoop(calls + [n], from, len)
  {
    if calls != [] {
      assert (calls + [n])[1..] == calls[1..] + [n];
      SoFarAndMore(calls[1..], from + calls[0], to, len, n);
    }
  }

  lemma {:induction false} SoFarIsAll(calls: seq<int>, from: nat, len: nat)
    requires SendLoopSoFar(calls, from, len, len)
    ensures SendLoop(calls, from, len)
  {
    if calls != [] {
      SoFarIsAll(calls[1..], from + calls[0], len);
    }
  }

  /** The payload loop is what a thread of module SharedStream does. */
  lemma {:induction false} PayloadPerformed(f: Frame, calls: seq<int>, from: nat) returns (end: SharedStream.Phase)
    requires from <= |f.payload| && SendLoop(calls, from, |f.payload|)
    ensures SharedStream.Performs(SharedStream.SendingPayload(f, from, false), calls, end)
    ensures end.SendingPayload? && !SharedStream.WantsToSend(end)
  {
    if calls == [] {
      end := SharedStream.SendingPayload(f, from, false);
    } else if calls[0] <= 0 {
      end := SharedStream.SendingPayload(f, from, true);
    } else {
      end := PayloadPerformed(f, calls[1..], from + calls[0]);
    }
  }

  /** So are the header loop and then the payload loop. */
  lemma {:induction false} HeaderPerformed(f: Frame, calls: seq<int>, from: nat, more: seq<int>,
                                           end: SharedStream.Phase)
    requires from < FRAME_HEADER_SIZE && SendLoop(calls, from, FRAME_HEADER_SIZE)
    requires SharedStream.Performs(SharedStream.SendingPayload(f, 0, false), more, end)
    ensures SharedStream.Performs(SharedStream.SendingHeader(f, from), calls + more, end)
  {
    assert (calls + more)[1..] == calls[1..] + more;
    if calls[0] > 0 && from + calls[0] < FRAME_HEADER_SIZE {
      HeaderPerformed(f, calls[1..], from + calls[0], more, end);
    } else {
      assert calls[1..] + more == more;
    }
  }

  /** One of the two loops of send_data_to_peer: send the first `len` bytes of `data`. */
  method SendAll(s: Socket, data: array<byte>, len: nat)
    requires len <= data.Length
    modifies s
    ensures s.incoming == old(s.incoming)
    ensures old(s.broken) ==> s.broken && s.outgoing == old(s.outgoing)
    ensures !s.broken ==> s.outgoing == old(s.outgoing) + data[..len]
    ensures s.broken && len > 0 ==>
      exists k :: 0 <= k < len && s.outgoing == old(s.outgoing) + data[..k]
    ensures s.broken && len == 0 ==> old(s.broken)
    ensures old(s.sends) <= s.sends && SendLoop(s.sends[|old(s.sends)|..], 0, len)
  {
    ghost var calls: seq<int>;
    var sent;
    calls, sent := [], 0;
    while sent < len
      invariant s.sends == old(s.sends) + calls && SendLoopSoFar(calls, 0, sent, len)
      invariant sent <= len
      invariant s.incoming == old(s.incoming)
      invariant s.broken == old(s.broken)
      invariant s.outgoing == old(s.outgoing) + data[..sent]
      invariant old(s.broken) ==> sent == 0
    {
      var n := s.Send(data, sent, len);
      SoFarAndMore(calls, 0, sent, len, n);
      calls := calls + [n];
      if n <= 0 {
        assert s.outgoing == old(s.outgoing) + data[..sent];
        assert s.sends[|old(s.sends)|..] == calls;
        return;
      }
      assert data[..sent] + data[sent..sent + n] == data[..sent + n];
      sent := sent + n;
    }
    assert s.sends[|old(s.sends)|..] == calls;
    SoFarIsAll(calls, 0, len);
  }

  /** The locked section of send_data_to_peer with the header it sends: the socket gets the
      frame, or a proper part of it and then nothing more. Call by call it does what a thread of module
      SharedStream does between taking the mutex and being ready to release it. */
  method SendFrame(littleEndian: bool, s: Socket, kind: byte, data: array<byte>, dataLen: nat)
    returns (ghost end: SharedStream.Phase)
    requires dataLen <= data.Length && dataLen <= FRAME_PAYLOAD_MAXSIZE
    modifies s
    ensures s.incoming == old(s.incoming)
    ensures var frame := FrameBytes(littleEndian, Frame(kind, data[..dataLen]));
      && (!s.broken ==> s.outgoing == old(s.outgoing) + frame)
      && (s.broken ==> exists k :: 0 <= k < |frame| && s.outgoing == old(s.outgoing) + frame[..k])
    ensures old(s.broken) ==> s.broken && s.outgoing == old(s.outgoing)
    ensures old(s.sends) <= s.sends
    ensures SharedStream.Performs(SharedStream.SendingHeader(Frame(kind, data[..dataLen]), 0),
                                  s.sends[|old(s.sends)|..], end)
    ensures end.SendingPayload? && !SharedStream.WantsToSend(end)
  {
    hide HeaderBytes;
    var header := new byte[FRAME_HEADER_SIZE];
    EncodeFrameHeader(littleEndian, header, kind, dataLen);
    ghost var f := Frame(kind, data[..dataLen]);
    ghost var frame := FrameBytes(littleEndian, f);
    assert frame == header[..] + data[..dataLen] by {
      assert header[..] == header[..FRAME_HEADER_SIZE];
    }
    hide FrameBytes;
    ghost var first, second := SendTwo(s, header, data, dataLen);
    end := PayloadPerformed(f, second, 0);
    HeaderPerformed(f, first, 0, second, end);
  }

  /** The two loops one after the other. The second runs also when the first has failed. */
  method SendTwo(s: Socket, header: array<byte>, data: array<byte>, dataLen: nat)
    returns (ghost first: seq<int>, ghost second: seq<int>)
    requires header.Length == FRAME_HEADER_SIZE && dataLen <= data.Length
    modifies s
    ensures s.incoming == old(s.incoming)
    ensures var all := header[..] + data[..dataLen];
      && (!s.broken ==> s.outgoing == old(s.outgoing) + all)
      && (s.broken ==> exists k :: 0 <= k < |all| && s.outgoing == old(s.outgoing) + all[..k])
    ensures old(s.broken) ==> s.broken && s.outgoing == old(s.outgoing)
    ensures s.sends == old(s.sends) + (first + second)
    ensures SendLoop(first, 0, FRAME_HEADER_SIZE) && SendLoop(second, 0, dataLen)
  {
    ghost var before, calls := s.outgoing, s.sends;
    ghost var all := header[..] + data[..dataLen];
    SendAll(s, header, FRAME_HEADER_SIZE);
    first := s.sends[|calls|..];
    ghost var cut: nat := FRAME_HEADER_SIZE;
    if s.broken {
      cut :| cut < FRAME_HEADER_SIZE && s.outgoing == before + header[..cut];
      assert header[..cut] == all[..cut];
    }
    ghost var brokenEarly, middle, calls' := s.broken, s.outgoing, s.sends;
    assert middle == before + all[..cut];
    SendAll(s, data, dataLen);
    second := s.sends[|calls'|..];
    Regroup(calls, first, second);
    if !s.broken {
      assert all[..FRAME_HEADER_SIZE] + data[..dataLen] == all;
    } else if !brokenEarly {
      ghost var more :| 0 <= more < dataLen && s.outgoing == middle + data[..more];
      assert all[..FRAME_HEADER_SIZE] + data[..more] == all[..FRAME_HEADER_SIZE + more];
    }
  }

  /** The loops of receive_frame: fill `buf[lo..hi]`, or give up. */
  method RecvAll(s: Socket, buf: array<byte>, lo: nat, hi: nat) returns (ok: bool)
    requires lo <= hi <= buf.Length
    modifies s, buf
    ensures s.outgoing == old(s.outgoing)
    ensures buf[..lo] == old(buf[..lo]) && buf[hi..] == old(buf[hi..])
    ensures ok ==>
      && hi - lo <= |old(s.incoming)|
      && s.broken == old(s.broken)
      && s.incoming == old(s.incoming)[hi - lo..]
      && buf[lo..hi] == old(s.incoming)[..hi - lo]
    ensures !ok ==> s.broken || |old(s.incoming)| < hi - lo
  {
    var total := 0;
    while total < hi - lo
      invariant total <= hi - lo && total <= |old(s.incoming)|
      invariant s.outgoing == old(s.outgoing)
      invariant buf[..lo] == old(buf[..lo]) && buf[hi..] == old(buf[hi..])
      invariant s.incoming == old(s.incoming)[total..]
      invariant buf[lo..lo + total] == old(s.incoming)[..total]
      invariant s.broken == old(s.broken)
    {
      ghost var arrived := buf[lo..lo + total];
      ghost var before, after := buf[..lo], buf[hi..];
      ghost var left := s.incoming;
      var n := s.Recv(buf, lo + total, hi);
      if n <= 0 {
        return false;
      }
      assert buf[..lo] == before && buf[hi..] == after;
      assert buf[lo..lo + total] == arrived;
      assert buf[lo + total..lo + total + n] == left[..n];
      assert buf[lo..lo + total + n] == arrived + left[..n];
      total := total + n;
    }
    ok := true;
  }

  /** The stream begins with this header, and the payload is longer than a frame can carry. */
  predicate RefusedHeader(littleEndian: bool, stream: seq<byte>, kind: byte, dataLen: uint32) {
    && FRAME_HEADER_SIZE <= |stream|
    && kind == HeaderKind(stream[..FRAME_HEADER_SIZE])
    && FRAME_PAYLOAD_MAXSIZE < dataLen == HeaderLength(littleEndian, stream[..FRAME_HEADER_SIZE])
  }

  /** What a refused header leaves behind: `n` more bytes of the stream are gone, at least one if there
      is any and the socket works, and stand at the start of the buffer, over the header; beyond them
      the buffer is as it was. */
  predicate DroppedUpTo(stream: seq<byte>, stream': seq<byte>, memory: seq<byte>, memory': seq<byte>, n: nat,
                        broken: bool) {
    && FRAME_HEADER_SIZE + n <= |stream| && FRAME_HEADER_SIZE <= |memory| && n <= |memory|
    && (n == 0 && !broken ==> |stream| == FRAME_HEADER_SIZE)
    && stream' == stream[FRAME_HEADER_SIZE + n..]
    && memory' == stream[FRAME_HEADER_SIZE..FRAME_HEADER_SIZE + n]
                  + (stream[..FRAME_HEADER_SIZE] + memory[FRAME_HEADER_SIZE..])[n..]
  }

  ghost predicate Dropped(stream: seq<byte>, stream': seq<byte>, memory: seq<byte>, memory': seq<byte>, broken: bool) {
    exists n :: DroppedUpTo(stream, stream', memory, memory', n, broken)
  }

  lemma DroppedBy(stream: seq<byte>, stream': seq<byte>, memory: seq<byte>, memory': seq<byte>, n: nat, broken: bool)
    requires FRAME_HEADER_SIZE <= |memory| && FRAME_HEADER_SIZE + n <= |stream| && n <= |memory|
    requires stream' == stream[FRAME_HEADER_SIZE..][n..]
    requires var read := stream[..FRAME_HEADER_SIZE] + memory[FRAME_HEADER_SIZE..];
             memory' == stream[FRAME_HEADER_SIZE..][..n] + read[n..]
    requires n == 0 && !broken ==> |stream| == FRAME_HEADER_SIZE
    ensures Dropped(stream, stream', memory, memory', broken)
  {
    assert stream[FRAME_HEADER_SIZE..][..n] == stream[FRAME_HEADER_SIZE..FRAME_HEADER_SIZE + n];
    assert DroppedUpTo(stream, stream', memory, memory', n, broken);
  }

  /** receive_frame. The result is the number of bytes received, 0 after an oversize header
      and -1 when the stream ends or fails before a whole frame has arrived. */
  method ReceiveFrame(littleEndian: bool, s: Socket, buf: array<byte>)
    returns (result: int, kind: byte, dataLen: uint32)
    requires buf.Length == FRAME_MAXSIZE
    modifies s, buf
    ensures s.outgoing == old(s.outgoing)
    ensures result > 0 ==>
      var p := Parse(littleEndian, old(s.incoming));
      && FRAME_HEADER_SIZE + dataLen == result <= |old(s.incoming)|
      && dataLen <= FRAME_PAYLOAD_MAXSIZE
      && s.incoming == old(s.incoming)[result..]
      && var first := Frame(kind, buf[FRAME_HEADER_SIZE..result]);
         var q := Parse(littleEndian, s.incoming);
         p == q.(frames := [first] + q.frames)
    ensures result > 0 ==> s.broken == old(s.broken)
    ensures result == 0 ==>
      var p := Parse(littleEndian, old(s.incoming));
      && p.oversize && p.frames == []
      && RefusedHeader(littleEndian, p.rest, kind, dataLen)
      && |s.incoming| < |old(s.incoming)|
    ensures result == 0 ==> Dropped(old(s.incoming), s.incoming, old(buf[..]), buf[..], s.broken)
    ensures result < 0 ==>
      result == -1 && (s.broken || (var p := Parse(littleEndian, old(s.incoming)); p.frames == [] && !p.oversize))
  {
    kind, dataLen := 0, 0;
    ghost var stream, memory := s.incoming, buf[..];
    var ok := RecvAll(s, buf, 0, FRAME_HEADER_SIZE);
    if !ok {
      return -1, kind, dataLen;
    }
    assert buf[..FRAME_HEADER_SIZE] == stream[..FRAME_HEADER_SIZE];
    kind, dataLen := DecodeFrameHeader(littleEndian, buf);
    if dataLen > FRAME_PAYLOAD_MAXSIZE {
      assert buf[..] == stream[..FRAME_HEADER_SIZE] + memory[FRAME_HEADER_SIZE..];
      var n := s.Recv(buf, 0, FRAME_MAXSIZE);
      DroppedBy(stream, s.incoming, memory, buf[..], if n <= 0 then 0 else n, s.broken);
      return 0, kind, dataLen;
    }
    var end := FRAME_HEADER_SIZE + dataLen;
    ok := RecvAll(s, buf, FRAME_HEADER_SIZE, end);
    if !ok {
      return -1, kind, dataLen;
    }
    assert s.incoming == stream[end..];
    assert buf[FRAME_HEADER_SIZE..end] == stream[FRAME_HEADER_SIZE..end];
    result := end;
  }

  /** What the loop of peer_receive hands to process_frame: a frame, or the header it refused
      together with whatever the buffer holds. */
  datatype Handed = Whole(frame: Frame) | Refused(kind: byte, dataLen: uint32, memory: seq<byte>)

  function Wholes(fs: seq<Frame>): seq<Handed> {
    seq(|fs|, k requires 0 <= k < |fs| => Whole(fs[k]))
  }

  /** The next thing handed on is the header that the parser refuses. */
  predicate HandsRefused(littleEndian: bool, handed: seq<Handed>, before: nat, p: Parsed) {
    && p.oversize && NoClose(p.frames)
    && before < |handed| && handed[before].Refused?
    && RefusedHeader(littleEndian, p.rest, handed[before].kind, handed[before].dataLen)
  }

  /** What has been handed on when the loop ends: the whole frames of the stream, in order, up to
      the first CLOSE, or fewer of them if the socket has failed; and if a refused header comes
      before any CLOSE, that header next. */
  predicate HandedOn(littleEndian: bool, handed: seq<Handed>, p: Parsed, broken: bool) {
    var whole := Wholes(UpToClose(p.frames));
    && (handed <= whole || (whole <= handed && HandsRefused(littleEndian, handed, |whole|, p)))
    && (!broken ==> whole <= handed)
    && (!broken && p.oversize && NoClose(p.frames) ==> HandsRefused(littleEndian, handed, |whole|, p))
  }

  /** The loop has handed on `frames`, and the stream that is left parses to `rest`. */
  predicate InStep(handed: seq<Handed>, frames: seq<Frame>, all: Parsed, rest: Parsed) {
    && handed == Wholes(frames) && NoClose(frames)
    && all == rest.(frames := frames + rest.frames)
  }

  predicate OutOfStep(littleEndian: bool, handed: seq<Handed>, all: Parsed) {
    var whole := Wholes(UpToClose(all.frames));
    whole <= handed && HandsRefused(littleEndian, handed, |whole|, all)
  }

  lemma StreamEnds(littleEndian: bool, handed: seq<Handed>, frames: seq<Frame>, all: Parsed, rest: Parsed, broken: bool)
    requires InStep(handed, frames, all, rest)
    requires broken || (rest.frames == [] && !rest.oversize)
    ensures HandedOn(littleEndian, handed, all, broken)
  {
    UpToCloseSplit(frames, rest.frames);
    UpToCloseNothing();
    assert rest.frames == [] ==> all.frames == frames;
  }

  lemma FrameArrives(littleEndian: bool, handed: seq<Handed>, frames: seq<Frame>, all: Parsed, rest: Parsed,
                     f: Frame, rest': Parsed, broken: bool)
    requires InStep(handed, frames, all, rest) && rest == rest'.(frames := [f] + rest'.frames)
    ensures f.kind != FRAME_HDR_CLOSE ==> InStep(handed + [Whole(f)], frames + [f], all, rest')
    ensures f.kind == FRAME_HDR_CLOSE ==> HandedOn(littleEndian, handed + [Whole(f)], all, broken)
  {
    Regroup(frames, [f], rest'.frames);
    assert Wholes(frames + [f]) == Wholes(frames) + [Whole(f)];
    if f.kind == FRAME_HDR_CLOSE {
      UpToFirstClose(frames, f, rest'.frames);
      assert all.frames[|frames|].kind == FRAME_HDR_CLOSE;
    }
  }

  lemma HeaderIsRefused(littleEndian: bool, handed: seq<Handed>, frames: seq<Frame>, all: Parsed, rest: Parsed,
                        h: Handed)
    requires InStep(handed, frames, all, rest) && rest.oversize && rest.frames == []
    requires h.Refused? && RefusedHeader(littleEndian, rest.rest, h.kind, h.dataLen)
    ensures OutOfStep(littleEndian, handed + [h], all)
  {
    UpToFirstClose(frames, Frame(0, []), []);
    assert all.frames == frames;
  }

  /** The receiving loop of peer_receive. After a header it refuses it goes on in the middle of
      the stream, and hands that header on with what happens to be in the buffer. */
  method ReceiveFrames(littleEndian: bool, s: Socket) returns (handed: seq<Handed>)
    modifies s
    ensures s.outgoing == old(s.outgoing)
    ensures HandedOn(littleEndian, handed, Parse(littleEndian, old(s.incoming)), s.broken)
  {
    hide Parse;
    hide InStep;
    hide HandedOn;
    hide HandsRefused;
    hide RefusedHeader;
    hide Dropped;
    var buf := new byte[FRAME_MAXSIZE];
    ghost var all := Parse(littleEndian, s.incoming);
    ghost var synced, frames := true, [];
    handed := [];
    StartsInStep(all);
    while true
      invariant s.outgoing == old(s.outgoing) && fresh(buf)
      invariant synced ==> InStep(handed, frames, all, Parse(littleEndian, s.incoming))
      invariant !synced ==> OutOfStep(littleEndian, handed, all)
      decreases |s.incoming|
    {
      ghost var rest, before := Parse(littleEndian, s.incoming), handed;
      var result, kind, dataLen := ReceiveFrame(littleEndian, s, buf);
      if result < 0 {
        if synced {
          StreamEnds(littleEndian, handed, frames, all, rest, s.broken);
        } else {
          StaysOutOfStep(littleEndian, handed, all, handed, s.broken);
        }
        return;
      }
      var next := if result == 0 then Refused(kind, dataLen, buf[..])
                  else Whole(Frame(kind, buf[FRAME_HEADER_SIZE..result]));
      handed := handed + [next];
      if !synced {
        StaysOutOfStep(littleEndian, before, all, handed, s.broken);
      } else if result == 0 {
        HeaderIsRefused(littleEndian, before, frames, all, rest, next);
        synced := false;
        StaysOutOfStep(littleEndian, handed, all, handed, s.broken);
      } else {
        FrameArrives(littleEndian, before, frames, all, rest, next.frame, Parse(littleEndian, s.incoming), s.broken);
        frames := frames + [next.frame];
      }
      if kind == FRAME_HDR_CLOSE {
        return;
      }
    }
  }

  lemma StartsInStep(all: Parsed)
    ensures InStep([], [], all, all)
  {
    assert [] + all.frames == all.frames;
  }

  lemma StaysOutOfStep(littleEndian: bool, handed: seq<Handed>, all: Parsed, longer: seq<Handed>, broken: bool)
    requires OutOfStep(littleEndian, handed, all) && handed <= longer
    ensures OutOfStep(littleEndian, longer, all) && HandedOn(littleEndian, longer, all, broken)
  {
    hide UpToClose;
    hide RefusedHeader;
  }
}
