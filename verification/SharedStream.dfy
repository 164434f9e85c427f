/** One connection shared by any number of sending threads and read by one thread.

    Each sender follows send_data_to_peer: it takes the peer's mutex, sends the header and
    then the payload with as many send calls as it takes, and releases the mutex. A send
    moves any positive number of bytes or fails; after a failure the connection takes no
    more bytes. The reader follows receive_frame. Steps of different threads interleave
    freely. Both ends use the same byte order. */
module SharedStream {
  import opened Protocol
  import opened Framing
  import opened Wrappers

  datatype Phase =
    | Idle
    | Waiting(frame: Frame)
    | SendingHeader(frame: Frame, sent: nat)
    | SendingPayload(frame: Frame, sent: nat, failed: bool)

  /** One acquisition of the mutex. */
  datatype Entry = Entry(writer: nat, frame: Frame)

  /** `log`, `whole` and `partial` are history: the acquisitions so far, how many of their
      frames have gone out whole, and how many bytes of the next one have gone out. */
  datatype State = State(
    writers: map<nat, Phase>,
    lock: Option<nat>,
    broken: bool,
    wire: seq<byte>,
    consumed: nat,
    reader: Reader,
    received: seq<Frame>,
    ended: bool,
    log: seq<Entry>,
    whole: nat,
    partial: nat)

  datatype Action =
    | Begin(t: nat, frame: Frame)
    | Acquire(t: nat)
    | Sent(t: nat, n: nat)
    | SendFailed(t: nat)
    | Release(t: nat)
    | Break
    | Receive(n: nat)
    | EndOfStream

  predicate Init(s: State) {
    && (forall t | t in s.writers :: s.writers[t] == Idle)
    && s == State(s.writers, None, false, [], 0, AtHeader([]), [], false, [], 0, 0)
  }

  /** How many bytes of its frame the lock holder has got rid of. */
  function Progress(p: Phase): nat {
    match p
    case SendingHeader(_, sent) => sent
    case SendingPayload(_, sent, _) => FRAME_HEADER_SIZE + sent
    case _ => 0
  }

  function FrameSize(f: Frame): nat {
    FRAME_HEADER_SIZE + |f.payload|
  }

  /** The thread is about to call send. */
  predicate WantsToSend(p: Phase) {
    || (p.SendingHeader? && p.sent < FRAME_HEADER_SIZE)
    || (p.SendingPayload? && p.sent < |p.frame.payload| && !p.failed)
  }

  predicate Enabled(s: State, a: Action) {
    match a
    case Begin(t, frame) => t in s.writers && s.writers[t].Idle? && Sendable(frame)
    case Acquire(t) => t in s.writers && s.writers[t].Waiting? && s.lock == None
    case Sent(t, n) =>
      && t in s.writers && WantsToSend(s.writers[t]) && Sendable(s.writers[t].frame) && !s.broken
      && 0 < n <= Left(s.writers[t])
    case SendFailed(t) => t in s.writers && WantsToSend(s.writers[t])
    case Release(t) => t in s.writers && s.writers[t].SendingPayload? && !WantsToSend(s.writers[t])
    case Break => true
    case Receive(n) =>
      && !s.ended && ValidReader(s.reader) && 0 < n <= Wanted(s.reader) && s.consumed + n <= |s.wire|
    case EndOfStream => !s.ended && s.broken && s.consumed == |s.wire|
  }

  function AfterSend(p: Phase, n: nat): Phase
    requires WantsToSend(p)
  {
    match p
    case SendingHeader(f, sent) =>
      if sent + n < FRAME_HEADER_SIZE then SendingHeader(f, sent + n) else SendingPayload(f, 0, false)
    case SendingPayload(f, sent, failed) => SendingPayload(f, sent + n, failed)
  }

  /** A failed header does not stop the thread from trying to send the payload. */
  function AfterFailure(p: Phase): Phase
    requires WantsToSend(p)
  {
    match p
    case SendingHeader(f, _) => SendingPayload(f, 0, false)
    case SendingPayload(f, sent, _) => SendingPayload(f, sent, true)
  }

  /** The largest number of bytes the next call of send can take. */
  function Left(p: Phase): nat
    requires WantsToSend(p)
  {
    match p
    case SendingHeader(_, sent) => FRAME_HEADER_SIZE - sent
    case SendingPayload(f, sent, _) => |f.payload| - sent
  }

  /** A thread in phase `p` that calls send, with these results, gets to phase `end`. */
  predicate Performs(p: Phase, calls: seq<int>, end: Phase)
    decreases |calls|
  {
    if calls == [] then end == p
    else
      && WantsToSend(p) && calls[0] <= Left(p)
      && Performs(if calls[0] > 0 then AfterSend(p, calls[0]) else AfterFailure(p), calls[1..], end)
  }

  function Apply(littleEndian: bool, s: State, a: Action): State
    requires Enabled(s, a)
  {
    match a
    case Begin(t, frame) => s.(writers := s.writers[t := Waiting(frame)])
    case Acquire(t) =>
      var f := s.writers[t].frame;
      s.(writers := s.writers[t := SendingHeader(f, 0)], lock := Some(t), log := s.log + [Entry(t, f)])
    case Sent(t, n) =>
      var p := s.writers[t];
      var at := Progress(p);
      var out := if p.SendingHeader? then HeaderBytes(littleEndian, p.frame.kind, |p.frame.payload|)[p.sent..p.sent + n]
                 else p.frame.payload[p.sent..p.sent + n];
      var done := at + n == FrameSize(p.frame);
      s.(writers := s.writers[t := AfterSend(p, n)],
         wire := s.wire + out,
         whole := if done then s.whole + 1 else s.whole,
         partial := if done then 0 else s.partial + n)
    case SendFailed(t) =>
      s.(writers := s.writers[t := AfterFailure(s.writers[t])], broken := true)
    case Release(t) => s.(writers := s.writers[t := Idle], lock := None)
    case Break => s.(broken := true)
    case Receive(n) =>
      var fed := Feed(littleEndian, s.reader, s.wire[s.consumed..s.consumed + n]);
      s.(consumed := s.consumed + n, reader := fed.reader, received := s.received + fed.received)
    case EndOfStream => s.(ended := true)
  }

  ghost predicate Next(littleEndian: bool, s: State, s': State) {
    exists a :: Enabled(s, a) && s' == Apply(littleEndian, s, a)
  }

  ghost predicate IsRun(littleEndian: bool, run: seq<State>) {
    && run != []
    && Init(run[0])
    && forall i | 0 <= i < |run| - 1 :: Next(littleEndian, run[i], run[i + 1])
  }

  function Frames(log: seq<Entry>): seq<Frame> {
    seq(|log|, i requires 0 <= i < |log| => log[i].frame)
  }

  /** Exactly the lock holder is inside the sending section. */
  ghost predicate MutexInv(s: State) {
    && (s.lock.Some? ==> s.lock.value in s.writers)
    && (forall t | t in s.writers :: PhaseInv(s, t))
  }

  ghost predicate PhaseInv(s: State, t: nat)
    requires t in s.writers
  {
    var p := s.writers[t];
    && ((p.SendingHeader? || p.SendingPayload?) <==> s.lock == Some(t))
    && (!p.Idle? ==> Sendable(p.frame))
    && (p.SendingHeader? ==> p.sent < FRAME_HEADER_SIZE)
    && (p.SendingPayload? ==> p.sent <= |p.frame.payload| && (p.failed ==> s.broken))
  }

  /** The wire holds the whole frames of the first acquisitions and a proper part of the next. */
  ghost predicate WireInv(littleEndian: bool, s: State) {
    && s.whole <= |s.log|
    && AllSendable(Frames(s.log))
    && (s.whole == |s.log| ==> s.partial == 0)
    && (s.whole < |s.log| ==> s.partial < FrameSize(s.log[s.whole].frame))
    && s.wire == StreamBytes(littleEndian, Frames(s.log)[..s.whole]) + CutFrame(littleEndian, s)
  }

  /** The part of a frame at the end of the wire. */
  function CutFrame(littleEndian: bool, s: State): seq<byte>
    requires s.whole <= |s.log| && AllSendable(Frames(s.log))
    requires s.whole == |s.log| ==> s.partial == 0
    requires s.whole < |s.log| ==> s.partial < FrameSize(s.log[s.whole].frame)
  {
    if s.whole == |s.log| then []
    else assert Frames(s.log)[s.whole] == s.log[s.whole].frame;
         FrameBytes(littleEndian, s.log[s.whole].frame)[..s.partial]
  }

  /** Until the connection breaks, the only frame that is not whole is the lock holder's. */
  ghost predicate HolderInv(s: State) {
    !s.broken ==>
      match s.lock
      case None => s.whole == |s.log|
      case Some(t) =>
        && t in s.writers && s.log != []
        && (s.writers[t].SendingHeader? || s.writers[t].SendingPayload?)
        && s.log[|s.log| - 1] == Entry(t, s.writers[t].frame)
        && var at := Progress(s.writers[t]);
           if at < FrameSize(s.writers[t].frame) then s.whole == |s.log| - 1 && s.partial == at
           else s.whole == |s.log|
  }

  /** The reader stands where the parser stands on the bytes consumed. */
  ghost predicate ReaderInv(littleEndian: bool, s: State) {
    && s.consumed <= |s.wire|
    && ReaderHasParsed(littleEndian, s.wire[..s.consumed], s.reader, s.received)
    && !s.reader.AtOversize?
    && (s.ended ==> s.broken && s.consumed == |s.wire|)
  }

  ghost predicate Inv(littleEndian: bool, s: State) {
    MutexInv(s) && WireInv(littleEndian, s) && HolderInv(s) && ReaderInv(littleEndian, s)
  }

  lemma InitInv(littleEndian: bool, s: State)
    requires Init(s)
    ensures Inv(littleEndian, s)
  {
    assert Frames(s.log) == [];
    assert s.wire[..s.consumed] == [];
  }

  lemma MutexKept(littleEndian: bool, s: State, a: Action)
    requires MutexInv(s) && Enabled(s, a)
    ensures MutexInv(Apply(littleEndian, s, a))
  {
    var s' := Apply(littleEndian, s, a);
    forall t | t in s'.writers ensures PhaseInv(s', t) {
      assert t in s.writers && PhaseInv(s, t);
    }
  }

  /** Sending more bytes of the frame at the end of the wire keeps the shape of the wire. */
  lemma SentKeepsWire(littleEndian: bool, s: State, t: nat, n: nat)
    requires MutexInv(s) && WireInv(littleEndian, s) && HolderInv(s) && Enabled(s, Sent(t, n))
    ensures WireInv(littleEndian, Apply(littleEndian, s, Sent(t, n)))
  {
    hide StreamBytes;
    hide FrameBytes;
    var s' := Apply(littleEndian, s, Sent(t, n));
    assert PhaseInv(s, t);
    var f := s.writers[t].frame;
    var at := Progress(s.writers[t]);
    SentBytes(littleEndian, s, t, n);
    var all := FrameBytes(littleEndian, f);
    assert Frames(s.log)[s.whole] == f;
    GrowTail(StreamBytes(littleEndian, Frames(s.log)[..s.whole]), all, at, at + n);
    if at + n == FrameSize(f) {
      StreamBytesSnoc(littleEndian, Frames(s.log)[..s.whole], f);
      assert Frames(s.log)[..s.whole] + [f] == Frames(s.log)[..s.whole + 1];
      assert all[..at + n] == all;
      if s.whole + 1 == |s.log| {
        assert s'.wire == StreamBytes(littleEndian, Frames(s.log)[..s.whole + 1]) + [];
      }
    }
  }

  lemma SentBytes(littleEndian: bool, s: State, t: nat, n: nat)
    requires Enabled(s, Sent(t, n))
    ensures var all := FrameBytes(littleEndian, s.writers[t].frame);
            var at := Progress(s.writers[t]);
            at + n <= |all| && Apply(littleEndian, s, Sent(t, n)).wire == s.wire + all[at..at + n]
  {
    hide HeaderBytes;
    hide AfterSend;
    var p := s.writers[t];
    var h := HeaderBytes(littleEndian, p.frame.kind, |p.frame.payload|);
    assert FrameBytes(littleEndian, p.frame) == h + p.frame.payload;
    if p.SendingHeader? {
      LeftPart(h, p.frame.payload, p.sent, p.sent + n);
    } else {
      RightPart(h, p.frame.payload, p.sent, p.sent + n);
    }
  }

  lemma LeftPart(a: seq<byte>, b: seq<byte>, i: nat, j: nat)
    requires i <= j <= |a|
    ensures (a + b)[i..j] == a[i..j]
  {
  }

  lemma RightPart(a: seq<byte>, b: seq<byte>, i: nat, j: nat)
    requires i <= j <= |b|
    ensures (a + b)[|a| + i..|a| + j] == b[i..j]
  {
  }

  lemma GrowTail(base: seq<byte>, all: seq<byte>, i: nat, j: nat)
    requires i <= j <= |all|
    ensures (base + all[..i]) + all[i..j] == base + all[..j]
  {
  }

  lemma AcquireKeepsWire(littleEndian: bool, s: State, t: nat)
    requires MutexInv(s) && WireInv(littleEndian, s) && Enabled(s, Acquire(t))
    ensures WireInv(littleEndian, Apply(littleEndian, s, Acquire(t)))
  {
    var s' := Apply(littleEndian, s, Acquire(t));
    assert PhaseInv(s, t);
    assert Frames(s'.log) == Frames(s.log) + [s.writers[t].frame];
    assert Frames(s'.log)[..s.whole] == Frames(s.log)[..s.whole];
  }

  lemma ReaderKept(littleEndian: bool, s: State, n: nat)
    requires ReaderInv(littleEndian, s) && WireInv(littleEndian, s) && Enabled(s, Receive(n))
    ensures ReaderInv(littleEndian, Apply(littleEndian, s, Receive(n)))
  {
    hide Parse;
    hide Feed;
    hide Pending;
    hide StreamBytes;
    var s' := Apply(littleEndian, s, Receive(n));
    var chunk := s.wire[s.consumed..s.consumed + n];
    FeedKeepsParsed(littleEndian, s.wire[..s.consumed], s.reader, s.received, chunk);
    assert s.wire[..s.consumed] + chunk == s.wire[..s.consumed + n];
    NeverOversize(littleEndian, s, s.consumed + n);
  }

  /** Every part of the wire parses without an oversize header. */
  lemma NeverOversize(littleEndian: bool, s: State, upto: nat)
    requires WireInv(littleEndian, s) && upto <= |s.wire|
    ensures !Parse(littleEndian, s.wire[..upto]).oversize
  {
    hide Parse;
    hide StreamBytes;
    WireParses(littleEndian, s);
    assert s.wire[..upto] + s.wire[upto..] == s.wire;
    if Parse(littleEndian, s.wire[..upto]).oversize {
      OversizeStays(littleEndian, s.wire[..upto], s.wire[upto..]);
    }
  }

  lemma WireParses(littleEndian: bool, s: State)
    requires WireInv(littleEndian, s)
    ensures Parse(littleEndian, s.wire)
            == Parsed(Frames(s.log)[..s.whole], CutFrame(littleEndian, s), false)
  {
    var fs := Frames(s.log)[..s.whole];
    if s.whole == |s.log| {
      var f := Frame(0, []);
      ParsePrinted(littleEndian, fs, f, 0);
      assert FrameBytes(littleEndian, f)[..0] == [];
    } else {
      ParsePrinted(littleEndian, fs, Frames(s.log)[s.whole], s.partial);
    }
  }

  lemma HolderKept(littleEndian: bool, s: State, a: Action)
    requires MutexInv(s) && HolderInv(s) && WireInv(littleEndian, s) && Enabled(s, a)
    ensures HolderInv(Apply(littleEndian, s, a))
  {
    hide StreamBytes;
    hide FrameBytes;
    hide HeaderBytes;
    hide CutFrame;
    hide Feed;
    if a.Begin? || a.Acquire? || a.Sent? || a.SendFailed? || a.Release? {
      assert PhaseInv(s, a.t);
    }
  }

  lemma WireKept(littleEndian: bool, s: State, a: Action)
    requires MutexInv(s) && HolderInv(s) && WireInv(littleEndian, s) && Enabled(s, a)
    ensures WireInv(littleEndian, Apply(littleEndian, s, a))
  {
    hide StreamBytes;
    hide FrameBytes;
    hide Feed;
    match a
    case Sent(t, n) => SentKeepsWire(littleEndian, s, t, n);
    case Acquire(t) => AcquireKeepsWire(littleEndian, s, t);
    case _ =>
  }

  lemma StepInv(littleEndian: bool, s: State, a: Action)
    requires Inv(littleEndian, s) && Enabled(s, a)
    ensures Inv(littleEndian, Apply(littleEndian, s, a))
  {
    MutexKept(littleEndian, s, a);
    HolderKept(littleEndian, s, a);
    WireKept(littleEndian, s, a);
    match a
    case Receive(n) => ReaderKept(littleEndian, s, n);
    case _ => OthersKeepReader(littleEndian, s, a);
  }

  lemma OthersKeepReader(littleEndian: bool, s: State, a: Action)
    requires ReaderInv(littleEndian, s) && Enabled(s, a) && !a.Receive?
    ensures ReaderInv(littleEndian, Apply(littleEndian, s, a))
  {
    hide Parse;
    hide Pending;
    var s' := Apply(littleEndian, s, a);
    assert s'.wire[..s.consumed] == s.wire[..s.consumed];
  }

  /** Every state of every run satisfies the invariant. */
  lemma {:induction false} RunInv(littleEndian: bool, run: seq<State>, i: nat)
    requires IsRun(littleEndian, run) && i < |run|
    ensures Inv(littleEndian, run[i])
  {
    hide Inv;
    hide Enabled;
    hide Apply;
    if i == 0 {
      InitInv(littleEndian, run[0]);
    } else {
      RunInv(littleEndian, run, i - 1);
      assert Next(littleEndian, run[i - 1], run[i - 1 + 1]);
      var a :| Enabled(run[i - 1], a) && run[i] == Apply(littleEndian, run[i - 1], a);
      StepInv(littleEndian, run[i - 1], a);
    }
  }

  /** Main result for the senders. At every moment of every run the bytes on the connection
      are whole frames in the order of the mutex acquisitions, then at most a proper part of
      one frame. While the connection is up, that part belongs to the thread inside the
      sending section, and every earlier frame is out. */
  lemma WireIsFramesInLockOrder(littleEndian: bool, run: seq<State>, i: nat)
    requires IsRun(littleEndian, run) && i < |run|
    ensures var s := run[i];
      && WireInv(littleEndian, s)
      && s.wire == StreamBytes(littleEndian, Frames(s.log)[..s.whole]) + CutFrame(littleEndian, s)
      && (!s.broken ==> |s.log| - 1 <= s.whole)
      && (!s.broken && s.whole < |s.log| ==> s.lock == Some(s.log[s.whole].writer))
  {
    RunInv(littleEndian, run, i);
  }

  /** Main result for the reader. It returns the frames in the order of the acquisitions,
      whatever the sizes of the sends and receives; it never meets an oversize header, and
      when the stream ends it has returned every frame that went out whole and no other. */
  lemma ReceivedInLockOrder(littleEndian: bool, run: seq<State>, i: nat)
    requires IsRun(littleEndian, run) && i < |run|
    ensures var s := run[i];
      && s.whole <= |s.log|
      && !s.reader.AtOversize?
      && s.received <= Frames(s.log)[..s.whole]
      && (s.consumed == |s.wire| ==> s.received == Frames(s.log)[..s.whole])
      && (s.ended ==> s.broken && s.received == Frames(s.log)[..s.whole])
  {
    hide IsRun;
    hide Parse;
    hide StreamBytes;
    RunInv(littleEndian, run, i);
    var s := run[i];
    WireParses(littleEndian, s);
    var seen, unseen := s.wire[..s.consumed], s.wire[s.consumed..];
    assert seen + unseen == s.wire;
    ParseResumes(littleEndian, seen, unseen);
    if s.consumed == |s.wire| {
      assert seen == s.wire;
    }
  }

  /** When no thread is sending and the reader has caught up, everything has arrived. */
  lemma QuiescentMeansDelivered(littleEndian: bool, run: seq<State>, i: nat)
    requires IsRun(littleEndian, run) && i < |run|
    requires var s := run[i]; s.lock == None && !s.broken && s.consumed == |s.wire|
    ensures run[i].received == Frames(run[i].log)
  {
    RunInv(littleEndian, run, i);
    ReceivedInLockOrder(littleEndian, run, i);
    assert Frames(run[i].log)[..run[i].whole] == Frames(run[i].log);
  }

  /** How many more steps the thread can take before it lets go of the mutex. */
  function StepsToRelease(p: Phase): nat {
    match p
    case SendingHeader(f, sent) => (if sent < FRAME_HEADER_SIZE then FRAME_HEADER_SIZE - sent else 0) + |f.payload| + 3
    case SendingPayload(f, sent, failed) => (if sent < |f.payload| && !failed then |f.payload| - sent + 1 else 1)
    case _ => 0
  }

  predicate ActionOf(t: nat, a: Action) {
    match a
    case Begin(u, _) => u == t
    case Acquire(u) => u == t
    case Sent(u, _) => u == t
    case SendFailed(u) => u == t
    case Release(u) => u == t
    case _ => false
  }

  /** The mutex is never left locked: its holder always has a step to take, on an unbroken
      connection one that sends a byte or unlocks, each of its steps
      brings it closer to the release, and no other thread's step pushes it back. */
  lemma HolderAlwaysProgresses(littleEndian: bool, run: seq<State>, i: nat, a: Action)
    requires IsRun(littleEndian, run) && i < |run| && run[i].lock.Some?
    ensures var t := run[i].lock.value;
      && t in run[i].writers
      && (Enabled(run[i], SendFailed(t)) || Enabled(run[i], Release(t)))
      && (!run[i].broken ==> Enabled(run[i], Sent(t, 1)) || Enabled(run[i], Release(t)))
      && (Enabled(run[i], a) ==>
            var s' := Apply(littleEndian, run[i], a);
            && t in s'.writers
            && (ActionOf(t, a) ==> StepsToRelease(s'.writers[t]) < StepsToRelease(run[i].writers[t]))
            && (!ActionOf(t, a) ==> s'.lock == Some(t) && s'.writers[t] == run[i].writers[t]))
  {
    hide WireInv;
    hide ReaderInv;
    hide Feed;
    hide FrameBytes;
    hide IsRun;
    RunInv(littleEndian, run, i);
    var t := run[i].lock.value;
    assert PhaseInv(run[i], t);
    if Enabled(run[i], a) && (a.Begin? || a.Sent? || a.SendFailed? || a.Release?) {
      assert PhaseInv(run[i], a.t);
    }
  }

  // ---------------------------------------------------------------- everything can happen

  /** The results of the calls of send, all of them positive, with which a thread gets rid of its frame. */
  predicate Completes(p: Phase, calls: seq<int>)
    decreases |calls|
  {
    if calls == [] then p.SendingPayload? && !WantsToSend(p) && !p.failed
    else WantsToSend(p) && 0 < calls[0] <= Left(p) && Completes(AfterSend(p, calls[0]), calls[1..])
  }

  /** One thread sends one frame, with these results. */
  datatype Job = Job(writer: nat, frame: Frame, calls: seq<int>)

  predicate CanBeDone(threads: set<nat>, job: Job) {
    job.writer in threads && Sendable(job.frame) && Completes(SendingHeader(job.frame, 0), job.calls)
  }

  function Entries(jobs: seq<Job>): seq<Entry> {
    seq(|jobs|, k requires 0 <= k < |jobs| => Entry(jobs[k].writer, jobs[k].frame))
  }

  lemma OneMore(littleEndian: bool, run: seq<State>, a: Action) returns (longer: seq<State>)
    requires IsRun(littleEndian, run) && Enabled(run[|run| - 1], a)
    ensures IsRun(littleEndian, longer) && longer == run + [Apply(littleEndian, run[|run| - 1], a)]
  {
    hide Enabled;
    hide Apply;
    hide Init;
    longer := run + [Apply(littleEndian, run[|run| - 1], a)];
    forall i | 0 <= i < |longer| - 1 ensures Next(littleEndian, longer[i], longer[i + 1]) {
      assert i < |run| - 1 ==> Next(littleEndian, run[i], run[i + 1]);
    }
  }

  /** The lock holder sends the rest of its frame and releases the mutex. */
  lemma {:induction false} SendsRest(littleEndian: bool, run: seq<State>, t: nat, calls: seq<int>)
    returns (longer: seq<State>)
    requires IsRun(littleEndian, run)
    requires var s := run[|run| - 1]; t in s.writers && !s.broken && Completes(s.writers[t], calls)
    ensures IsRun(littleEndian, longer)
    ensures var s, s' := run[|run| - 1], longer[|longer| - 1];
      && s'.writers == s.writers[t := Idle] && s'.lock == None && !s'.broken && s'.log == s.log
    decreases |calls|
  {
    var s := run[|run| - 1];
    RunInv(littleEndian, run, |run| - 1);
    HolderCan(littleEndian, s, t, calls);
    hide Inv;
    hide IsRun;
    hide Enabled;
    hide Apply;
    if calls == [] {
      longer := OneMore(littleEndian, run, Release(t));
    } else {
      var more := OneMore(littleEndian, run, Sent(t, calls[0]));
      longer := SendsRest(littleEndian, more, t, calls[1..]);
      assert s.writers[t := AfterSend(s.writers[t], calls[0])][t := Idle] == s.writers[t := Idle];
    }
  }

  /** The next step of the lock holder. */
  lemma HolderCan(littleEndian: bool, s: State, t: nat, calls: seq<int>)
    requires Inv(littleEndian, s) && t in s.writers && !s.broken && Completes(s.writers[t], calls)
    ensures calls == [] ==>
      && Enabled(s, Release(t))
      && var s' := Apply(littleEndian, s, Release(t));
         s'.writers == s.writers[t := Idle] && s'.lock == None && !s'.broken && s'.log == s.log
    ensures calls != [] ==>
      && Enabled(s, Sent(t, calls[0]))
      && var s' := Apply(littleEndian, s, Sent(t, calls[0]));
         s'.writers == s.writers[t := AfterSend(s.writers[t], calls[0])] && !s'.broken && s'.log == s.log
  {
    assert PhaseInv(s, t);
    hide Inv;
    hide HeaderBytes;
    hide AfterSend;
  }

  lemma Sends(littleEndian: bool, run: seq<State>, job: Job) returns (longer: seq<State>)
    requires IsRun(littleEndian, run)
    requires var s := run[|run| - 1];
      && s.lock == None && !s.broken && CanBeDone(s.writers.Keys, job) && s.writers[job.writer] == Idle
    ensures IsRun(littleEndian, longer)
    ensures var s, s' := run[|run| - 1], longer[|longer| - 1];
      && s'.writers == s.writers && s'.lock == None && !s'.broken
      && s'.log == s.log + [Entry(job.writer, job.frame)]
  {
    var t, s := job.writer, run[|run| - 1];
    hide IsRun;
    hide Completes;
    var run1 := OneMore(littleEndian, run, Begin(t, job.frame));
    var run2 := OneMore(littleEndian, run1, Acquire(t));
    longer := SendsRest(littleEndian, run2, t, job.calls);
    assert run2[|run2| - 1].writers[t := Idle] == s.writers;
  }

  /** Main result on what is possible: any threads may send any frames in any order, each with any split
      into partial sends, and then the connection carries exactly these frames in this order. */
  lemma {:induction false} AnyOrderAnyChunks(littleEndian: bool, threads: set<nat>, jobs: seq<Job>)
    returns (run: seq<State>)
    requires forall k :: 0 <= k < |jobs| ==> CanBeDone(threads, jobs[k])
    ensures IsRun(littleEndian, run)
    ensures var s := run[|run| - 1];
      && s.writers == (map t | t in threads :: Idle) && s.lock == None && !s.broken && s.log == Entries(jobs)
      && AllSendable(Frames(s.log)) && s.wire == StreamBytes(littleEndian, Frames(Entries(jobs)))
    decreases |jobs|
  {
    hide CanBeDone;
    if jobs == [] {
      var s := State(map t | t in threads :: Idle, None, false, [], 0, AtHeader([]), [], false, [], 0, 0);
      assert Init(s);
      run := [s];
    } else {
      var n := |jobs| - 1;
      var before := AnyOrderAnyChunks(littleEndian, threads, jobs[..n]);
      assert before != [];
      hide IsRun;
      assert before[|before| - 1].writers.Keys == threads;
      CanDo(threads, jobs[n]);
      run := Sends(littleEndian, before, jobs[n]);
      assert Entries(jobs) == Entries(jobs[..n]) + [Entry(jobs[n].writer, jobs[n].frame)];
    }
    AllIsOut(littleEndian, run);
  }

  lemma CanDo(threads: set<nat>, job: Job)
    requires CanBeDone(threads, job)
    ensures job.writer in threads
  {
  }

  lemma AllIsOut(littleEndian: bool, run: seq<State>)
    requires IsRun(littleEndian, run) && run[|run| - 1].lock == None && !run[|run| - 1].broken
    ensures var s := run[|run| - 1];
            AllSendable(Frames(s.log)) && s.wire == StreamBytes(littleEndian, Frames(s.log))
  {
    var s := run[|run| - 1];
    RunInv(littleEndian, run, |run| - 1);
    WireIsFramesInLockOrder(littleEndian, run, |run| - 1);
    assert Frames(s.log)[..|s.log|] == Frames(s.log);
  }
}
