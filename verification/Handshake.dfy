/** The handshake of one connection between an honest server and an honest client
    (authenticate_peer on both sides) over two FIFO channels, interleaved in any order with
    the packets other threads of the two daemons try to send.

    The two sides may or may not trust each other's public key. A side that gives up closes its
    end, which the other side sees once it has read everything that was sent. */
module Handshake {
  import opened Protocol
  import opened Framing
  import opened Cipher
  import opened PacketHeader
  import opened Router
  import opened Wrappers

  /** The two daemons, and the session key the server draws for this connection. */
  datatype Setup = Setup(server: Config, client: Config, drawn: SessionKey)

  ghost predicate Honest(u: Setup) {
    && u.client.rsa == u.server.rsa && SoundRsa(u.server.rsa, {u.server.own, u.client.own})
    && u.client.cipher == u.server.cipher && SoundCipher(u.server.cipher)
    && |u.drawn.key| == AES_KEY_SIZE && |u.drawn.iv| == AES_IV_SIZE
  }

  datatype Side = Server | Client

  /** The two peer elements, everything each side has sent, and how much of it the other side
      has read. */
  datatype Pair = Pair(server: Slot, client: Slot, toClient: seq<Frame>, toServer: seq<Frame>,
                       clientRead: nat, serverRead: nat)

  datatype Move =
    | Proceed(side: Side, seed: nat)
    | Take(side: Side)
    | SeeEnd(side: Side)
    | Exit(side: Side)
    | Traffic(side: Side, packet: Packet)

  function SlotOf(p: Pair, side: Side): Slot {
    if side.Server? then p.server else p.client
  }

  function Other(side: Side): Side {
    if side.Server? then Client else Server
  }

  /** What has been sent to a side and not been read yet. */
  function Inbox(p: Pair, side: Side): seq<Frame> {
    if side.Server? then (if p.serverRead <= |p.toServer| then p.toServer[p.serverRead..] else [])
    else (if p.clientRead <= |p.toClient| then p.toClient[p.clientRead..] else [])
  }

  function ConfigOf(u: Setup, side: Side): Config {
    if side.Server? then u.server else u.client
  }

  function WithSlot(p: Pair, side: Side, s: Slot): Pair {
    if side.Server? then p.(server := s) else p.(client := s)
  }

  function Emit(p: Pair, side: Side, fs: seq<Frame>): Pair {
    if side.Server? then p.(toClient := p.toClient + fs) else p.(toServer := p.toServer + fs)
  }

  function Pop(p: Pair, side: Side): Pair {
    if side.Server? then p.(serverRead := p.serverRead + 1) else p.(clientRead := p.clientRead + 1)
  }

  predicate Listening(s: Slot) {
    Awaiting(s) || (s.alive && s.stage.Receiving?)
  }

  predicate Enabled(p: Pair, m: Move) {
    var s := SlotOf(p, m.side);
    match m
    case Proceed(_, _) => CanAct(s)
    case Take(side) => Listening(s) && Inbox(p, side) != [] && Sendable(Inbox(p, side)[0])
    case SeeEnd(side) => Listening(s) && Inbox(p, side) == [] && !SlotOf(p, Other(side)).alive
    case Exit(_) => s.alive && s.stage.Ended?
    case Traffic(_, packet) => 0 < |packet| < FRAME_PAYLOAD_MAXSIZE
  }

  function Apply(u: Setup, p: Pair, m: Move): Pair
    requires Enabled(p, m)
  {
    var s := SlotOf(p, m.side);
    match m
    case Proceed(side, seed) =>
      var a := Act(ConfigOf(u, side), s, seed);
      Emit(WithSlot(p, side, a.slot), side, a.sent)
    case Take(side) =>
      var f := Inbox(p, side)[0];
      var s' := if Awaiting(s) then Authenticate(ConfigOf(u, side), s, f, u.drawn)
                else if f.kind == FRAME_HDR_CLOSE then s.(stage := Ended) else s;
      Pop(WithSlot(p, side, s'), side)
    case SeeEnd(side) => WithSlot(p, side, s.(stage := Ended))
    case Exit(side) => WithSlot(p, side, s.(alive := false))
    case Traffic(side, packet) => Emit(p, side, Seal(ConfigOf(u, side), s, packet))
  }

  /** Both sides have just been connected; the elements may have served other connections. */
  ghost predicate Init(p: Pair) {
    exists s, c :: p == Pair(SetPeerInfo(s, false), SetPeerInfo(c, true), [], [], 0, 0)
  }

  ghost predicate Next(u: Setup, p: Pair, p': Pair) {
    exists m :: Enabled(p, m) && p' == Apply(u, p, m)
  }

  ghost predicate IsRun(u: Setup, run: seq<Pair>) {
    && run != [] && Init(run[0])
    && forall i | 0 <= i < |run| - 1 :: Next(u, run[i], run[i + 1])
  }

  /** The server lets the client in: it trusts its key, and the key is long enough to carry a
      session key. */
  predicate ServerAccepts(u: Setup) {
    u.client.own in u.server.trusted && RsaFits(u.server.rsa, u.client.own, AES_KEY_SIZE)
  }

  predicate ClientAccepts(u: Setup) {
    ServerAccepts(u) && u.server.own in u.client.trusted
  }

  // ---------------------------------------------------------------- the invariant

  predicate HasSession(u: Setup, s: Slot) {
    s.authenticated && s.encCtx.Some? && s.encCtx.value.value == u.drawn && s.decCtx == s.encCtx
  }

  predicate KnowsClient(u: Setup, s: Slot) {
    s.pubkey.Some? && s.pubkey.value.value == u.client.own && u.client.own in u.server.trusted
  }

  /** Where the server stands: how much it has sent and read at each stage. */
  predicate ServerInv(u: Setup, s: Slot, sent: nat, read: nat) {
    && !s.isClient
    && (!s.alive ==> s.stage.Ended?)
    && (if s.authenticated then
          && HasSession(u, s) && ServerAccepts(u)
          && (s.stage.Receiving? || s.stage.Ended?) && sent >= 3 && read >= 1
        else
          match s.stage
          case SendPub => sent == 0 && read == 0
          case AwaitPub => sent == 1 && read == 0
          case SendKey(k) => sent == 1 && read == 1 && k == u.drawn && KnowsClient(u, s)
          case SendIv(k) => sent == 2 && read == 1 && k == u.drawn && KnowsClient(u, s) && ServerAccepts(u)
          case Install(k) => sent == 3 && read == 1 && k == u.drawn && ServerAccepts(u)
          case Ended => sent == 1 && read == 1 && !ServerAccepts(u)
          case _ => false)
  }

  predicate ClientInv(u: Setup, s: Slot, sent: nat, read: nat) {
    && s.isClient
    && (!s.alive ==> s.stage.Ended?)
    && (if s.authenticated then
          && HasSession(u, s) && u.server.own in u.client.trusted
          && (s.stage.Receiving? || s.stage.Ended?) && sent >= 1 && read >= 3
        else
          match s.stage
          case SendPub => sent == 0 && read == 0
          case AwaitPub => sent == 1 && read == 0
          case AwaitKey => sent == 1 && read == 1 && u.server.own in u.client.trusted
          case AwaitIv(key) => sent == 1 && read == 2 && key == u.drawn.key && u.server.own in u.client.trusted
          case Install(k) => sent == 1 && read == 3 && k == u.drawn && u.server.own in u.client.trusted
          case Ended => sent == 1 && read == 1 && !ClientAccepts(u)
          case _ => false)
  }

  predicate IsPub(u: Setup, f: Frame, owner: RsaKey) {
    f == Frame(FRAME_HDR_AUTH, u.server.rsa.pem(owner))
  }

  predicate IsSecret(u: Setup, f: Frame, secret: seq<byte>) {
    && f.kind == FRAME_HDR_AUTH
    && |f.payload| == u.server.rsa.size(u.client.own) && f.payload != []
    && u.server.rsa.open(u.client.own, f.payload) == Some(secret)
  }

  /** An encrypted packet the other side can read. */
  predicate IsPacket(u: Setup, f: Frame) {
    && f.kind == FRAME_HDR_NETPACKET && f.payload != []
    && AesDecrypt(u.server.cipher, u.drawn, f.payload).Some?
  }

  predicate FromServer(u: Setup, f: Frame, i: nat) {
    Sendable(f) &&
    if i == 0 then IsPub(u, f, u.server.own)
    else if i == 1 then IsSecret(u, f, u.drawn.key)
    else if i == 2 then IsSecret(u, f, u.drawn.iv)
    else IsPacket(u, f)
  }

  predicate FromClient(u: Setup, f: Frame, i: nat) {
    Sendable(f) && if i == 0 then IsPub(u, f, u.client.own) else IsPacket(u, f)
  }

  predicate LogsInv(u: Setup, p: Pair) {
    && (forall i :: 0 <= i < |p.toClient| ==> FromServer(u, p.toClient[i], i))
    && (forall i :: 0 <= i < |p.toServer| ==> FromClient(u, p.toServer[i], i))
    && p.clientRead <= |p.toClient| && p.serverRead <= |p.toServer|
  }

  predicate Inv(u: Setup, p: Pair) {
    && ServerInv(u, p.server, |p.toClient|, p.serverRead)
    && ClientInv(u, p.client, |p.toServer|, p.clientRead)
    && LogsInv(u, p)
  }

  lemma AppendKeepsLogs(u: Setup, p: Pair, side: Side, f: Frame)
    requires LogsInv(u, p)
    requires if side.Server? then FromServer(u, f, |p.toClient|) else FromClient(u, f, |p.toServer|)
    ensures LogsInv(u, Emit(p, side, [f]))
  {
  }

  lemma SealedIsPacket(u: Setup, cfg: Config, s: Slot, packet: Packet)
    requires Honest(u) && cfg.cipher == u.server.cipher && 0 < |packet| < FRAME_PAYLOAD_MAXSIZE
    requires HasSession(u, s) && s.alive
    ensures var fs := Seal(cfg, s, packet);
            |fs| == 1 && Sendable(fs[0]) && IsPacket(u, fs[0])
  {
    AesRoundTrip(u.server.cipher, u.drawn, packet);
  }

  lemma SendsKeeps(u: Setup, p: Pair, side: Side, packet: Packet)
    requires Honest(u) && Inv(u, p) && Enabled(p, Traffic(side, packet))
    ensures Inv(u, Apply(u, p, Traffic(side, packet)))
  {
    hide IsPacket;
    var s, cfg := SlotOf(p, side), ConfigOf(u, side);
    if s.alive && s.authenticated {
      SealedIsPacket(u, cfg, s, packet);
      var f := Seal(cfg, s, packet)[0];
      assert Seal(cfg, s, packet) == [f];
      AppendKeepsLogs(u, p, side, f);
    } else {
      assert Emit(p, side, []) == p;
    }
  }

  lemma SecretSent(u: Setup, s: Slot, secret: seq<byte>, seed: nat)
    requires Honest(u) && KnowsClient(u, s) && RsaFits(u.server.rsa, u.client.own, |secret|)
    ensures var x := EncryptFor(u.server, s, secret, seed);
            x.Some? && IsSecret(u, Frame(FRAME_HDR_AUTH, x.value), secret) && |x.value| <= FRAME_PAYLOAD_MAXSIZE
  {
    RsaEncryptIffFits(u.server.rsa, {u.server.own, u.client.own}, u.client.own, secret, seed);
    assert SealsAndOpens(u.server.rsa, u.client.own, secret, seed);
  }

  lemma ServerActsKeeps(u: Setup, p: Pair, seed: nat)
    requires Honest(u) && Inv(u, p) && Enabled(p, Proceed(Server, seed))
    ensures Inv(u, Apply(u, p, Proceed(Server, seed)))
  {
    var s := p.server;
    var p' := Apply(u, p, Proceed(Server, seed));
    var a := Act(u.server, s, seed);
    match s.stage
    case SendPub =>
      AppendKeepsLogs(u, p, Server, a.sent[0]);
    case SendKey(k) =>
      RsaEncryptIffFits(u.server.rsa, {u.server.own, u.client.own}, u.client.own, k.key, seed);
      if ServerAccepts(u) {
        SecretSent(u, s, k.key, seed);
        AppendKeepsLogs(u, p, Server, a.sent[0]);
      } else {
        assert p'.toClient == p.toClient;
      }
    case SendIv(k) =>
      SecretSent(u, s, k.iv, seed);
      AppendKeepsLogs(u, p, Server, a.sent[0]);
    case Install(k) =>
      assert p'.toClient == p.toClient;
  }

  lemma ClientActsKeeps(u: Setup, p: Pair, seed: nat)
    requires Honest(u) && Inv(u, p) && Enabled(p, Proceed(Client, seed))
    ensures Inv(u, Apply(u, p, Proceed(Client, seed)))
  {
    var p' := Apply(u, p, Proceed(Client, seed));
    var a := Act(u.client, p.client, seed);
    if p.client.stage.SendPub? {
      AppendKeepsLogs(u, p, Client, a.sent[0]);
    } else {
      assert p'.toServer == p.toServer;
    }
  }

  lemma TakesKeeps(u: Setup, p: Pair, side: Side)
    requires Honest(u) && Inv(u, p) && Enabled(p, Take(side))
    ensures Inv(u, Apply(u, p, Take(side)))
  {
    var f := Inbox(p, side)[0];
    if side.Server? {
      assert f == p.toServer[p.serverRead] && FromClient(u, f, p.serverRead);
    } else {
      assert f == p.toClient[p.clientRead] && FromServer(u, f, p.clientRead);
    }
  }

  lemma StepInv(u: Setup, p: Pair, m: Move)
    requires Honest(u) && Inv(u, p) && Enabled(p, m)
    ensures Inv(u, Apply(u, p, m))
  {
    match m
    case Proceed(side, seed) =>
      if side.Server? { ServerActsKeeps(u, p, seed); } else { ClientActsKeeps(u, p, seed); }
    case Take(side) => TakesKeeps(u, p, side);
    case Traffic(side, packet) => SendsKeeps(u, p, side, packet);
    case _ => EndsKeeps(u, p, m);
  }

  lemma EndsKeeps(u: Setup, p: Pair, m: Move)
    requires Inv(u, p) && Enabled(p, m) && (m.SeeEnd? || m.Exit?)
    ensures Inv(u, Apply(u, p, m))
  {
    hide LogsInv;
    LogsKeep(u, p, Apply(u, p, m));
  }

  lemma LogsKeep(u: Setup, p: Pair, p': Pair)
    requires LogsInv(u, p) && p'.toClient == p.toClient && p'.toServer == p.toServer
    requires p'.clientRead == p.clientRead && p'.serverRead == p.serverRead
    ensures LogsInv(u, p')
  {
  }

  lemma {:induction false} RunInv(u: Setup, run: seq<Pair>, i: nat)
    requires Honest(u) && IsRun(u, run) && i < |run|
    ensures Inv(u, run[i])
  {
    if i > 0 {
      hide Inv;
      hide Enabled;
      hide Apply;
      RunInv(u, run, i - 1);
      assert Next(u, run[i - 1], run[i - 1 + 1]);
      var m :| Enabled(run[i - 1], m) && run[i] == Apply(u, run[i - 1], m);
      StepInv(u, run[i - 1], m);
    }
  }

  // ---------------------------------------------------------------- main results

  /** Agreement: whoever is authenticated, at any moment of any run, encrypts and decrypts with
      the key and IV the server drew for this connection. */
  lemma Agreement(u: Setup, run: seq<Pair>, i: nat, side: Side)
    requires Honest(u) && IsRun(u, run) && i < |run| && SlotOf(run[i], side).authenticated
    ensures var s := SlotOf(run[i], side);
      && s.encCtx.Some? && s.encCtx.value.value == u.drawn
      && s.decCtx.Some? && s.decCtx.value.value == u.drawn
  {
    RunInv(u, run, i);
  }

  /** The moves of authenticate_peer and of the thread's exit, as opposed to traffic. */
  predicate IsHandshakeMove(p: Pair, m: Move) {
    m.Proceed? || m.Exit? || ((m.Take? || m.SeeEnd?) && Awaiting(SlotOf(p, m.side)))
  }

  /** No handshake move is left. */
  ghost predicate Finished(p: Pair) {
    forall m :: Enabled(p, m) ==> !IsHandshakeMove(p, m)
  }

  /** Every handshake move brings the handshake closer to its end and no move sets it back. */
  lemma HandshakeAdvances(u: Setup, p: Pair, m: Move)
    requires Enabled(p, m)
    ensures var p' := Apply(u, p, m);
      && StagesLeft(p'.server) + StagesLeft(p'.client) <= StagesLeft(p.server) + StagesLeft(p.client)
      && (IsHandshakeMove(p, m) ==>
            StagesLeft(p'.server) + StagesLeft(p'.client) < StagesLeft(p.server) + StagesLeft(p.client))
  {
    hide Act;
    hide Authenticate;
    hide Seal;
    hide StagesLeft;
    var s := SlotOf(p, m.side);
    EndingAdvances(s);
    match m
    case Proceed(side, seed) => ActAdvances(ConfigOf(u, side), s, seed);
    case Take(side) =>
      if Awaiting(s) { AuthenticateAdvances(ConfigOf(u, side), s, Inbox(p, side)[0], u.drawn); }
    case _ =>
  }

  lemma EndingAdvances(s: Slot)
    ensures Listening(s) ==> StagesLeft(s.(stage := Ended)) < StagesLeft(s)
    ensures s.alive && s.stage.Ended? ==> StagesLeft(s.(alive := false)) < StagesLeft(s)
  {
  }

  /** A run together with the moves that make it. */
  ghost predicate IsTrace(u: Setup, run: seq<Pair>, moves: seq<Move>) {
    && |run| == |moves| + 1 && Init(run[0])
    && forall i | 0 <= i < |moves| :: Enabled(run[i], moves[i]) && run[i + 1] == Apply(u, run[i], moves[i])
  }

  function CountHandshakeMoves(run: seq<Pair>, moves: seq<Move>): nat
    requires |run| == |moves| + 1
  {
    if moves == [] then 0
    else
      var n := |moves| - 1;
      CountHandshakeMoves(run[..n + 1], moves[..n]) + if IsHandshakeMove(run[n], moves[n]) then 1 else 0
  }

  /** However the traffic interleaves, the handshake is over after at most fourteen moves. */
  lemma {:induction false} HandshakeTerminates(u: Setup, run: seq<Pair>, moves: seq<Move>)
    requires IsTrace(u, run, moves)
    ensures var last := run[|moves|];
            CountHandshakeMoves(run, moves) + StagesLeft(last.server) + StagesLeft(last.client) <= 14
  {
    hide Enabled;
    hide Apply;
    hide IsHandshakeMove;
    if moves != [] {
      var n := |moves| - 1;
      HandshakeTerminates(u, run[..n + 1], moves[..n]);
      HandshakeAdvances(u, run[n], moves[n]);
    }
  }

  /** Every run, wherever it stands, can be carried on to the end of the handshake. */
  lemma {:induction false} EveryRunCanFinish(u: Setup, run: seq<Pair>) returns (longer: seq<Pair>)
    requires IsRun(u, run)
    ensures IsRun(u, longer) && run <= longer && Finished(longer[|longer| - 1])
    decreases StagesLeft(run[|run| - 1].server) + StagesLeft(run[|run| - 1].client)
  {
    var p := run[|run| - 1];
    if Finished(p) {
      longer := run;
    } else {
      var m :| Enabled(p, m) && IsHandshakeMove(p, m);
      HandshakeAdvances(u, p, m);
      var next := run + [Apply(u, p, m)];
      assert Next(u, p, next[|run|]);
      forall i | 0 <= i < |next| - 1 ensures Next(u, next[i], next[i + 1]) {
        assert i < |run| - 1 ==> Next(u, run[i], run[i + 1]);
      }
      longer := EveryRunCanFinish(u, next);
    }
  }

  /** Traffic never disables a handshake move. */
  lemma TrafficDisablesNothing(u: Setup, p: Pair, m: Move, traffic: Move)
    requires Enabled(p, m) && IsHandshakeMove(p, m)
    requires Enabled(p, traffic) && !IsHandshakeMove(p, traffic)
    ensures Enabled(Apply(u, p, traffic), m) && IsHandshakeMove(Apply(u, p, traffic), m)
  {
    hide Act;
    hide Authenticate;
    hide AesEncrypt;
  }

  /** Progress and the exact outcome: whenever no handshake move is left, both threads are past
      authenticate_peer; the server is authenticated exactly when it accepts the client, and
      the client exactly when, in addition, it trusts the server. */
  lemma HandshakeOutcome(u: Setup, run: seq<Pair>, i: nat)
    requires Honest(u) && IsRun(u, run) && i < |run|
    requires Finished(run[i])
    ensures var p := run[i];
      && (p.server.stage.Receiving? || p.server.stage.Ended?)
      && (p.client.stage.Receiving? || p.client.stage.Ended?)
      && (p.server.authenticated <==> ServerAccepts(u))
      && (p.client.authenticated <==> ClientAccepts(u))
  {
    RunInv(u, run, i);
    var p := run[i];
    forall side: Side
      ensures !CanAct(SlotOf(p, side)) && !Enabled(p, Exit(side))
      ensures Awaiting(SlotOf(p, side)) ==> !Enabled(p, Take(side)) && !Enabled(p, SeeEnd(side))
    {
      assert !Enabled(p, Proceed(side, 0));
    }
    InboxesAreSendable(u, p);
    assert SlotOf(p, Server) == p.server && SlotOf(p, Client) == p.client;
    assert !Enabled(p, Take(Server)) || !Awaiting(p.server);
    assert !Enabled(p, Take(Client)) || !Awaiting(p.client);
    assert !Enabled(p, SeeEnd(Client)) || !Awaiting(p.client);
  }

  lemma InboxesAreSendable(u: Setup, p: Pair)
    requires LogsInv(u, p)
    ensures forall side: Side :: Inbox(p, side) != [] ==> Sendable(Inbox(p, side)[0])
  {
    forall side: Side | Inbox(p, side) != [] ensures Sendable(Inbox(p, side)[0]) {
      if side.Server? {
        assert FromClient(u, p.toServer[p.serverRead], p.serverRead);
      } else {
        assert FromServer(u, p.toClient[p.clientRead], p.clientRead);
      }
    }
  }

  predicate BothUp(p: Pair) {
    p.server.alive && !p.server.stage.Ended? && p.client.alive && !p.client.stage.Ended?
  }

  lemma StepStaysUp(u: Setup, p: Pair, m: Move)
    requires Honest(u) && ClientAccepts(u) && Inv(u, p) && BothUp(p) && Enabled(p, m)
    ensures BothUp(Apply(u, p, m))
  {
    StepInv(u, p, m);
    if m.Take? {
      if m.side.Server? {
        assert FromClient(u, p.toServer[p.serverRead], p.serverRead);
      } else {
        assert FromServer(u, p.toClient[p.clientRead], p.clientRead);
      }
    }
  }

  lemma AcceptedSessions(u: Setup, run: seq<Pair>, i: nat)
    requires Honest(u) && ClientAccepts(u) && IsRun(u, run) && i < |run| && Finished(run[i])
    ensures forall side :: HasSession(u, SlotOf(run[i], side))
    ensures forall side :: var s := SlotOf(run[i], side); s.stage.Receiving? || s.stage.Ended?
  {
    HandshakeOutcome(u, run, i);
    RunInv(u, run, i);
  }

  lemma {:induction false} StaysUp(u: Setup, run: seq<Pair>, i: nat)
    requires Honest(u) && ClientAccepts(u) && IsRun(u, run) && i < |run|
    ensures BothUp(run[i])
  {
    if i > 0 {
      hide Honest;
      hide ClientAccepts;
      hide Inv;
      hide Enabled;
      hide Apply;
      StaysUp(u, run, i - 1);
      hide BothUp;
      RunInv(u, run, i - 1);
      assert Next(u, run[i - 1], run[i - 1 + 1]);
      var m :| Enabled(run[i - 1], m) && run[i] == Apply(u, run[i - 1], m);
      StepStaysUp(u, run[i - 1], m);
    }
  }

  /** When both sides accept each other the connection stays up, and once no handshake move is
      left both receiving loops run with the session key the server drew. */
  lemma AcceptedStaysUp(u: Setup, run: seq<Pair>, i: nat)
    requires Honest(u) && ClientAccepts(u) && IsRun(u, run) && i < |run|
    ensures BothUp(run[i])
    ensures Finished(run[i]) ==>
      forall side :: var s := SlotOf(run[i], side); s.stage.Receiving? && HasSession(u, s)
  {
    hide Finished;
    hide HasSession;
    hide IsRun;
    hide Honest;
    StaysUp(u, run, i);
    if Finished(run[i]) {
      AcceptedSessions(u, run, i);
    }
  }

  /** Frame order: the server sends three AUTH frames and then only NETPACKET frames, the
      client one AUTH frame and then only NETPACKET frames. */
  lemma FrameOrder(u: Setup, run: seq<Pair>, i: nat)
    requires Honest(u) && IsRun(u, run) && i < |run|
    ensures var p := run[i];
      && (forall k :: 0 <= k < |p.toClient| ==>
            p.toClient[k].kind == if k < 3 then FRAME_HDR_AUTH else FRAME_HDR_NETPACKET)
      && (forall k :: 0 <= k < |p.toServer| ==>
            p.toServer[k].kind == if k < 1 then FRAME_HDR_AUTH else FRAME_HDR_NETPACKET)
  {
    RunInv(u, run, i);
    forall k | 0 <= k < |run[i].toClient|
      ensures run[i].toClient[k].kind == if k < 3 then FRAME_HDR_AUTH else FRAME_HDR_NETPACKET
    {
      assert FromServer(u, run[i].toClient[k], k);
    }
    forall k | 0 <= k < |run[i].toServer|
      ensures run[i].toServer[k].kind == if k < 1 then FRAME_HDR_AUTH else FRAME_HDR_NETPACKET
    {
      assert FromClient(u, run[i].toServer[k], k);
    }
  }

  /** What another thread's attempt to send a packet does at any time: nothing while its side is not
      authenticated or gone, and otherwise it appends one NETPACKET frame, which opens to that packet
      under the key and IV the server drew. */
  lemma TrafficEffect(u: Setup, run: seq<Pair>, i: nat, side: Side, packet: Packet)
    requires Honest(u) && IsRun(u, run) && i < |run| && 0 < |packet| <= 2047
    ensures Enabled(run[i], Traffic(side, packet))
    ensures var p, p' := run[i], Apply(u, run[i], Traffic(side, packet));
            var s := SlotOf(p, side);
            var log := if side.Server? then p.toClient else p.toServer;
            var log' := if side.Server? then p'.toClient else p'.toServer;
      && p'.server == p.server && p'.client == p.client
      && p'.serverRead == p.serverRead && p'.clientRead == p.clientRead
      && (if side.Server? then p'.toServer == p.toServer else p'.toClient == p.toClient)
      && (if s.alive && s.authenticated
          then |log'| == |log| + 1 && log'[..|log|] == log && log'[|log|].kind == 8
               && AesDecrypt(u.server.cipher, u.drawn, log'[|log|].payload) == Some(packet)
          else log' == log)
  {
    RunInv(u, run, i);
    AesRoundTrip(u.server.cipher, u.drawn, packet);
    hide AesDecrypt;
    hide AesEncrypt;
    hide LogsInv;
    hide SoundCipher;
    hide SoundRsa;
  }

  /** The receiving loop never meets an unexpected AUTH frame, is always authenticated when a
      packet arrives, and can decrypt every packet. */
  lemma LoopOnlySeesPackets(u: Setup, run: seq<Pair>, i: nat, side: Side)
    requires Honest(u) && IsRun(u, run) && i < |run|
    requires SlotOf(run[i], side).stage.Receiving? && Inbox(run[i], side) != []
    ensures var s, f := SlotOf(run[i], side), Inbox(run[i], side)[0];
      && s.authenticated
      && f.kind == FRAME_HDR_NETPACKET && f.payload != []
      && Opened(ConfigOf(u, side), s, f.payload).Some?
  {
    RunInv(u, run, i);
    var p := run[i];
    if side.Server? {
      assert FromClient(u, p.toServer[p.serverRead], p.serverRead);
    } else {
      assert FromServer(u, p.toClient[p.clientRead], p.clientRead);
    }
  }

  // ---------------------------------------------------------------- the assumptions can be met

  /** Two daemons that trust each other. */
  const TRUSTING_PAIR :=
    var host := Host(true, false);
    Setup(Config(host, IDENTITY_CIPHER, PLAIN_RSA, 0, {1}),
          Config(host, IDENTITY_CIPHER, PLAIN_RSA, 1, {0}),
          SessionKey(seq(AES_KEY_SIZE, _ => 0), seq(AES_IV_SIZE, _ => 0)))

  /** The two are honest and accept each other, and some run of theirs ends with both of them
      authenticated. */
  lemma HonestExists() returns (run: seq<Pair>)
    ensures Honest(TRUSTING_PAIR) && ClientAccepts(TRUSTING_PAIR) && IsRun(TRUSTING_PAIR, run)
    ensures var last := run[|run| - 1];
            Finished(last) && last.server.authenticated && last.client.authenticated
  {
    var u := TRUSTING_PAIR;
    SoundCipherExists();
    SoundRsaExists({0, 1});
    var p := Pair(SetPeerInfo(INITIAL_SLOT, false), SetPeerInfo(INITIAL_SLOT, true), [], [], 0, 0);
    assert Init(p);
    run := EveryRunCanFinish(u, [p]);
    HandshakeOutcome(u, run, |run| - 1);
  }
}
