/** One daemon as a value: its table of peers, its list of local routes, and what each event
    does to them (src/peer.c and src/peer_net.c).

    Each event is one atomic step: a tun/tap read, a received frame, one send of the
    handshake, the end of a receiving thread. What a C variable holds before it is written
    (the `route` and packet buffers of process_netpacket) comes in as an arbitrary value. */
module Router {
  import opened Protocol
  import opened Framing
  import opened Cipher
  import opened Routes
  import opened PacketHeader
  import opened Wrappers

  type Packet = seq<byte>

  datatype Config = Config(host: Host, cipher: BlockCipher, rsa: Rsa, own: RsaKey, trusted: set<RsaKey>)

  /** A value together with the connection in which it was stored. */
  datatype Stamped<T> = Stamped(value: T, epoch: nat)

  /** Where the receiving thread of a peer stands: the steps of authenticate_peer, then the
      loop of peer_receive, then its exit. */
  datatype Stage =
    | SendPub
    | AwaitPub
    | SendKey(session: SessionKey)
    | SendIv(session: SessionKey)
    | AwaitKey
    | AwaitIv(key: seq<byte>)
    | Install(session: SessionKey)
    | Receiving
    | Ended

  /** An element of the peer list. `epoch` counts the connections the element has served and
      `frees` lists the contexts that set_peer_info has freed; like the stamps they are history: no
      step reads them to decide anything. */
  datatype Slot = Slot(
    alive: bool,
    authenticated: bool,
    isClient: bool,
    pubkey: Option<Stamped<RsaKey>>,
    encCtx: Option<Stamped<SessionKey>>,
    decCtx: Option<Stamped<SessionKey>>,
    routes: seq<Route>,
    stage: Stage,
    epoch: nat,
    frees: seq<Context>)

  /** A cipher context, by its direction and the connection in which it was made. */
  datatype Context = Encrypting(epoch: nat) | Decrypting(epoch: nat)

  datatype Daemon = Daemon(slots: seq<Slot>, local: seq<Route>)

  /** What a step hands to the outside: a packet to the tun/tap device or a frame to a peer. */
  datatype Out = ToTun(packet: Packet) | ToPeer(slot: nat, frame: Frame)

  datatype Step = Step(daemon: Daemon, outs: seq<Out>)

  /** Uninitialised memory. */
  datatype Junk = Junk(route: Route, buf: Buffer)

  const ZEROED := Junk(RawRoute(false, false, seq(ADDR_SIZE, _ => 0)), seq(PARSE_WINDOW, _ => 0))

  const INITIAL_DAEMON := Daemon([], [])

  // ---------------------------------------------------------------- the peer list

  /** initialize_peer */
  const INITIAL_SLOT := Slot(false, false, false, None, None, None, [], Ended, 0, [])

  /** The contexts that set_peer_info frees: those whose pointers are not null. */
  function FreedNow(s: Slot): seq<Context> {
    (if s.encCtx.Some? then [Encrypting(s.encCtx.value.epoch)] else [])
    + (if s.decCtx.Some? then [Decrypting(s.decCtx.value.epoch)] else [])
  }

  /** set_peer_info. It frees both contexts, clears `enc_ctx` twice and `dec_ctx` never. */
  function SetPeerInfo(s: Slot, isClient: bool): Slot {
    Slot(true, false, isClient, None, None, s.decCtx, [], SendPub, s.epoch + 1, s.frees + FreedNow(s))
  }

  function FirstDead(slots: seq<Slot>): (i: nat)
    ensures i <= |slots| && (i < |slots| ==> !slots[i].alive)
    ensures forall j :: 0 <= j < i ==> slots[j].alive
  {
    if slots == [] || !slots[0].alive then 0 else 1 + FirstDead(slots[1..])
  }

  /** add_peer: recycle the first dead element, or append one. */
  function AddPeer(d: Daemon, isClient: bool): Daemon {
    var i := FirstDead(d.slots);
    if i < |d.slots| then d.(slots := d.slots[i := SetPeerInfo(d.slots[i], isClient)])
    else d.(slots := d.slots + [SetPeerInfo(INITIAL_SLOT, isClient)])
  }

  // ---------------------------------------------------------------- route ownership

  predicate Owns(s: Slot, r: Route) {
    s.alive && InRoutes(r, s.routes)
  }

  /** get_peer_route, as the scan it is: the first alive peer whose list has the route. */
  function OwnerFrom(slots: seq<Slot>, r: Route, i: nat): (o: Option<nat>)
    ensures o.Some? ==> i <= o.value < |slots| && Owns(slots[o.value], r)
    ensures o.Some? ==> forall j :: i <= j < o.value ==> !Owns(slots[j], r)
    ensures o.None? ==> forall j :: i <= j < |slots| ==> !Owns(slots[j], r)
    decreases |slots| - i
  {
    if i >= |slots| then None
    else if Owns(slots[i], r) then Some(i)
    else OwnerFrom(slots, r, i + 1)
  }

  function Owner(d: Daemon, r: Route): Option<nat> {
    OwnerFrom(d.slots, r, 0)
  }

  /** The same scan for a key. */
  function OwnerOf(slots: seq<Slot>, key: Key, i: nat): (o: Option<nat>)
    ensures o.Some? ==> i <= o.value < |slots| && slots[o.value].alive && key in Keys(slots[o.value].routes)
    decreases |slots| - i
  {
    if i >= |slots| then None
    else if slots[i].alive && key in Keys(slots[i].routes) then Some(i)
    else OwnerOf(slots, key, i + 1)
  }

  /** The owner of a route depends on its key alone. */
  lemma {:induction false} OwnerByKey(slots: seq<Slot>, r: Route, i: nat)
    ensures OwnerFrom(slots, r, i) == OwnerOf(slots, KeyOf(r), i)
    decreases |slots| - i
  {
    if i < |slots| {
      InRoutesIsInKeys(r, slots[i].routes);
      OwnerByKey(slots, r, i + 1);
    }
  }

  /** What routing a packet leaves as it was: everything but the routes of authenticated peers. */
  predicate OnlyRoutesDiffer(d: Daemon, d': Daemon) {
    && d'.local == d.local && |d'.slots| == |d.slots|
    && (forall i :: 0 <= i < |d.slots| ==> d'.slots[i] == d.slots[i].(routes := d'.slots[i].routes))
    && (forall i :: 0 <= i < |d.slots| ==> d'.slots[i].routes == d.slots[i].routes || d.slots[i].authenticated)
  }

  // ---------------------------------------------------------------- sending

  /** send_data_to_peer with encryption: at most one frame. */
  function Seal(cfg: Config, s: Slot, packet: Packet): seq<Frame> {
    if s.alive && s.authenticated && s.encCtx.Some?
    then [Frame(FRAME_HDR_NETPACKET, AesEncrypt(cfg.cipher, s.encCtx.value.value, packet))] else []
  }

  function SendTo(cfg: Config, slots: seq<Slot>, i: nat, packet: Packet): seq<Out>
    requires i < |slots|
  {
    var fs := Seal(cfg, slots[i], packet);
    if fs == [] then [] else [ToPeer(i, fs[0])]
  }

  /** broadcast_data_to_peers, from element `i` on. */
  function BroadcastFrom(cfg: Config, slots: seq<Slot>, packet: Packet, exclude: Option<nat>, i: nat): seq<Out>
    decreases |slots| - i
  {
    if i >= |slots| then []
    else (if exclude == Some(i) then [] else SendTo(cfg, slots, i, packet))
         + BroadcastFrom(cfg, slots, packet, exclude, i + 1)
  }

  function Broadcast(cfg: Config, d: Daemon, packet: Packet, exclude: Option<nat>): seq<Out> {
    BroadcastFrom(cfg, d.slots, packet, exclude, 0)
  }

  /** What the outputs hand to the tun/tap device. */
  function Written(outs: seq<Out>): seq<Packet> {
    if outs == [] then [] else WrittenBy(outs[0]) + Written(outs[1..])
  }

  function WrittenBy(o: Out): seq<Packet> {
    if o.ToTun? then [o.packet] else []
  }

  /** What they hand to peer `p`. */
  function FramesFor(outs: seq<Out>, p: nat): seq<Frame> {
    if outs == [] then [] else FrameFor(outs[0], p) + FramesFor(outs[1..], p)
  }

  function FrameFor(o: Out, p: nat): seq<Frame> {
    if o.ToPeer? && o.slot == p then [o.frame] else []
  }

  // ---------------------------------------------------------------- packets

  /** One iteration of _broadcast_tuntap_device: learn the source as local, then send to the
      owner of the destination or to everyone. */
  function TunRead(cfg: Config, d: Daemon, packet: Packet, junk: Junk): Step {
    var buf := InBuffer(packet, junk.buf);
    var src := ParseAddr(cfg.host, buf, junk.route, true);
    var d' := if InRoutes(src, d.local) then d else d.(local := d.local + [src]);
    var dst := ParseAddr(cfg.host, buf, src, false);
    var owner := Owner(d', dst);
    Step(d', if owner.Some? then SendTo(cfg, d'.slots, owner.value, packet)
             else Broadcast(cfg, d', packet, None))
  }

  /** The loop of _broadcast_tuntap_device on the packets it reads: each iteration leaves its destination record and its
      buffer to the next. */
  function TunLoop(cfg: Config, d: Daemon, packets: seq<Packet>, junk: Junk): Step
    decreases |packets|
  {
    if packets == [] then Step(d, [])
    else
      var st := TunRead(cfg, d, packets[0], junk);
      var rest := TunLoop(cfg, st.daemon, packets[1..], JunkAfter(cfg, packets[0], junk));
      Step(rest.daemon, st.outs + rest.outs)
  }

  function JunkAfter(cfg: Config, packet: Packet, junk: Junk): Junk {
    var buf := InBuffer(packet, junk.buf);
    Junk(ParseAddr(cfg.host, buf, ParseAddr(cfg.host, buf, junk.route, true), false), buf)
  }

  /** process_netpacket, after decryption. */
  function RoutePacket(cfg: Config, d: Daemon, i: nat, packet: Packet, junk: Junk): Step
    requires i < |d.slots|
  {
    var buf := InBuffer(packet, junk.buf);
    var dst := ParseAddr(cfg.host, buf, junk.route, false);
    if InRoutes(dst, d.local) then
      var src := ParseAddr(cfg.host, buf, dst, true);
      var d' := if Owner(d, src).Some? then d
                else d.(slots := d.slots[i := d.slots[i].(routes := d.slots[i].routes + [src])]);
      Step(d', [ToTun(packet)])
    else
      var owner := Owner(d, dst);
      if owner.Some? then Step(d, SendTo(cfg, d.slots, owner.value, packet))
      else Step(d, [ToTun(packet)] + Broadcast(cfg, d, packet, Some(i)))
  }

  /** The packet inside an encrypted payload, if it decrypts. */
  function Opened(cfg: Config, s: Slot, payload: seq<byte>): Option<Packet> {
    if s.decCtx.Some? then AesDecrypt(cfg.cipher, s.decCtx.value.value, payload) else None
  }

  function ProcessNetpacket(cfg: Config, d: Daemon, i: nat, payload: seq<byte>, junk: Junk): Step
    requires i < |d.slots|
  {
    match Opened(cfg, d.slots[i], payload)
    case None => Step(d, [])
    case Some(packet) => RoutePacket(cfg, d, i, packet, junk)
  }

  /** process_frame: AUTH, RESERVED and unknown frames are ignored, CLOSE ends the loop. */
  function ProcessFrame(cfg: Config, d: Daemon, i: nat, f: Frame, junk: Junk): Step
    requires i < |d.slots|
  {
    if f.kind == FRAME_HDR_CLOSE then
      Step(d.(slots := d.slots[i := d.slots[i].(stage := Ended)]), [])
    else if f.kind == FRAME_HDR_NETPACKET && d.slots[i].authenticated && f.payload != [] then
      ProcessNetpacket(cfg, d, i, f.payload, junk)
    else
      Step(d, [])
  }

  // ---------------------------------------------------------------- the handshake

  datatype Acted = Acted(slot: Slot, sent: seq<Frame>)

  predicate CanAct(s: Slot) {
    s.alive && (s.stage.SendPub? || s.stage.SendKey? || s.stage.SendIv? || s.stage.Install?)
  }

  /** The steps of authenticate_peer that wait for nothing. */
  function Act(cfg: Config, s: Slot, seed: nat): Acted
    requires CanAct(s)
  {
    match s.stage
    case SendPub =>
      Acted(s.(stage := AwaitPub), [Frame(FRAME_HDR_AUTH, cfg.rsa.pem(cfg.own))])
    case SendKey(k) =>
      (match EncryptFor(cfg, s, k.key, seed)
       case None => Acted(s.(stage := Ended), [])
       case Some(x) => Acted(s.(stage := SendIv(k)), [Frame(FRAME_HDR_AUTH, x)]))
    case SendIv(k) =>
      (match EncryptFor(cfg, s, k.iv, seed)
       case None => Acted(s.(stage := Ended), [])
       case Some(x) => Acted(s.(stage := Install(k)), [Frame(FRAME_HDR_AUTH, x)]))
    case Install(k) =>
      Acted(s.(encCtx := Some(Stamped(k, s.epoch)), decCtx := Some(Stamped(k, s.epoch)),
               authenticated := true, stage := Receiving), [])
  }

  function EncryptFor(cfg: Config, s: Slot, m: seq<byte>, seed: nat): Option<seq<byte>> {
    if s.pubkey.None? then None else RsaEncrypt(cfg.rsa, s.pubkey.value.value, m, seed)
  }

  predicate Awaiting(s: Slot) {
    s.alive && (s.stage.AwaitPub? || s.stage.AwaitKey? || s.stage.AwaitIv?)
  }

  /** The steps of authenticate_peer that wait for a frame. A server draws the session key
      `drawn` once it trusts the client. */
  function Authenticate(cfg: Config, s: Slot, f: Frame, drawn: SessionKey): Slot
    requires Awaiting(s)
  {
    if f.kind != FRAME_HDR_AUTH || f.payload == [] then s.(stage := Ended)
    else
      match s.stage
      case AwaitPub =>
        (match cfg.rsa.load(f.payload)
         case None => s.(pubkey := None, stage := Ended)
         case Some(k) =>
           var s' := s.(pubkey := Some(Stamped(k, s.epoch)));
           if k !in cfg.trusted then s'.(stage := Ended)
           else s'.(stage := if s.isClient then AwaitKey else SendKey(drawn)))
      case AwaitKey =>
        (match Received(cfg, f.payload, AES_KEY_SIZE)
         case None => s.(stage := Ended)
         case Some(key) => s.(stage := AwaitIv(key)))
      case AwaitIv(key) =>
        (match Received(cfg, f.payload, AES_IV_SIZE)
         case None => s.(stage := Ended)
         case Some(iv) => s.(stage := Install(SessionKey(key, iv))))
  }

  /** A secret of the right length, encrypted for this daemon. */
  function Received(cfg: Config, payload: seq<byte>, size: nat): Option<seq<byte>> {
    match RsaDecrypt(cfg.rsa, cfg.own, payload)
    case None => None
    case Some(m) => if |m| == size then Some(m) else None
  }

  /** How far a receiving thread is from its end. */
  function StagesLeft(s: Slot): nat {
    match s.stage
    case SendPub => 7
    case AwaitPub => 6
    case SendKey(_) => 5
    case AwaitKey => 5
    case SendIv(_) => 4
    case AwaitIv(_) => 4
    case Install(_) => 3
    case Receiving => 2
    case Ended => if s.alive then 1 else 0
  }

  lemma ActAdvances(cfg: Config, s: Slot, seed: nat)
    requires CanAct(s)
    ensures StagesLeft(Act(cfg, s, seed).slot) < StagesLeft(s)
  {
    hide RsaEncrypt;
  }

  lemma AuthenticateAdvances(cfg: Config, s: Slot, f: Frame, drawn: SessionKey)
    requires Awaiting(s)
    ensures StagesLeft(Authenticate(cfg, s, f, drawn)) < StagesLeft(s)
  {
    hide Received;
  }

  /** What authenticate_peer leaves behind: the element, the frames it has sent and how many it
      has taken. */
  datatype AuthResult = AuthResult(slot: Slot, sent: seq<Frame>, used: nat)

  /** authenticate_peer run to its end on the frames that arrive, after which the stream ends.
      `pads` are the random bytes of the two encryptions. */
  function RunAuth(cfg: Config, s: Slot, incoming: seq<Frame>, drawn: SessionKey, pads: (nat, nat)): AuthResult
    decreases StagesLeft(s)
  {
    if CanAct(s) then
      var seed := if s.stage.SendIv? then pads.1 else pads.0;
      var a := Act(cfg, s, seed);
      ActAdvances(cfg, s, seed);
      After(a.sent, 0, RunAuth(cfg, a.slot, incoming, drawn, pads))
    else if !Awaiting(s) then
      AuthResult(s, [], 0)
    else if incoming == [] then
      AuthResult(s.(stage := Ended), [], 0)
    else
      AuthenticateAdvances(cfg, s, incoming[0], drawn);
      After([], 1, RunAuth(cfg, Authenticate(cfg, s, incoming[0], drawn), incoming[1..], drawn, pads))
  }

  function After(sent: seq<Frame>, used: nat, r: AuthResult): AuthResult {
    AuthResult(r.slot, sent + r.sent, used + r.used)
  }

  /** One step of authenticate_peer, in the middle of its run. */
  lemma RunAuthStep(cfg: Config, s: Slot, incoming: seq<Frame>, drawn: SessionKey, pads: (nat, nat),
                    sent: seq<Frame>, used: nat)
    requires used <= |incoming|
    ensures var here := After(sent, used, RunAuth(cfg, s, incoming[used..], drawn, pads));
      && (CanAct(s) ==>
            var a := Act(cfg, s, if s.stage.SendIv? then pads.1 else pads.0);
            here == After(sent + a.sent, used, RunAuth(cfg, a.slot, incoming[used..], drawn, pads)))
      && (Awaiting(s) && used < |incoming| ==>
            var s' := Authenticate(cfg, s, incoming[used], drawn);
            here == After(sent, used + 1, RunAuth(cfg, s', incoming[used + 1..], drawn, pads)))
      && (Awaiting(s) && used == |incoming| ==> here == AuthResult(s.(stage := Ended), sent, used))
      && (!CanAct(s) && !Awaiting(s) ==> here == AuthResult(s, sent, used))
  {
    hide Act;
    hide Authenticate;
    if CanAct(s) {
      var a := Act(cfg, s, if s.stage.SendIv? then pads.1 else pads.0);
      Regroup(sent, a.sent, RunAuth(cfg, a.slot, incoming[used..], drawn, pads).sent);
    } else if Awaiting(s) && used < |incoming| {
      assert incoming[used..][1..] == incoming[used + 1..];
      var r := RunAuth(cfg, Authenticate(cfg, s, incoming[used], drawn), incoming[used + 1..], drawn, pads);
      assert sent + ([] + r.sent) == sent + r.sent;
    } else {
      assert sent + [] == sent;
    }
  }

  // ---------------------------------------------------------------- events

  datatype Event =
    | Accept(isClient: bool)
    | Acts(i: nat, seed: nat)
    | Deliver(i: nat, frame: Frame, drawn: SessionKey, junk: Junk)
    | Lost(i: nat)
    | Reap(i: nat)
    | Tun(packet: Packet, junk: Junk)

  predicate Enabled(d: Daemon, e: Event) {
    match e
    case Accept(_) => true
    case Acts(i, _) => i < |d.slots| && CanAct(d.slots[i])
    case Deliver(i, f, _, _) =>
      i < |d.slots| && Sendable(f)
      && (Awaiting(d.slots[i]) || (d.slots[i].alive && d.slots[i].stage.Receiving?))
    case Lost(i) =>
      i < |d.slots| && (Awaiting(d.slots[i]) || (d.slots[i].alive && d.slots[i].stage.Receiving?))
    case Reap(i) => i < |d.slots| && d.slots[i].alive && d.slots[i].stage.Ended?
    case Tun(packet, _) => 0 < |packet| <= FRAME_PAYLOAD_MAXSIZE
  }

  function ToSlot(i: nat, frames: seq<Frame>): seq<Out> {
    seq(|frames|, k requires 0 <= k < |frames| => ToPeer(i, frames[k]))
  }

  function Apply(cfg: Config, d: Daemon, e: Event): Step
    requires Enabled(d, e)
  {
    match e
    case Accept(isClient) => Step(AddPeer(d, isClient), [])
    case Acts(i, seed) =>
      var a := Act(cfg, d.slots[i], seed);
      Step(d.(slots := d.slots[i := a.slot]), ToSlot(i, a.sent))
    case Deliver(i, f, drawn, junk) =>
      if d.slots[i].stage.Receiving? then ProcessFrame(cfg, d, i, f, junk)
      else Step(d.(slots := d.slots[i := Authenticate(cfg, d.slots[i], f, drawn)]), [])
    case Lost(i) => Step(d.(slots := d.slots[i := d.slots[i].(stage := Ended)]), [])
    case Reap(i) => Step(d.(slots := d.slots[i := d.slots[i].(alive := false)]), [])
    case Tun(packet, junk) => TunRead(cfg, d, packet, junk)
  }

  /** Each of the events is possible when its turn comes. */
  predicate Playable(cfg: Config, d: Daemon, events: seq<Event>)
    decreases |events|
  {
    events == [] || (Enabled(d, events[0]) && Playable(cfg, Apply(cfg, d, events[0]).daemon, events[1..]))
  }

  /** The events one after the other. */
  function Play(cfg: Config, d: Daemon, events: seq<Event>): Step
    requires Playable(cfg, d, events)
    decreases |events|
  {
    if events == [] then Step(d, [])
    else
      var st := Apply(cfg, d, events[0]);
      var rest := Play(cfg, st.daemon, events[1..]);
      Step(rest.daemon, st.outs + rest.outs)
  }

  lemma {:induction false} PlayOneMore(cfg: Config, d: Daemon, events: seq<Event>, e: Event)
    requires Playable(cfg, d, events) && Enabled(Play(cfg, d, events).daemon, e)
    ensures Playable(cfg, d, events + [e])
    ensures var before, st := Play(cfg, d, events), Apply(cfg, Play(cfg, d, events).daemon, e);
            Play(cfg, d, events + [e]) == Step(st.daemon, before.outs + st.outs)
    decreases |events|
  {
    hide Enabled;
    hide Apply;
    var all := events + [e];
    if events == [] {
      assert all[0] == e && all[1..] == [];
    } else {
      var st := Apply(cfg, d, events[0]);
      PlayOneMore(cfg, st.daemon, events[1..], e);
      assert all[0] == events[0] && all[1..] == events[1..] + [e];
      var rest := Play(cfg, st.daemon, events[1..]);
      Regroup(st.outs, rest.outs, Apply(cfg, rest.daemon, e).outs);
    }
  }

  lemma {:induction false} PlayAppend(cfg: Config, d: Daemon, events: seq<Event>, more: seq<Event>)
    requires Playable(cfg, d, events) && Playable(cfg, Play(cfg, d, events).daemon, more)
    ensures Playable(cfg, d, events + more)
    ensures var first := Play(cfg, d, events);
            var second := Play(cfg, first.daemon, more);
            Play(cfg, d, events + more) == Step(second.daemon, first.outs + second.outs)
    decreases |events|
  {
    hide Enabled;
    hide Apply;
    if events == [] {
      assert events + more == more;
    } else {
      var st := Apply(cfg, d, events[0]);
      PlayAppend(cfg, st.daemon, events[1..], more);
      assert (events + more)[1..] == events[1..] + more;
      var rest := Play(cfg, st.daemon, events[1..]);
      Regroup(st.outs, rest.outs, Play(cfg, rest.daemon, more).outs);
    }
  }

  /** authenticate_peer as a sequence of events. */
  function AuthEvents(cfg: Config, s: Slot, i: nat, incoming: seq<Frame>, drawn: SessionKey, pads: (nat, nat),
                      junk: Junk): seq<Event>
    decreases StagesLeft(s)
  {
    if CanAct(s) then
      var seed := if s.stage.SendIv? then pads.1 else pads.0;
      ActAdvances(cfg, s, seed);
      [Acts(i, seed)] + AuthEvents(cfg, Act(cfg, s, seed).slot, i, incoming, drawn, pads, junk)
    else if !Awaiting(s) then []
    else if incoming == [] then [Lost(i)]
    else
      AuthenticateAdvances(cfg, s, incoming[0], drawn);
      [Deliver(i, incoming[0], drawn, junk)]
      + AuthEvents(cfg, Authenticate(cfg, s, incoming[0], drawn), i, incoming[1..], drawn, pads, junk)
  }

  /** The straight-line authentication is what these events do. */
  lemma {:induction false} AuthIsPlayed(cfg: Config, d: Daemon, i: nat, incoming: seq<Frame>, drawn: SessionKey,
                                        pads: (nat, nat), junk: Junk)
    requires i < |d.slots| && forall k :: 0 <= k < |incoming| ==> Sendable(incoming[k])
    ensures var events := AuthEvents(cfg, d.slots[i], i, incoming, drawn, pads, junk);
            var r := RunAuth(cfg, d.slots[i], incoming, drawn, pads);
      && Playable(cfg, d, events)
      && Play(cfg, d, events) == Step(d.(slots := d.slots[i := r.slot]), ToSlot(i, r.sent))
    decreases StagesLeft(d.slots[i])
  {
    hide Act;
    hide Authenticate;
    hide ProcessFrame;
    hide ToSlot;
    var s := d.slots[i];
    var events := AuthEvents(cfg, s, i, incoming, drawn, pads, junk);
    NothingToSlot(i);
    if CanAct(s) {
      var seed := if s.stage.SendIv? then pads.1 else pads.0;
      var a := Act(cfg, s, seed);
      ActAdvances(cfg, s, seed);
      var d' := d.(slots := d.slots[i := a.slot]);
      AuthIsPlayed(cfg, d', i, incoming, drawn, pads, junk);
      ToSlotAppend(i, a.sent, RunAuth(cfg, a.slot, incoming, drawn, pads).sent);
      PlayFirst(cfg, d, Acts(i, seed), AuthEvents(cfg, a.slot, i, incoming, drawn, pads, junk));
    } else if Awaiting(s) && incoming == [] {
      PlayFirst(cfg, d, Lost(i), []);
    } else if Awaiting(s) {
      AuthenticateAdvances(cfg, s, incoming[0], drawn);
      var s' := Authenticate(cfg, s, incoming[0], drawn);
      AuthIsPlayed(cfg, d.(slots := d.slots[i := s']), i, incoming[1..], drawn, pads, junk);
      ToSlotAppend(i, [], RunAuth(cfg, s', incoming[1..], drawn, pads).sent);
      PlayFirst(cfg, d, Deliver(i, incoming[0], drawn, junk),
                AuthEvents(cfg, s', i, incoming[1..], drawn, pads, junk));
    } else {
      assert d.slots[i := s] == d.slots;
    }
  }

  /** The loop of peer_receive as a sequence of events: each frame up to the first CLOSE, or all of
      them and then the end of the stream. */
  function LoopEvents(i: nat, frames: seq<Frame>, drawn: SessionKey, junks: seq<Junk>): seq<Event>
    requires |junks| == |frames|
  {
    if frames == [] then [Lost(i)]
    else
      [Deliver(i, frames[0], drawn, junks[0])]
      + if frames[0].kind == FRAME_HDR_CLOSE then [] else LoopEvents(i, frames[1..], drawn, junks[1..])
  }

  /** The frames that are taken in the course of the events. */
  function FramesTaken(events: seq<Event>): seq<Frame> {
    if events == [] then []
    else (if events[0].Deliver? then [events[0].frame] else []) + FramesTaken(events[1..])
  }

  lemma {:induction false} FramesTakenAppend(a: seq<Event>, b: seq<Event>)
    ensures FramesTaken(a + b) == FramesTaken(a) + FramesTaken(b)
  {
    if a == [] {
      assert a + b == b;
    } else {
      FramesTakenAppend(a[1..], b);
      assert (a + b)[1..] == a[1..] + b;
    }
  }

  /** Every event is one of peer `i`, and a delivery carries the session key drawn. */
  predicate OnlyOf(events: seq<Event>, i: nat, drawn: SessionKey) {
    forall k :: 0 <= k < |events| ==>
      match events[k]
      case Acts(p, _) => p == i
      case Lost(p) => p == i
      case Deliver(p, _, key, _) => p == i && key == drawn
      case _ => false
  }

  /** The stream is lost at the very end or not at all. */
  predicate LostAtMostLast(events: seq<Event>) {
    forall k :: 0 <= k < |events| - 1 ==> !events[k].Lost?
  }

  predicate LostLast(events: seq<Event>) {
    events != [] && events[|events| - 1].Lost?
  }

  lemma ConsKeeps(e: Event, more: seq<Event>, i: nat, drawn: SessionKey)
    requires OnlyOf(more, i, drawn) && OnlyOf([e], i, drawn) && LostAtMostLast(more) && !e.Lost?
    ensures var all := [e] + more;
      && OnlyOf(all, i, drawn) && LostAtMostLast(all) && (LostLast(all) <==> LostLast(more))
      && FramesTaken(all) == (if e.Deliver? then [e.frame] else []) + FramesTaken(more)
  {
    var all := [e] + more;
    assert all[1..] == more;
    forall k | 0 <= k < |all| ensures all[k] == if k == 0 then e else more[k - 1] {
    }
  }

  /** The loop takes exactly the frames up to the first CLOSE, and loses the stream exactly when there
      is none. */
  lemma {:induction false} LoopTakes(i: nat, frames: seq<Frame>, drawn: SessionKey, junks: seq<Junk>)
    requires |junks| == |frames|
    ensures var events := LoopEvents(i, frames, drawn, junks);
      && OnlyOf(events, i, drawn) && LostAtMostLast(events)
      && FramesTaken(events) == UpToClose(frames)
      && (LostLast(events) <==> NoClose(frames))
  {
    if frames == [] {
      assert [Lost(i)][1..] == [];
    } else {
      var e := Deliver(i, frames[0], drawn, junks[0]);
      if frames[0].kind == FRAME_HDR_CLOSE {
        assert [e] + [] == [e];
        ConsKeeps(e, [], i, drawn);
      } else {
        LoopTakes(i, frames[1..], drawn, junks[1..]);
        ConsKeeps(e, LoopEvents(i, frames[1..], drawn, junks[1..]), i, drawn);
        assert NoClose(frames) <==> NoClose(frames[1..]) by {
          assert forall k :: 0 < k < |frames| ==> frames[k] == frames[1..][k - 1];
        }
      }
    }
  }

  /** Authentication takes the frames that `used` counts, and loses the stream only after all of them. */
  lemma {:induction false} AuthTakes(cfg: Config, s: Slot, i: nat, incoming: seq<Frame>, drawn: SessionKey,
                                     pads: (nat, nat), junk: Junk)
    ensures var events := AuthEvents(cfg, s, i, incoming, drawn, pads, junk);
            var r := RunAuth(cfg, s, incoming, drawn, pads);
      && OnlyOf(events, i, drawn) && LostAtMostLast(events)
      && r.used <= |incoming| && FramesTaken(events) == incoming[..r.used]
      && (LostLast(events) ==> r.used == |incoming| && r.slot.stage.Ended?)
    decreases StagesLeft(s)
  {
    hide Act;
    hide Authenticate;
    if CanAct(s) {
      var seed := if s.stage.SendIv? then pads.1 else pads.0;
      ActAdvances(cfg, s, seed);
      AuthTakes(cfg, Act(cfg, s, seed).slot, i, incoming, drawn, pads, junk);
      ConsKeeps(Acts(i, seed), AuthEvents(cfg, Act(cfg, s, seed).slot, i, incoming, drawn, pads, junk), i, drawn);
    } else if Awaiting(s) && incoming == [] {
      assert [Lost(i)][1..] == [];
    } else if Awaiting(s) {
      AuthenticateAdvances(cfg, s, incoming[0], drawn);
      var s' := Authenticate(cfg, s, incoming[0], drawn);
      AuthTakes(cfg, s', i, incoming[1..], drawn, pads, junk);
      var more := AuthEvents(cfg, s', i, incoming[1..], drawn, pads, junk);
      ConsKeeps(Deliver(i, incoming[0], drawn, junk), more, i, drawn);
      var used := RunAuth(cfg, s', incoming[1..], drawn, pads).used;
      assert incoming[..1 + used] == [incoming[0]] + incoming[1..][..used];
    }
  }

  lemma PlayFirst(cfg: Config, d: Daemon, e: Event, more: seq<Event>)
    requires Enabled(d, e) && Playable(cfg, Apply(cfg, d, e).daemon, more)
    ensures Playable(cfg, d, [e] + more)
    ensures var st := Apply(cfg, d, e);
            var rest := Play(cfg, st.daemon, more);
            Play(cfg, d, [e] + more) == Step(rest.daemon, st.outs + rest.outs)
  {
    hide Enabled;
    hide Apply;
    assert ([e] + more)[1..] == more;
  }

  lemma NothingToSlot(i: nat)
    ensures ToSlot(i, []) == []
  {
  }

  lemma ToSlotAppend(i: nat, a: seq<Frame>, b: seq<Frame>)
    ensures ToSlot(i, a + b) == ToSlot(i, a) + ToSlot(i, b)
  {
  }

  /** What authenticate_peer leaves behind: a peer in the loop exactly when it is authenticated. */
  lemma {:induction false} AuthEnds(cfg: Config, s: Slot, incoming: seq<Frame>, drawn: SessionKey, pads: (nat, nat))
    requires s.alive && (s.authenticated <==> s.stage.Receiving?)
    ensures var s' := RunAuth(cfg, s, incoming, drawn, pads).slot;
      && s'.alive && (s'.authenticated <==> s'.stage.Receiving?) && (s'.stage.Receiving? || s'.stage.Ended?)
      && RunAuth(cfg, s, incoming, drawn, pads).used <= |incoming|
    decreases StagesLeft(s)
  {
    hide RsaEncrypt;
    hide Received;
    if CanAct(s) {
      var seed := if s.stage.SendIv? then pads.1 else pads.0;
      ActAdvances(cfg, s, seed);
      AuthEnds(cfg, Act(cfg, s, seed).slot, incoming, drawn, pads);
    } else if Awaiting(s) && incoming != [] {
      AuthenticateAdvances(cfg, s, incoming[0], drawn);
      AuthEnds(cfg, Authenticate(cfg, s, incoming[0], drawn), incoming[1..], drawn, pads);
    }
  }

  // ---------------------------------------------------------------- what the scans mean

  /** A broadcast sends to alive authenticated peers other than the excluded one, ... */
  lemma {:induction false} BroadcastOnlyTo(cfg: Config, slots: seq<Slot>, packet: Packet, exclude: Option<nat>, i: nat)
    ensures forall o :: o in BroadcastFrom(cfg, slots, packet, exclude, i) ==>
      && o.ToPeer? && i <= o.slot < |slots| && exclude != Some(o.slot)
      && Seal(cfg, slots[o.slot], packet) == [o.frame]
    decreases |slots| - i
  {
    hide AesEncrypt;
    if i < |slots| {
      BroadcastOnlyTo(cfg, slots, packet, exclude, i + 1);
    }
  }

  /** ... to every one of them, ... */
  lemma {:induction false} BroadcastReaches(cfg: Config, slots: seq<Slot>, packet: Packet, exclude: Option<nat>,
                                            i: nat, j: nat)
    requires i <= j < |slots| && exclude != Some(j) && Seal(cfg, slots[j], packet) != []
    ensures ToPeer(j, Seal(cfg, slots[j], packet)[0]) in BroadcastFrom(cfg, slots, packet, exclude, i)
    decreases |slots| - i
  {
    hide AesEncrypt;
    if i < j {
      BroadcastReaches(cfg, slots, packet, exclude, i + 1, j);
    } else {
      assert SendTo(cfg, slots, j, packet)[0] in BroadcastFrom(cfg, slots, packet, exclude, i);
    }
  }

  predicate InListOrder(outs: seq<Out>) {
    && (forall k :: 0 <= k < |outs| ==> outs[k].ToPeer?)
    && (forall k, l :: 0 <= k < l < |outs| ==> outs[k].slot < outs[l].slot)
  }

  lemma ListOrderCons(o: Out, rest: seq<Out>)
    requires o.ToPeer? && InListOrder(rest) && forall p :: p in rest ==> p.ToPeer? && o.slot < p.slot
    ensures InListOrder([o] + rest)
  {
  }

  /** ... in list order, so to each of them once. */
  lemma {:induction false} BroadcastInOrder(cfg: Config, slots: seq<Slot>, packet: Packet, exclude: Option<nat>, i: nat)
    ensures InListOrder(BroadcastFrom(cfg, slots, packet, exclude, i))
    decreases |slots| - i
  {
    hide InListOrder;
    hide AesEncrypt;
    if i >= |slots| {
      assert InListOrder([]) by { ListOrderNil(); }
    } else {
      BroadcastInOrder(cfg, slots, packet, exclude, i + 1);
      BroadcastOnlyTo(cfg, slots, packet, exclude, i + 1);
      var rest := BroadcastFrom(cfg, slots, packet, exclude, i + 1);
      if exclude != Some(i) && Seal(cfg, slots[i], packet) != [] {
        ListOrderCons(SendTo(cfg, slots, i, packet)[0], rest);
      } else {
        assert [] + rest == rest;
      }
    }
  }

  lemma ListOrderNil()
    ensures InListOrder([])
  {
  }

  /** Every output of a routing step carries the packet that came in: the device gets it
      unchanged and peers get it encrypted under their own key. */
  ghost predicate Carries(cfg: Config, slots: seq<Slot>, o: Out, packet: Packet) {
    match o
    case ToTun(p) => p == packet
    case ToPeer(j, f) => j < |slots| && Seal(cfg, slots[j], packet) == [f]
  }

  lemma TunReadCarries(cfg: Config, d: Daemon, packet: Packet, junk: Junk)
    ensures var st := TunRead(cfg, d, packet, junk);
      && st.daemon.slots == d.slots
      && forall o :: o in st.outs ==> o.ToPeer? && Carries(cfg, d.slots, o, packet)
  {
    BroadcastOnlyTo(cfg, d.slots, packet, None, 0);
  }

  lemma RoutePacketCarries(cfg: Config, d: Daemon, i: nat, packet: Packet, junk: Junk)
    requires i < |d.slots|
    ensures var st := RoutePacket(cfg, d, i, packet, junk);
      && forall o :: o in st.outs ==> Carries(cfg, d.slots, o, packet)
  {
    BroadcastOnlyTo(cfg, d.slots, packet, Some(i), 0);
  }
}
