/** A session of two daemons over one authenticated connection: a server with one client.

    Side 0 and side 1 each run the daemon of module Router. A frame sent by one side arrives at
    the other in order and is not lost. Tun/tap reads and arrivals interleave in any order.
    Every packet read gets a number, which its frames carry along as history, together with
    how often the packet has crossed the link. */
module Session {
  import opened Protocol
  import opened Framing
  import opened Cipher
  import opened Routes
  import opened PacketHeader
  import opened Router
  import opened Wrappers
  import Handshake

  /** Both configurations, the element each side uses for the other, and the session key. */
  datatype Link = Link(cfgs: seq<Config>, ends: seq<nat>, key: SessionKey)

  datatype Transit = Transit(id: nat, hops: nat, frame: Frame)

  datatype Record = Record(id: nat, packet: Packet)

  /** `queues[x]` holds the frames on their way to side `x`. */
  datatype State = State(
    daemons: seq<Daemon>,
    queues: seq<seq<Transit>>,
    read: seq<Record>,
    written: seq<Record>)

  datatype Move =
    | Read(x: nat, packet: Packet, junk: Junk)
    | Arrive(x: nat, junk: Junk)

  ghost predicate ValidLink(l: Link) {
    && |l.cfgs| == 2 && |l.ends| == 2
    && SoundCipher(l.cfgs[0].cipher) && l.cfgs[1].cipher == l.cfgs[0].cipher
    && l.cfgs[1].host == l.cfgs[0].host
  }

  predicate Shape(s: State) {
    |s.daemons| == 2 && |s.queues| == 2
  }

  predicate Enabled(s: State, m: Move) {
    && Shape(s) && m.x < 2
    && match m
       case Read(_, packet, _) => 0 < |packet| < FRAME_PAYLOAD_MAXSIZE
       case Arrive(x, _) => s.queues[x] != []
  }

  /** The frames among the outputs of a step. */
  function Sent(outs: seq<Out>, id: nat, hops: nat): seq<Transit> {
    if outs == [] then []
    else (if outs[0].ToPeer? then [Transit(id, hops, outs[0].frame)] else []) + Sent(outs[1..], id, hops)
  }

  /** The packets among the outputs of a step. */
  function Delivered(outs: seq<Out>, id: nat): seq<Record> {
    if outs == [] then []
    else (if outs[0].ToTun? then [Record(id, outs[0].packet)] else []) + Delivered(outs[1..], id)
  }

  function Apply(l: Link, s: State, m: Move): State
    requires |l.cfgs| == 2 && |l.ends| == 2 && Enabled(s, m)
    requires m.Arrive? ==> l.ends[m.x] < |s.daemons[m.x].slots|
  {
    match m
    case Read(x, packet, junk) =>
      var st := TunRead(l.cfgs[x], s.daemons[x], packet, junk);
      var id := |s.read|;
      State(s.daemons[x := st.daemon],
            s.queues[1 - x := s.queues[1 - x] + Sent(st.outs, id, 1)],
            s.read + [Record(id, packet)],
            s.written + Delivered(st.outs, id))
    case Arrive(x, junk) =>
      var t := s.queues[x][0];
      var st := ProcessFrame(l.cfgs[x], s.daemons[x], l.ends[x], t.frame, junk);
      var rest := s.queues[x := s.queues[x][1..]];
      State(s.daemons[x := st.daemon],
            rest[1 - x := rest[1 - x] + Sent(st.outs, t.id, t.hops + 1)],
            s.read,
            s.written + Delivered(st.outs, t.id))
  }

  /** The other side is the only alive peer, and both ends hold the session key. There may be
      dead elements, with whatever they had learned. */
  predicate Connected(l: Link, d: Daemon, x: nat)
    requires |l.ends| == 2 && x < 2
  {
    var i := l.ends[x];
    && i < |d.slots|
    && (forall j :: 0 <= j < |d.slots| ==> (d.slots[j].alive <==> j == i))
    && d.slots[i].authenticated && d.slots[i].stage.Receiving?
    && d.slots[i].encCtx.Some? && d.slots[i].encCtx.value.value == l.key
    && d.slots[i].decCtx == d.slots[i].encCtx
  }

  /** A session may start with packets in flight; they count as read, as crossing for the first
      time, and in the order of the queues. What the ends know so far, and where the packets in
      flight come from, are addresses that are local somewhere. */
  ghost predicate Init(l: Link, s: State) {
    && ValidLink(l) && Shape(s)
    && (forall x :: 0 <= x < 2 ==> Connected(l, s.daemons[x], x))
    && (forall x :: 0 <= x < 2 ==> Keys(s.daemons[x].slots[l.ends[x]].routes) <= LocalKeys(s))
    && (forall x, k :: 0 <= x < 2 && 0 <= k < |s.queues[x]| ==> InitialTransit(l, s, s.queues[x][k]))
    && s.read == Carried(l, s.queues[0]) + Carried(l, s.queues[1])
    && (forall k :: 0 <= k < |s.read| ==> s.read[k].id == k)
    && s.written == []
  }

  ghost predicate InitialTransit(l: Link, s: State, t: Transit)
    requires |l.cfgs| == 2 && Shape(s)
  {
    && IsSealed(l, t.frame) && t.hops == 1
    && var h, packet := l.cfgs[0].host, PacketIn(l, t.frame);
       (Parseable(h, packet) ==> SourceKey(h, packet) in LocalKeys(s))
  }

  ghost predicate Steps(l: Link, s: State, m: Move, s': State) {
    && |l.cfgs| == 2 && |l.ends| == 2 && Enabled(s, m)
    && (m.Arrive? ==> l.ends[m.x] < |s.daemons[m.x].slots|)
    && s' == Apply(l, s, m)
  }

  ghost predicate IsRun(l: Link, run: seq<State>, moves: seq<Move>) {
    && |run| == |moves| + 1 && Init(l, run[0])
    && forall i | 0 <= i < |moves| :: Steps(l, run[i], moves[i], run[i + 1])
  }

  /** A session of two daemons that know nothing yet. */
  lemma SessionExists() returns (l: Link, s: State)
    ensures Init(l, s)
  {
    SoundCipherExists();
    var u := Handshake.TRUSTING_PAIR;
    var stamped := Some(Stamped(u.drawn, 1));
    var end := Slot(true, true, false, None, stamped, stamped, [], Receiving, 1, []);
    l := Link([u.server, u.client], [0, 0], u.drawn);
    s := State([Daemon([end], []), Daemon([end.(isClient := true)], [])], [[], []], [], []);
  }

  function InFlight(frames: seq<Frame>, first: nat): seq<Transit> {
    seq(|frames|, k requires 0 <= k < |frames| => Transit(first + k, 1, frames[k]))
  }

  /** The session that two daemons have after a handshake: what has been sent and not been read
      is in flight. */
  function SessionAfter(u: Handshake.Setup, p: Handshake.Pair,
                        server: Daemon, client: Daemon, i: nat, j: nat): (Link, State)
  {
    var l := Link([u.server, u.client], [i, j], u.drawn);
    var toServer := InFlight(Handshake.Inbox(p, Handshake.Server), 0);
    var toClient := InFlight(Handshake.Inbox(p, Handshake.Client), |toServer|);
    (l, State([server, client], [toServer, toClient], Carried(l, toServer) + Carried(l, toClient), []))
  }

  /** A finished handshake between two daemons that accept each other is the start of a session,
      provided each has no other alive peer, and everything learned and sent so far has its
      source among the local addresses of the two, as tun/tap reads see to. No frame in flight is
      lost. */
  lemma HandshakeStartsSession(u: Handshake.Setup, run: seq<Handshake.Pair>, n: nat,
                               server: Daemon, client: Daemon, i: nat, j: nat)
    requires Handshake.Honest(u) && Handshake.ClientAccepts(u) && u.client.host == u.server.host
    requires Handshake.IsRun(u, run) && n < |run| && Handshake.Finished(run[n])
    requires i < |server.slots| && server.slots[i] == run[n].server.(routes := server.slots[i].routes)
    requires j < |client.slots| && client.slots[j] == run[n].client.(routes := client.slots[j].routes)
    requires forall k :: 0 <= k < |server.slots| && k != i ==> !server.slots[k].alive
    requires forall k :: 0 <= k < |client.slots| && k != j ==> !client.slots[k].alive
    requires var local := Keys(server.local) + Keys(client.local);
      && Keys(server.slots[i].routes) <= local && Keys(client.slots[j].routes) <= local
      && forall side, f :: f in Handshake.Inbox(run[n], side) ==> ComesFrom(u, f, local)
    ensures var (l, s) := SessionAfter(u, run[n], server, client, i, j);
      && Init(l, s)
      && |s.queues[0]| == |Handshake.Inbox(run[n], Handshake.Server)|
      && |s.queues[1]| == |Handshake.Inbox(run[n], Handshake.Client)|
  {
    var p := run[n];
    Handshake.AcceptedStaysUp(u, run, n);
    assert Handshake.SlotOf(p, Handshake.Server) == p.server && Handshake.SlotOf(p, Handshake.Client) == p.client;
    Handshake.RunInv(u, run, n);
    var (l, s) := SessionAfter(u, p, server, client, i, j);
    assert Connected(l, server, 0) && Connected(l, client, 1);
    forall side, k | 0 <= k < |Handshake.Inbox(p, side)|
      ensures var f := Handshake.Inbox(p, side)[k]; IsSealed(l, f) && ComesFrom(u, f, LocalKeys(s))
    {
      assert Handshake.Inbox(p, side)[k] in Handshake.Inbox(p, side);
      InboxIsSealed(u, p, side, k, l);
    }
  }

  /** If the frame carries a packet with a complete header, its source is in `local`. */
  ghost predicate ComesFrom(u: Handshake.Setup, f: Frame, local: set<Key>) {
    var l := Link([u.server, u.client], [0, 0], u.drawn);
    var packet := PacketIn(l, f);
    Parseable(u.server.host, packet) ==> SourceKey(u.server.host, packet) in local
  }

  lemma InboxIsSealed(u: Handshake.Setup, p: Handshake.Pair, side: Handshake.Side, k: nat, l: Link)
    requires Handshake.Inv(u, p) && p.server.authenticated && p.client.authenticated
    requires k < |Handshake.Inbox(p, side)|
    requires |l.cfgs| == 2 && l.cfgs[0] == u.server && l.key == u.drawn
    ensures IsSealed(l, Handshake.Inbox(p, side)[k])
  {
    if side.Server? {
      assert Handshake.FromClient(u, p.toServer[p.serverRead + k], p.serverRead + k);
    } else {
      assert Handshake.FromServer(u, p.toClient[p.clientRead + k], p.clientRead + k);
    }
  }

  // ---------------------------------------------------------------- one output per packet

  function Sealed(l: Link, packet: Packet): Frame
    requires |l.cfgs| == 2
  {
    Frame(FRAME_HDR_NETPACKET, AesEncrypt(l.cfgs[0].cipher, l.key, packet))
  }

  lemma SoleOwner(l: Link, d: Daemon, x: nat, r: Route)
    requires |l.ends| == 2 && x < 2 && Connected(l, d, x)
    ensures Owner(d, r) == None || Owner(d, r) == Some(l.ends[x])
    ensures Owner(d, r).Some? <==> KeyOf(r) in Keys(d.slots[l.ends[x]].routes)
  {
    var i := l.ends[x];
    InRoutesIsInKeys(r, d.slots[i].routes);
  }

  /** When only element `k` can be sent to, a broadcast is one frame to it, or nothing. */
  lemma {:induction false} BroadcastToOne(cfg: Config, slots: seq<Slot>, packet: Packet, exclude: Option<nat>,
                                          i: nat, k: nat)
    requires k < |slots| && forall j :: 0 <= j < |slots| && j != k ==> Seal(cfg, slots[j], packet) == []
    ensures BroadcastFrom(cfg, slots, packet, exclude, i)
            == if i <= k && exclude != Some(k) then SendTo(cfg, slots, k, packet) else []
    decreases |slots| - i
  {
    hide AesEncrypt;
    if i < |slots| {
      BroadcastToOne(cfg, slots, packet, exclude, i + 1, k);
    }
  }

  lemma SoleBroadcast(l: Link, d: Daemon, x: nat, packet: Packet)
    requires ValidLink(l) && x < 2 && Connected(l, d, x)
    ensures var i := l.ends[x];
      && SendTo(l.cfgs[x], d.slots, i, packet) == [ToPeer(i, Sealed(l, packet))]
      && Broadcast(l.cfgs[x], d, packet, None) == [ToPeer(i, Sealed(l, packet))]
      && Broadcast(l.cfgs[x], d, packet, Some(i)) == []
  {
    hide AesEncrypt;
    var i := l.ends[x];
    BroadcastToOne(l.cfgs[x], d.slots, packet, None, 0, i);
    BroadcastToOne(l.cfgs[x], d.slots, packet, Some(i), 0, i);
  }

  /** A tun/tap read sends exactly one frame across. */
  lemma ReadSendsOne(l: Link, d: Daemon, x: nat, packet: Packet, junk: Junk)
    requires ValidLink(l) && x < 2 && Connected(l, d, x)
    ensures var st := TunRead(l.cfgs[x], d, packet, junk);
      && st.outs == [ToPeer(l.ends[x], Sealed(l, packet))]
      && st.daemon.slots == d.slots && d.local <= st.daemon.local
      && Connected(l, st.daemon, x)
  {
    hide AesEncrypt;
    hide ParseAddr;
    hide InRoutes;
    var buf := InBuffer(packet, junk.buf);
    var src := ParseAddr(l.cfgs[x].host, buf, junk.route, true);
    var d' := if InRoutes(src, d.local) then d else d.(local := d.local + [src]);
    SoleOwner(l, d', x, ParseAddr(l.cfgs[x].host, buf, src, false));
    SoleBroadcast(l, d', x, packet);
  }

  /** An arriving packet is either written to the device or sent back across, never both. */
  lemma ArrivalHasOneOutput(l: Link, d: Daemon, x: nat, packet: Packet, junk: Junk)
    requires ValidLink(l) && x < 2 && Connected(l, d, x)
    ensures var st := RoutePacket(l.cfgs[x], d, l.ends[x], packet, junk);
            var dst := ParseAddr(l.cfgs[x].host, InBuffer(packet, junk.buf), junk.route, false);
      && st.outs == (if !InRoutes(dst, d.local) && Owner(d, dst).Some?
                     then [ToPeer(l.ends[x], Sealed(l, packet))] else [ToTun(packet)])
      && Connected(l, st.daemon, x) && st.daemon.local == d.local
  {
    hide AesEncrypt;
    hide ParseAddr;
    hide InRoutes;
    var dst := ParseAddr(l.cfgs[x].host, InBuffer(packet, junk.buf), junk.route, false);
    SoleOwner(l, d, x, dst);
    SoleBroadcast(l, d, x, packet);
    assert [ToTun(packet)] + [] == [ToTun(packet)];
  }

  // ---------------------------------------------------------------- conservation

  /** The packets a queue carries. */
  function Carried(l: Link, q: seq<Transit>): seq<Record>
    requires |l.cfgs| == 2
  {
    seq(|q|, i requires 0 <= i < |q| => Record(q[i].id, PacketIn(l, q[i].frame)))
  }

  function PacketIn(l: Link, f: Frame): Packet
    requires |l.cfgs| == 2
  {
    var o := AesDecrypt(l.cfgs[0].cipher, l.key, f.payload);
    if o.Some? then o.value else []
  }

  /** The frame is some packet sealed under the session key. */
  predicate IsSealed(l: Link, f: Frame)
    requires |l.cfgs| == 2
  {
    && f.kind == FRAME_HDR_NETPACKET && f.payload != []
    && AesDecrypt(l.cfgs[0].cipher, l.key, f.payload).Some?
  }

  ghost predicate LinkInv(l: Link, s: State) {
    && ValidLink(l) && Shape(s)
    && (forall x :: 0 <= x < 2 ==> Connected(l, s.daemons[x], x))
    && (forall x, k :: 0 <= x < 2 && 0 <= k < |s.queues[x]| ==> IsSealed(l, s.queues[x][k].frame))
    && (forall k :: 0 <= k < |s.read| ==> s.read[k].id == k)
  }

  ghost predicate Conserved(l: Link, s: State)
    requires |l.cfgs| == 2 && Shape(s)
  {
    multiset(s.read) == multiset(s.written) + multiset(Carried(l, s.queues[0])) + multiset(Carried(l, s.queues[1]))
  }

  lemma SealedOpens(l: Link, packet: Packet)
    requires ValidLink(l)
    ensures IsSealed(l, Sealed(l, packet)) && PacketIn(l, Sealed(l, packet)) == packet
  {
    AesRoundTrip(l.cfgs[0].cipher, l.key, packet);
  }

  lemma CarriedSnoc(l: Link, q: seq<Transit>, id: nat, hops: nat, packet: Packet)
    requires ValidLink(l)
    ensures Carried(l, q + [Transit(id, hops, Sealed(l, packet))]) == Carried(l, q) + [Record(id, packet)]
  {
    SealedOpens(l, packet);
  }

  lemma CarriedHead(l: Link, q: seq<Transit>)
    requires |l.cfgs| == 2 && q != []
    ensures Carried(l, q) == [Record(q[0].id, PacketIn(l, q[0].frame))] + Carried(l, q[1..])
  {
  }

  lemma OneOutput(o: Out, id: nat, hops: nat)
    ensures Sent([o], id, hops) == if o.ToPeer? then [Transit(id, hops, o.frame)] else []
    ensures Delivered([o], id) == if o.ToTun? then [Record(id, o.packet)] else []
  {
    assert [o][1..] == [];
  }

  /** What a move does to the records, spelled out. */
  lemma ReadEffect(l: Link, s: State, m: Move)
    requires LinkInv(l, s) && m.Read? && Enabled(s, m)
    ensures var s' := Apply(l, s, m);
      && s'.daemons == s.daemons[m.x := TunRead(l.cfgs[m.x], s.daemons[m.x], m.packet, m.junk).daemon]
      && s'.queues == s.queues[1 - m.x := s.queues[1 - m.x] + [Transit(|s.read|, 1, Sealed(l, m.packet))]]
      && s'.read == s.read + [Record(|s.read|, m.packet)]
      && s'.written == s.written
  {
    hide AesEncrypt;
    hide IsSealed;
    hide Connected;
    hide TunRead;
    hide Sent;
    hide Delivered;
    ReadSendsOne(l, s.daemons[m.x], m.x, m.packet, m.junk);
    OneOutput(ToPeer(l.ends[m.x], Sealed(l, m.packet)), |s.read|, 1);
    assert s.written + [] == s.written;
  }

  /** The arriving packet is sent back. */
  predicate Bounces(l: Link, s: State, x: nat, junk: Junk)
    requires |l.cfgs| == 2 && Shape(s) && x < 2 && s.queues[x] != []
  {
    var packet := PacketIn(l, s.queues[x][0].frame);
    var dst := ParseAddr(l.cfgs[x].host, InBuffer(packet, junk.buf), junk.route, false);
    !InRoutes(dst, s.daemons[x].local) && Owner(s.daemons[x], dst).Some?
  }

  lemma ArriveEffect(l: Link, s: State, m: Move)
    requires LinkInv(l, s) && m.Arrive? && Enabled(s, m)
    ensures var t := s.queues[m.x][0];
            var packet := PacketIn(l, t.frame);
            var s' := Apply(l, s, m);
            var rest := s.queues[m.x := s.queues[m.x][1..]];
      && s'.daemons == s.daemons[m.x := RoutePacket(l.cfgs[m.x], s.daemons[m.x], l.ends[m.x], packet, m.junk).daemon]
      && s'.read == s.read
      && (if Bounces(l, s, m.x, m.junk)
          then s'.queues == rest[1 - m.x := rest[1 - m.x] + [Transit(t.id, t.hops + 1, Sealed(l, packet))]]
               && s'.written == s.written
          else s'.queues == rest && s'.written == s.written + [Record(t.id, packet)])
  {
    hide ParseAddr;
    hide InRoutes;
    hide Sent;
    hide Delivered;
    hide Owner;
    hide ProcessFrame;
    hide RoutePacket;
    hide PacketIn;
    hide Sealed;
    var x := m.x;
    var d, t := s.daemons[x], s.queues[x][0];
    var packet := PacketIn(l, t.frame);
    assert Connected(l, d, x) && IsSealed(l, t.frame);
    ProcessSealed(l, d, x, t.frame, m.junk);
    ArrivalHasOneOutput(l, d, x, packet, m.junk);
    hide Connected;
    hide IsSealed;
    var o := if Bounces(l, s, x, m.junk) then ToPeer(l.ends[x], Sealed(l, packet)) else ToTun(packet);
    OneOutput(o, t.id, t.hops + 1);
    var rest := s.queues[x := s.queues[x][1..]];
    assert rest[1 - x] + [] == rest[1 - x];
    assert rest[1 - x := rest[1 - x]] == rest;
    assert s.written + [] == s.written;
  }

  lemma ProcessSealed(l: Link, d: Daemon, x: nat, f: Frame, junk: Junk)
    requires ValidLink(l) && x < 2 && Connected(l, d, x) && IsSealed(l, f)
    ensures ProcessFrame(l.cfgs[x], d, l.ends[x], f, junk)
            == RoutePacket(l.cfgs[x], d, l.ends[x], PacketIn(l, f), junk)
  {
    hide AesDecrypt;
    hide RoutePacket;
  }

  lemma ReadKeepsLink(l: Link, s: State, m: Move)
    requires LinkInv(l, s) && m.Read? && Enabled(s, m)
    ensures LinkInv(l, Apply(l, s, m))
  {
    hide Apply;
    hide AesDecrypt;
    hide AesEncrypt;
    hide Connected;
    hide TunRead;
    hide RoutePacket;
    hide IsSealed;
    ReadEffect(l, s, m);
    ReadSendsOne(l, s.daemons[m.x], m.x, m.packet, m.junk);
    SealedOpens(l, m.packet);
  }

  lemma ArriveKeepsLink(l: Link, s: State, m: Move)
    requires LinkInv(l, s) && m.Arrive? && Enabled(s, m) && l.ends[m.x] < |s.daemons[m.x].slots|
    ensures LinkInv(l, Apply(l, s, m))
  {
    hide Apply;
    hide AesDecrypt;
    hide AesEncrypt;
    hide Connected;
    hide TunRead;
    hide RoutePacket;
    hide IsSealed;
    hide Bounces;
    var packet := PacketIn(l, s.queues[m.x][0].frame);
    ArriveEffect(l, s, m);
    ArrivalHasOneOutput(l, s.daemons[m.x], m.x, packet, m.junk);
    SealedOpens(l, packet);
  }

  lemma ConnectedEnds(l: Link, s: State, x: nat)
    requires |l.ends| == 2 && Shape(s) && x < 2 && Connected(l, s.daemons[x], x)
    ensures l.ends[x] < |s.daemons[x].slots|
  {
    assert Connected(l, s.daemons[x], x);
  }

  lemma ConservedFrom(l: Link, s: State, x: nat)
    requires |l.cfgs| == 2 && Shape(s) && x < 2
    ensures Conserved(l, s) <==>
      multiset(s.read)
      == multiset(s.written) + multiset(Carried(l, s.queues[x])) + multiset(Carried(l, s.queues[1 - x]))
  {
    hide Carried;
  }

  /** Records move between three places; the total is what matters. */
  lemma ReadConserves(l: Link, s: State, m: Move)
    requires LinkInv(l, s) && Conserved(l, s) && m.Read? && Enabled(s, m)
    ensures Conserved(l, Apply(l, s, m))
  {
    hide Apply;
    hide RoutePacket;
    hide TunRead;
    hide Carried;
    hide PacketIn;
    hide Sealed;
    hide IsSealed;
    hide Connected;
    hide Bounces;
    hide Conserved;
    ConservedFrom(l, s, m.x);
    ReadEffect(l, s, m);
    CarriedSnoc(l, s.queues[1 - m.x], |s.read|, 1, m.packet);
    ConservedFrom(l, Apply(l, s, m), m.x);
  }

  lemma ArriveConserves(l: Link, s: State, m: Move)
    requires LinkInv(l, s) && Conserved(l, s) && m.Arrive? && Enabled(s, m)
    requires l.ends[m.x] < |s.daemons[m.x].slots|
    ensures Conserved(l, Apply(l, s, m))
  {
    hide Apply;
    hide RoutePacket;
    hide TunRead;
    hide Carried;
    hide PacketIn;
    hide Sealed;
    hide IsSealed;
    hide Connected;
    hide Bounces;
    hide Conserved;
    var x, t := m.x, s.queues[m.x][0];
    ConservedFrom(l, s, x);
    ArriveEffect(l, s, m);
    CarriedHead(l, s.queues[x]);
    if Bounces(l, s, x, m.junk) {
      CarriedSnoc(l, s.queues[1 - x], t.id, t.hops + 1, PacketIn(l, t.frame));
    }
    ConservedFrom(l, Apply(l, s, m), x);
  }

  lemma StartKeeps(l: Link, s: State)
    requires Init(l, s)
    ensures LinkInv(l, s) && Conserved(l, s)
  {
    hide Connected;
    hide IsSealed;
    hide PacketIn;
    assert forall x, k :: 0 <= x < 2 && 0 <= k < |s.queues[x]| ==> InitialTransit(l, s, s.queues[x][k]);
  }

  lemma {:induction false} RunConserves(l: Link, run: seq<State>, moves: seq<Move>, i: nat)
    requires IsRun(l, run, moves) && i < |run|
    ensures LinkInv(l, run[i]) && Conserved(l, run[i])
  {
    hide Apply;
    hide Enabled;
    hide Connected;
    if i == 0 {
      StartKeeps(l, run[0]);
    } else {
      RunConserves(l, run, moves, i - 1);
      assert Steps(l, run[i - 1], moves[i - 1], run[i - 1 + 1]);
      if moves[i - 1].Read? {
        ReadKeepsLink(l, run[i - 1], moves[i - 1]);
        ReadConserves(l, run[i - 1], moves[i - 1]);
      } else {
        ArriveKeepsLink(l, run[i - 1], moves[i - 1]);
        ArriveConserves(l, run[i - 1], moves[i - 1]);
      }
    }
  }

  /** Main result: every packet read from either device is, at every moment, in exactly one
      place: written to one of the devices, once, or in flight, once. Since the records read
      are numbered, no two of them are the same. */
  lemma PacketsAreConserved(l: Link, run: seq<State>, moves: seq<Move>, i: nat)
    requires IsRun(l, run, moves) && i < |run|
    ensures |l.cfgs| == 2 && Shape(run[i])
    ensures var s := run[i];
      && (forall k :: 0 <= k < |s.read| ==> s.read[k].id == k)
      && multiset(s.read) == multiset(s.written) + multiset(Carried(l, s.queues[0])) + multiset(Carried(l, s.queues[1]))
      && (s.queues[0] == [] && s.queues[1] == [] ==> multiset(s.read) == multiset(s.written))
  {
    RunConserves(l, run, moves, i);
    var s := run[i];
    if s.queues[0] == [] && s.queues[1] == [] {
      assert Carried(l, s.queues[0]) == [] && Carried(l, s.queues[1]) == [];
    }
  }

  // ---------------------------------------------------------------- crossings

  predicate AllParseable(h: Host, records: seq<Record>) {
    forall k :: 0 <= k < |records| ==> Parseable(h, records[k].packet)
  }

  function LocalKeys(s: State): set<Key>
    requires Shape(s)
  {
    Keys(s.daemons[0].local) + Keys(s.daemons[1].local)
  }

  /** A packet in flight comes from an address that is local somewhere, has crossed at most
      twice, and on its second crossing goes to an address that is local where it arrives. */
  ghost predicate TransitInv(l: Link, s: State, x: nat, t: Transit)
    requires |l.cfgs| == 2 && Shape(s) && x < 2
  {
    var h, packet := l.cfgs[0].host, PacketIn(l, t.frame);
    && Parseable(h, packet)
    && SourceKey(h, packet) in LocalKeys(s)
    && 1 <= t.hops <= 2
    && (t.hops == 2 ==> DestinationKey(h, packet) in Keys(s.daemons[x].local))
  }

  ghost predicate HopInv(l: Link, s: State)
    requires |l.cfgs| == 2 && |l.ends| == 2 && Shape(s)
  {
    && (forall x, k :: 0 <= x < 2 && 0 <= k < |s.queues[x]| ==> TransitInv(l, s, x, s.queues[x][k]))
    && (forall x :: 0 <= x < 2 ==>
          l.ends[x] < |s.daemons[x].slots| && Keys(s.daemons[x].slots[l.ends[x]].routes) <= LocalKeys(s))
  }

  lemma KeysGrow(rs: seq<Route>, qs: seq<Route>)
    requires rs <= qs
    ensures Keys(rs) <= Keys(qs)
  {
    forall k | k in Keys(rs) ensures k in Keys(qs) {
      var i :| 0 <= i < |rs| && k == KeyOf(rs[i]);
      assert qs[i] == rs[i];
    }
  }

  lemma ReadLearns(l: Link, d: Daemon, x: nat, packet: Packet, junk: Junk)
    requires |l.cfgs| == 2 && x < 2 && Parseable(l.cfgs[x].host, packet)
    ensures SourceKey(l.cfgs[x].host, packet) in Keys(TunRead(l.cfgs[x], d, packet, junk).daemon.local)
  {
    var src := ParseAddr(l.cfgs[x].host, InBuffer(packet, junk.buf), junk.route, true);
    ParsedKey(l.cfgs[x].host, packet, junk.buf, junk.route, true);
    hide ParseAddr;
    InRoutesIsInKeys(src, d.local);
    var local' := d.local + [src];
    assert local'[|d.local|] == src && KeyOf(src) in Keys(local');
  }

  lemma ReadHops(l: Link, s: State, m: Move)
    requires LinkInv(l, s) && HopInv(l, s) && m.Read? && Enabled(s, m) && Parseable(l.cfgs[0].host, m.packet)
    ensures HopInv(l, Apply(l, s, m))
  {
    hide Apply;
    hide RoutePacket;
    hide TunRead;
    hide ParseAddr;
    hide AesEncrypt;
    hide AesDecrypt;
    hide Connected;
    var x := m.x;
    var s' := Apply(l, s, m);
    ReadEffect(l, s, m);
    ReadSendsOne(l, s.daemons[x], x, m.packet, m.junk);
    ReadLearns(l, s.daemons[x], x, m.packet, m.junk);
    SealedOpens(l, m.packet);
    KeysGrow(s.daemons[x].local, s'.daemons[x].local);
    forall y, k | 0 <= y < 2 && 0 <= k < |s'.queues[y]| ensures TransitInv(l, s', y, s'.queues[y][k]) {
      if k < |s.queues[y]| {
        assert TransitInv(l, s, y, s.queues[y][k]);
      }
    }
  }

  /** A packet is sent back only when its destination is someone else's. */
  lemma BounceMeansElsewhere(l: Link, s: State, x: nat, junk: Junk)
    requires LinkInv(l, s) && x < 2 && s.queues[x] != []
    requires Bounces(l, s, x, junk) && Parseable(l.cfgs[0].host, PacketIn(l, s.queues[x][0].frame))
    ensures var key := DestinationKey(l.cfgs[0].host, PacketIn(l, s.queues[x][0].frame));
      && l.ends[x] < |s.daemons[x].slots|
      && key in Keys(s.daemons[x].slots[l.ends[x]].routes) && key !in Keys(s.daemons[x].local)
  {
    hide PacketIn;
    hide IsSealed;
    var h, packet := l.cfgs[x].host, PacketIn(l, s.queues[x][0].frame);
    var dst := ParseAddr(h, InBuffer(packet, junk.buf), junk.route, false);
    ParsedKey(h, packet, junk.buf, junk.route, false);
    hide ParseAddr;
    SoleOwner(l, s.daemons[x], x, dst);
    InRoutesIsInKeys(dst, s.daemons[x].local);
  }

  /** What is learned on arrival is local somewhere, and what is local stays as it is. */
  lemma ArriveLearns(l: Link, s: State, m: Move)
    requires LinkInv(l, s) && HopInv(l, s) && m.Arrive? && Enabled(s, m)
    ensures var s' := Apply(l, s, m);
      && LocalKeys(s') == LocalKeys(s)
      && (forall y :: 0 <= y < 2 ==>
            && s'.daemons[y].local == s.daemons[y].local
            && l.ends[y] < |s'.daemons[y].slots| && Keys(s'.daemons[y].slots[l.ends[y]].routes) <= LocalKeys(s))
  {
    hide Apply;
    hide RoutePacket;
    hide PacketIn;
    hide Connected;
    hide Bounces;
    hide IsSealed;
    hide SourceKey;
    hide DestinationKey;
    var x, t := m.x, s.queues[m.x][0];
    var packet := PacketIn(l, t.frame);
    assert TransitInv(l, s, x, t);
    ArriveEffect(l, s, m);
    ArrivalHasOneOutput(l, s.daemons[x], x, packet, m.junk);
    ArrivalLearns(l, s.daemons[x], x, packet, m.junk);
  }

  /** A packet that is sent back has crossed once, and its second crossing takes it to where its
      destination is local. */
  lemma BounceHops(l: Link, s: State, m: Move)
    requires LinkInv(l, s) && HopInv(l, s) && m.Arrive? && Enabled(s, m) && Bounces(l, s, m.x, m.junk)
    ensures var t := s.queues[m.x][0];
      && t.hops == 1
      && TransitInv(l, s, 1 - m.x, Transit(t.id, 2, Sealed(l, PacketIn(l, t.frame))))
  {
    hide PacketIn;
    hide Sealed;
    hide IsSealed;
    hide Connected;
    hide Bounces;
    hide SourceKey;
    hide DestinationKey;
    hide Parseable;
    var t := s.queues[m.x][0];
    assert TransitInv(l, s, m.x, t);
    BounceMeansElsewhere(l, s, m.x, m.junk);
    SealedOpens(l, PacketIn(l, t.frame));
  }

  lemma ArriveHops(l: Link, s: State, m: Move)
    requires LinkInv(l, s) && HopInv(l, s) && m.Arrive? && Enabled(s, m)
    ensures HopInv(l, Apply(l, s, m))
    ensures Bounces(l, s, m.x, m.junk) ==> s.queues[m.x][0].hops == 1
  {
    hide Apply;
    hide RoutePacket;
    hide PacketIn;
    hide Sealed;
    hide Connected;
    hide Bounces;
    hide IsSealed;
    hide LocalKeys;
    hide Parseable;
    hide TransitInv;
    var x := m.x;
    var s' := Apply(l, s, m);
    ArriveEffect(l, s, m);
    ArriveLearns(l, s, m);
    if Bounces(l, s, x, m.junk) {
      BounceHops(l, s, m);
    }
    forall y, k | 0 <= y < 2 && 0 <= k < |s'.queues[y]| ensures TransitInv(l, s', y, s'.queues[y][k]) {
      var k' := if y == x then k + 1 else k;
      var t := if k' < |s.queues[y]| then s.queues[y][k'] else s'.queues[y][k];
      assert s'.queues[y][k] == t;
      assert TransitInv(l, s, y, t);
      TransitKeeps(l, s, s', y, t);
    }
  }

  lemma TransitKeeps(l: Link, s: State, s': State, y: nat, t: Transit)
    requires |l.cfgs| == 2 && Shape(s) && Shape(s')
    requires LocalKeys(s') == LocalKeys(s) && y < 2 && s'.daemons[y].local == s.daemons[y].local
    requires TransitInv(l, s, y, t)
    ensures TransitInv(l, s', y, t)
  {
  }

  /** Whatever an arrival teaches a daemon is the source of the packet. */
  lemma ArrivalLearns(l: Link, d: Daemon, x: nat, packet: Packet, junk: Junk)
    requires |l.cfgs| == 2 && |l.ends| == 2 && x < 2 && l.ends[x] < |d.slots| && Parseable(l.cfgs[x].host, packet)
    ensures var d' := RoutePacket(l.cfgs[x], d, l.ends[x], packet, junk).daemon;
      && l.ends[x] < |d'.slots|
      && Keys(d'.slots[l.ends[x]].routes) <= Keys(d.slots[l.ends[x]].routes) + {SourceKey(l.cfgs[x].host, packet)}
  {
    var buf := InBuffer(packet, junk.buf);
    var dst := ParseAddr(l.cfgs[x].host, buf, junk.route, false);
    var src := ParseAddr(l.cfgs[x].host, buf, dst, true);
    ParsedKey(l.cfgs[x].host, packet, junk.buf, dst, true);
    hide ParseAddr;
    hide InRoutes;
    hide Broadcast;
    var rs := d.slots[l.ends[x]].routes;
    forall k | k in Keys(rs + [src]) ensures k in Keys(rs) + {KeyOf(src)} {
      var i :| 0 <= i < |rs + [src]| && k == KeyOf((rs + [src])[i]);
      assert i < |rs| ==> k == KeyOf(rs[i]);
    }
  }

  lemma StartHops(l: Link, s: State)
    requires Init(l, s) && AllParseable(l.cfgs[0].host, s.read)
    ensures HopInv(l, s)
  {
    hide IsSealed;
    hide PacketIn;
    hide Parseable;
    hide LocalKeys;
    ConnectedEnds(l, s, 0);
    ConnectedEnds(l, s, 1);
    hide Connected;
    var carried := |Carried(l, s.queues[0])|;
    forall x, k | 0 <= x < 2 && 0 <= k < |s.queues[x]| ensures TransitInv(l, s, x, s.queues[x][k]) {
      assert InitialTransit(l, s, s.queues[x][k]);
      assert s.read[if x == 0 then k else carried + k].packet == PacketIn(l, s.queues[x][k].frame);
    }
  }

  /** When every packet read so far is parseable, so is every packet in flight. */
  lemma {:induction false} RunHops(l: Link, run: seq<State>, moves: seq<Move>, i: nat)
    requires IsRun(l, run, moves) && i < |run| && AllParseable(l.cfgs[0].host, run[i].read)
    ensures LinkInv(l, run[i]) && HopInv(l, run[i])
  {
    hide Apply;
    hide Connected;
    hide TransitInv;
    hide AllParseable;
    hide IsSealed;
    hide Conserved;
    RunConserves(l, run, moves, i);
    if i == 0 {
      StartHops(l, run[0]);
    } else {
      var s, m := run[i - 1], moves[i - 1];
      assert Steps(l, s, m, run[i - 1 + 1]);
      RunConserves(l, run, moves, i - 1);
      MoveReads(l, s, m);
      RunHops(l, run, moves, i - 1);
      if m.Read? {
        ReadHops(l, s, m);
      } else {
        ArriveHops(l, s, m);
      }
    }
  }

  lemma MoveReads(l: Link, s: State, m: Move)
    requires LinkInv(l, s) && Enabled(s, m) && (m.Arrive? ==> l.ends[m.x] < |s.daemons[m.x].slots|)
    requires AllParseable(l.cfgs[0].host, Apply(l, s, m).read)
    ensures AllParseable(l.cfgs[0].host, s.read) && (m.Read? ==> Parseable(l.cfgs[0].host, m.packet))
  {
    hide Apply;
    hide RoutePacket;
    hide TunRead;
    hide PacketIn;
    hide Sealed;
    hide IsSealed;
    hide Connected;
    hide Bounces;
    hide Parseable;
    var read' := Apply(l, s, m).read;
    if m.Read? {
      ReadEffect(l, s, m);
      assert read'[|s.read|] == Record(|s.read|, m.packet);
      assert forall k :: 0 <= k < |s.read| ==> read'[k] == s.read[k];
    } else {
      ArriveEffect(l, s, m);
    }
  }

  /** Main result: no packet crosses the link more than twice, and one that crosses twice ends
      at a daemon to which its destination is local. */
  lemma AtMostTwoCrossings(l: Link, run: seq<State>, moves: seq<Move>, i: nat, x: nat, k: nat)
    requires IsRun(l, run, moves) && i < |run| && AllParseable(l.cfgs[0].host, run[i].read)
    requires Shape(run[i]) && x < 2 && k < |run[i].queues[x]|
    ensures var t := run[i].queues[x][k];
            var packet := PacketIn(l, t.frame);
      && Parseable(l.cfgs[0].host, packet)
      && 1 <= t.hops <= 2
      && (t.hops == 2 ==> DestinationKey(l.cfgs[0].host, packet) in Keys(run[i].daemons[x].local))
  {
    RunHops(l, run, moves, i);
    assert TransitInv(l, run[i], x, run[i].queues[x][k]);
  }

  /** How many arrivals the packets of a queue can still cause. */
  function ArrivalsLeft(q: seq<Transit>): nat {
    if q == [] then 0 else (if q[0].hops == 1 then 2 else 1) + ArrivalsLeft(q[1..])
  }

  lemma {:induction false} ArrivalsLeftSnoc(q: seq<Transit>, t: Transit)
    ensures ArrivalsLeft(q + [t]) == ArrivalsLeft(q) + if t.hops == 1 then 2 else 1
  {
    if q == [] {
      assert q + [t] == [t];
    } else {
      ArrivalsLeftSnoc(q[1..], t);
      assert (q + [t])[1..] == q[1..] + [t];
    }
  }

  function CountArrivals(moves: seq<Move>): nat {
    if moves == [] then 0
    else CountArrivals(moves[..|moves| - 1]) + if moves[|moves| - 1].Arrive? then 1 else 0
  }

  /** Main result: deliveries die out. At every moment of every run the arrivals so far, together
      with those the packets in flight can still cause, are at most twice the packets read; so
      without further reads every run stops, with every packet written. */
  lemma {:induction false} DeliveriesTerminate(l: Link, run: seq<State>, moves: seq<Move>, i: nat)
    requires IsRun(l, run, moves) && i < |run| && AllParseable(l.cfgs[0].host, run[i].read)
    ensures var s := run[i];
      && Shape(s)
      && CountArrivals(moves[..i]) + ArrivalsLeft(s.queues[0]) + ArrivalsLeft(s.queues[1]) <= 2 * |s.read|
  {
    hide IsRun;
    hide LinkInv;
    hide Conserved;
    RunStarts(l, run, moves);
    if i == 0 {
      StartLeaves(l, run[0]);
    } else {
      MoveUsesUp(l, run, moves, i - 1);
      DeliveriesTerminate(l, run, moves, i - 1);
      assert moves[..i][..i - 1] == moves[..i - 1];
    }
  }

  lemma {:induction false} ArrivalsLeftOf(q: seq<Transit>)
    requires forall k :: 0 <= k < |q| ==> q[k].hops == 1
    ensures ArrivalsLeft(q) == 2 * |q|
  {
    if q != [] {
      ArrivalsLeftOf(q[1..]);
    }
  }

  lemma StartLeaves(l: Link, s: State)
    requires Init(l, s)
    ensures ArrivalsLeft(s.queues[0]) + ArrivalsLeft(s.queues[1]) == 2 * |s.read|
  {
    hide Connected;
    hide IsSealed;
    hide PacketIn;
    forall x, k | 0 <= x < 2 && 0 <= k < |s.queues[x]| ensures s.queues[x][k].hops == 1 {
      assert InitialTransit(l, s, s.queues[x][k]);
    }
    ArrivalsLeftOf(s.queues[0]);
    ArrivalsLeftOf(s.queues[1]);
  }

  lemma RunStarts(l: Link, run: seq<State>, moves: seq<Move>)
    requires IsRun(l, run, moves)
    ensures |run| == |moves| + 1 && Init(l, run[0])
  {
  }

  lemma MoveUsesUp(l: Link, run: seq<State>, moves: seq<Move>, i: nat)
    requires IsRun(l, run, moves) && i < |moves| && AllParseable(l.cfgs[0].host, run[i + 1].read)
    ensures var s, s' := run[i], run[i + 1];
      && Shape(s) && Shape(s') && AllParseable(l.cfgs[0].host, s.read)
      && var before := ArrivalsLeft(s.queues[0]) + ArrivalsLeft(s.queues[1]);
         var after := ArrivalsLeft(s'.queues[0]) + ArrivalsLeft(s'.queues[1]);
         if moves[i].Arrive? then after < before && |s'.read| == |s.read|
         else after == before + 2 && |s'.read| == |s.read| + 1
  {
    hide Apply;
    hide RoutePacket;
    hide ParseAddr;
    hide AesEncrypt;
    hide AesDecrypt;
    hide Connected;
    hide TransitInv;
    var s, m := run[i], moves[i];
    assert Steps(l, s, m, run[i + 1]);
    RunConserves(l, run, moves, i);
    MoveReads(l, s, m);
    if m.Read? {
      ReadEffect(l, s, m);
      ArrivalsLeftSnoc(s.queues[1 - m.x], Transit(|s.read|, 1, Sealed(l, m.packet)));
    } else {
      var t := s.queues[m.x][0];
      ArriveEffect(l, s, m);
      RunHops(l, run, moves, i);
      ArriveHops(l, s, m);
      ArrivalsLeftSnoc(s.queues[1 - m.x], Transit(t.id, t.hops + 1, Sealed(l, PacketIn(l, t.frame))));
    }
  }
}
