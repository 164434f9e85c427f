/** A server (the hub) with any number of clients, each over one authenticated connection.

    The hub learns the source of a packet only when the destination is local to the hub, and a
    client sends a packet back when it has learned its destination from the hub. So what happens
    to a packet depends on who knows its destination. This module follows the packets for one
    destination, and says exactly when they die out and when they circulate for ever. */
module Star {
  import opened Protocol
  import opened Framing
  import opened Cipher
  import opened Routes
  import opened PacketHeader
  import opened Router
  import opened Wrappers
  import Session
  import Learning

  /** `ends[c]` is the element client `c` uses for the hub; the hub uses element `c` for client
      `c`. Elements of the hub may be dead. */
  datatype Wiring = Wiring(hub: Config, clients: seq<Config>, ends: seq<nat>, keys: seq<SessionKey>)

  datatype Transit = Transit(hops: nat, frame: Frame)

  /** `up[c]` holds the frames on their way from client `c` to the hub, `down[c]` those on their
      way back. */
  datatype State = State(hub: Daemon, clients: seq<Daemon>, up: seq<seq<Transit>>, down: seq<seq<Transit>>)

  datatype Move =
    | HubRead(packet: Packet, junk: Junk)
    | Read(c: nat, packet: Packet, junk: Junk)
    | ArriveAtHub(c: nat, junk: Junk)
    | ArriveAtClient(c: nat, junk: Junk)

  /** The connection of client `c`, as a session between the client (side 0) and the hub. */
  function LinkOf(w: Wiring, c: nat): Session.Link
    requires c < |w.clients| == |w.ends| == |w.keys|
  {
    Session.Link([w.clients[c], w.hub], [w.ends[c], 0], w.keys[c])
  }

  predicate Shape(w: Wiring, s: State) {
    && |w.clients| == |w.ends| == |w.keys| == |s.clients|
    && |s.up| == |s.down| == |s.hub.slots| == |s.clients|
  }

  predicate Live(s: State, c: nat) {
    c < |s.hub.slots| && s.hub.slots[c].alive
  }

  /** Both ends of the connection hold its session key, and the hub is the client's only peer. */
  ghost predicate ClientInv(w: Wiring, s: State, c: nat)
    requires Shape(w, s) && c < |s.clients|
  {
    var slot := s.hub.slots[c];
    && Session.ValidLink(LinkOf(w, c))
    && Session.Connected(LinkOf(w, c), s.clients[c], 0)
    && slot.authenticated && slot.stage.Receiving?
    && slot.encCtx.Some? && slot.encCtx.value.value == w.keys[c] && slot.decCtx == slot.encCtx
  }

  function PacketOf(w: Wiring, c: nat, t: Transit): Packet
    requires c < |w.clients| == |w.ends| == |w.keys|
  {
    Session.PacketIn(LinkOf(w, c), t.frame)
  }

  /** The frame is a complete packet, under the key of the connection. */
  predicate Carries(w: Wiring, c: nat, t: Transit)
    requires c < |w.clients| == |w.ends| == |w.keys|
  {
    Session.IsSealed(LinkOf(w, c), t.frame) && Parseable(w.hub.host, PacketOf(w, c, t))
  }

  predicate IsFor(w: Wiring, d: Key, packet: Packet) {
    Parseable(w.hub.host, packet) && DestinationKey(w.hub.host, packet) == d
  }

  /** All connections are as they should be, and all frames are packets. */
  ghost predicate Links(w: Wiring, s: State) {
    && Shape(w, s)
    && (forall c :: 0 <= c < |s.clients| && Live(s, c) ==> ClientInv(w, s, c))
    && (forall c :: 0 <= c < |s.clients| && !Live(s, c) ==> s.up[c] == [] && s.down[c] == [])
    && (forall c, k :: 0 <= c < |s.clients| && 0 <= k < |s.up[c]| ==> Carries(w, c, s.up[c][k]))
    && (forall c, k :: 0 <= c < |s.clients| && 0 <= k < |s.down[c]| ==> Carries(w, c, s.down[c][k]))
  }

  /** Every packet in flight is for `d`. */
  predicate OnlyFor(w: Wiring, d: Key, s: State)
    requires Shape(w, s)
  {
    && (forall c, k :: 0 <= c < |s.clients| && 0 <= k < |s.up[c]| ==> IsFor(w, d, PacketOf(w, c, s.up[c][k])))
    && (forall c, k :: 0 <= c < |s.clients| && 0 <= k < |s.down[c]| ==> IsFor(w, d, PacketOf(w, c, s.down[c][k])))
  }

  ghost predicate Inv(w: Wiring, d: Key, s: State) {
    Links(w, s) && OnlyFor(w, d, s)
  }

  /** The moves of the daemons, with complete packets of every kind. */
  predicate Possible(w: Wiring, s: State, m: Move) {
    && Shape(w, s)
    && match m
       case HubRead(packet, _) => 0 < |packet| < FRAME_PAYLOAD_MAXSIZE && Parseable(w.hub.host, packet)
       case Read(c, packet, _) =>
         Live(s, c) && 0 < |packet| < FRAME_PAYLOAD_MAXSIZE && Parseable(w.hub.host, packet)
       case ArriveAtHub(c, _) => Live(s, c) && s.up[c] != []
       case ArriveAtClient(c, _) => Live(s, c) && s.down[c] != [] && w.ends[c] < |s.clients[c].slots|
  }

  /** The same with packets for `d` only, none of which has `d` as its source. */
  predicate Enabled(w: Wiring, d: Key, s: State, m: Move) {
    && Possible(w, s, m)
    && (m.HubRead? || m.Read? ==> IsFor(w, d, m.packet) && SourceKey(w.hub.host, m.packet) != d)
  }

  /** The frames among the outputs of a step that go to element `j`. */
  function SentTo(outs: seq<Out>, j: nat, hops: nat): seq<Transit> {
    if outs == [] then [] else SentBy(outs[0], j, hops) + SentTo(outs[1..], j, hops)
  }

  function SentBy(o: Out, j: nat, hops: nat): seq<Transit> {
    if o.ToPeer? && o.slot == j then [Transit(hops, o.frame)] else []
  }

  function Push(down: seq<seq<Transit>>, outs: seq<Out>, hops: nat): seq<seq<Transit>> {
    seq(|down|, j requires 0 <= j < |down| => down[j] + SentTo(outs, j, hops))
  }

  function Apply(w: Wiring, s: State, m: Move): State
    requires Possible(w, s, m)
  {
    match m
    case HubRead(packet, junk) =>
      var st := TunRead(w.hub, s.hub, packet, junk);
      s.(hub := st.daemon, down := Push(s.down, st.outs, 1))
    case Read(c, packet, junk) =>
      var st := TunRead(w.clients[c], s.clients[c], packet, junk);
      s.(clients := s.clients[c := st.daemon], up := s.up[c := s.up[c] + SentTo(st.outs, w.ends[c], 1)])
    case ArriveAtHub(c, junk) =>
      var t := s.up[c][0];
      var st := ProcessFrame(w.hub, s.hub, c, t.frame, junk);
      s.(hub := st.daemon, up := s.up[c := s.up[c][1..]], down := Push(s.down, st.outs, t.hops + 1))
    case ArriveAtClient(c, junk) =>
      var t := s.down[c][0];
      var st := ProcessFrame(w.clients[c], s.clients[c], w.ends[c], t.frame, junk);
      s.(clients := s.clients[c := st.daemon], down := s.down[c := s.down[c][1..]],
         up := s.up[c := s.up[c] + SentTo(st.outs, w.ends[c], t.hops + 1)])
  }

  // ---------------------------------------------------------------- who knows the destination

  predicate LocalToHub(s: State, d: Key) {
    d in Keys(s.hub.local)
  }

  /** Client `c` sends packets for `d` back to the hub: `d` is not local to it, and it has learned
      `d` from the hub. */
  predicate SendsBack(w: Wiring, s: State, d: Key, c: nat)
    requires Shape(w, s)
  {
    && Live(s, c) && w.ends[c] < |s.clients[c].slots|
    && d !in Keys(s.clients[c].local) && d in Keys(s.clients[c].slots[w.ends[c]].routes)
  }

  /** The hub does not take packets for `d` itself, and either passes them to a client that sends
      them back, or to all clients when two of them send them back. */
  ghost predicate Trapped(w: Wiring, s: State, d: Key)
    requires Shape(w, s)
  {
    && !LocalToHub(s, d)
    && match OwnerOf(s.hub.slots, d, 0)
       case Some(a) => SendsBack(w, s, d, a)
       case None => exists b, c :: b != c && SendsBack(w, s, d, b) && SendsBack(w, s, d, c)
  }

  /** Nothing about `d` differs. */
  ghost predicate SameKnowledge(w: Wiring, s: State, s': State, d: Key)
    requires Shape(w, s)
  {
    && Shape(w, s')
    && (LocalToHub(s', d) <==> LocalToHub(s, d))
    && (!LocalToHub(s, d) ==> OwnerOf(s'.hub.slots, d, 0) == OwnerOf(s.hub.slots, d, 0))
    && (forall c :: 0 <= c < |s.clients| ==> (Live(s', c) <==> Live(s, c)))
    && (forall c :: 0 <= c < |s.clients| ==> (SendsBack(w, s', d, c) <==> SendsBack(w, s, d, c)))
  }

  // ---------------------------------------------------------------- what a step does

  function SealedFor(w: Wiring, c: nat, packet: Packet): Frame
    requires c < |w.clients| == |w.ends| == |w.keys|
  {
    Session.Sealed(LinkOf(w, c), packet)
  }

  lemma HubSeals(w: Wiring, s: State, c: nat, packet: Packet)
    requires Shape(w, s) && c < |s.clients| && (Live(s, c) ==> ClientInv(w, s, c))
    ensures Seal(w.hub, s.hub.slots[c], packet) == if Live(s, c) then [SealedFor(w, c, packet)] else []
  {
    hide AesEncrypt;
  }

  lemma {:induction false} SentToAppend(a: seq<Out>, b: seq<Out>, j: nat, hops: nat)
    ensures SentTo(a + b, j, hops) == SentTo(a, j, hops) + SentTo(b, j, hops)
  {
    hide SentBy;
    if a == [] {
      assert a + b == b;
    } else {
      SentToAppend(a[1..], b, j, hops);
      assert (a + b)[1..] == a[1..] + b;
      Regroup(SentBy(a[0], j, hops), SentTo(a[1..], j, hops), SentTo(b, j, hops));
    }
  }

  lemma SentToClient(w: Wiring, s: State, packet: Packet, i: nat, j: nat, hops: nat)
    requires Shape(w, s) && i < |s.clients| && (Live(s, i) ==> ClientInv(w, s, i))
    ensures SentTo(SendTo(w.hub, s.hub.slots, i, packet), j, hops)
            == if i == j && Live(s, j) then [Transit(hops, SealedFor(w, j, packet))] else []
  {
    hide ClientInv;
    hide Seal;
    hide SealedFor;
    HubSeals(w, s, i, packet);
    var outs := SendTo(w.hub, s.hub.slots, i, packet);
    assert outs != [] ==> outs[1..] == [];
  }

  /** What reaches client `j` of a broadcast. */
  lemma {:induction false} BroadcastReaching(w: Wiring, s: State, packet: Packet, exclude: Option<nat>,
                                             i: nat, j: nat, hops: nat)
    requires Shape(w, s) && j < |s.clients|
    requires forall c :: 0 <= c < |s.clients| && Live(s, c) ==> ClientInv(w, s, c)
    ensures SentTo(BroadcastFrom(w.hub, s.hub.slots, packet, exclude, i), j, hops)
            == if i <= j && exclude != Some(j) && Live(s, j) then [Transit(hops, SealedFor(w, j, packet))] else []
    decreases |s.clients| - i
  {
    hide ClientInv;
    hide SealedFor;
    hide SentTo;
    hide BroadcastFrom;
    hide SendTo;
    BroadcastRound(w, s, packet, exclude, i, j, hops);
    if i < |s.clients| {
      BroadcastReaching(w, s, packet, exclude, i + 1, j, hops);
      SentToClient(w, s, packet, i, j, hops);
    }
  }

  lemma BroadcastRound(w: Wiring, s: State, packet: Packet, exclude: Option<nat>, i: nat, j: nat, hops: nat)
    requires Shape(w, s)
    ensures SentTo(BroadcastFrom(w.hub, s.hub.slots, packet, exclude, i), j, hops)
            == if i >= |s.clients| then []
               else (if exclude == Some(i) then [] else SentTo(SendTo(w.hub, s.hub.slots, i, packet), j, hops))
                    + SentTo(BroadcastFrom(w.hub, s.hub.slots, packet, exclude, i + 1), j, hops)
  {
    hide SendTo;
    if i < |s.clients| {
      var head := if exclude == Some(i) then [] else SendTo(w.hub, s.hub.slots, i, packet);
      SentToAppend(head, BroadcastFrom(w.hub, s.hub.slots, packet, exclude, i + 1), j, hops);
    }
  }

  /** Whether the hub, when it looks at its peers, sends a packet for `d` to client `j`. */
  predicate HubSends(s: State, d: Key, from: Option<nat>, j: nat) {
    match OwnerOf(s.hub.slots, d, 0)
    case Some(a) => j == a
    case None => Live(s, j) && from != Some(j)
  }

  function Copy(w: Wiring, c: nat, packet: Packet, hops: nat): Transit
    requires c < |w.clients| == |w.ends| == |w.keys|
  {
    Transit(hops, SealedFor(w, c, packet))
  }

  lemma CopyCarries(w: Wiring, s: State, d: Key, c: nat, packet: Packet, hops: nat)
    requires Shape(w, s) && c < |s.clients| && ClientInv(w, s, c) && IsFor(w, d, packet)
    ensures var t := Copy(w, c, packet, hops);
            t.hops == hops && PacketOf(w, c, t) == packet && Carries(w, c, t)
  {
    Session.SealedOpens(LinkOf(w, c), packet);
  }

  /** The frames that the hub sends to each client for a destination with key `d`. */
  lemma HubSending(w: Wiring, d: Key, s: State, dst: Route, packet: Packet, from: Option<nat>, j: nat, hops: nat)
    requires Links(w, s) && KeyOf(dst) == d && j < |s.clients|
    ensures var o := Owner(s.hub, dst);
            var outs := if o.Some? then SendTo(w.hub, s.hub.slots, o.value, packet)
                        else Broadcast(w.hub, s.hub, packet, from);
      SentTo(outs, j, hops) == if HubSends(s, d, from, j) then [Copy(w, j, packet, hops)] else []
  {
    hide ClientInv;
    hide Carries;
    hide Seal;
    hide SealedFor;
    OwnerByKey(s.hub.slots, dst, 0);
    var o := Owner(s.hub, dst);
    if o.Some? {
      SentToClient(w, s, packet, o.value, j, hops);
    } else {
      BroadcastReaching(w, s, packet, from, 0, j, hops);
    }
  }

  lemma DestinationParses(w: Wiring, d: Key, packet: Packet, junk: Junk, route: Route)
    requires IsFor(w, d, packet)
    ensures KeyOf(ParseAddr(w.hub.host, InBuffer(packet, junk.buf), route, false)) == d
  {
    ParsedKey(w.hub.host, packet, junk.buf, route, false);
  }

  /** A packet for `d` that the hub routes is taken in if `d` is local, and sent on otherwise. */
  lemma HubRoutes(w: Wiring, d: Key, s: State, c: nat, packet: Packet, junk: Junk)
    requires Links(w, s) && Live(s, c) && IsFor(w, d, packet)
    ensures var st := RoutePacket(w.hub, s.hub, c, packet, junk);
      && (forall j, hops :: 0 <= j < |s.clients| ==>
            SentTo(st.outs, j, hops)
            == if !LocalToHub(s, d) && HubSends(s, d, Some(c), j) then [Copy(w, j, packet, hops)] else [])
      && (if LocalToHub(s, d) then OnlyRoutesDiffer(s.hub, st.daemon) else st.daemon == s.hub)
  {
    assert ClientInv(w, s, c);
    hide ParseAddr;
    hide InRoutes;
    hide ClientInv;
    hide Carries;
    hide Owner;
    hide Broadcast;
    hide SendTo;
    hide HubSends;
    var dst := ParseAddr(w.hub.host, InBuffer(packet, junk.buf), junk.route, false);
    DestinationParses(w, d, packet, junk, junk.route);
    InRoutesIsInKeys(dst, s.hub.local);
    forall j, hops | 0 <= j < |s.clients|
      ensures SentTo(RoutePacket(w.hub, s.hub, c, packet, junk).outs, j, hops)
              == if !LocalToHub(s, d) && HubSends(s, d, Some(c), j) then [Copy(w, j, packet, hops)] else []
    {
      HubSending(w, d, s, dst, packet, Some(c), j, hops);
      SentToAppend([ToTun(packet)], Broadcast(w.hub, s.hub, packet, Some(c)), j, hops);
      assert SentTo([ToTun(packet)], j, hops) == [];
    }
  }

  lemma HubOpens(w: Wiring, s: State, c: nat, t: Transit, junk: Junk)
    requires Links(w, s) && Live(s, c) && Carries(w, c, t)
    ensures ProcessFrame(w.hub, s.hub, c, t.frame, junk) == RoutePacket(w.hub, s.hub, c, PacketOf(w, c, t), junk)
  {
    hide AesDecrypt;
    hide RoutePacket;
    assert ClientInv(w, s, c);
  }

  lemma ArriveAtHubEffect(w: Wiring, d: Key, s: State, c: nat, junk: Junk)
    requires Links(w, s) && Possible(w, s, ArriveAtHub(c, junk)) && IsFor(w, d, PacketOf(w, c, s.up[c][0]))
    ensures var t := s.up[c][0];
            var s' := Apply(w, s, ArriveAtHub(c, junk));
      && s'.clients == s.clients && s'.up == s.up[c := s.up[c][1..]] && |s'.down| == |s.down|
      && (forall j :: 0 <= j < |s.clients| ==>
            s'.down[j] == s.down[j] + if !LocalToHub(s, d) && HubSends(s, d, Some(c), j)
                                      then [Copy(w, j, PacketOf(w, c, t), t.hops + 1)] else [])
      && (if LocalToHub(s, d) then OnlyRoutesDiffer(s.hub, s'.hub) else s'.hub == s.hub)
  {
    hide ProcessFrame;
    hide RoutePacket;
    hide ClientInv;
    hide HubSends;
    hide SentTo;
    hide Copy;
    hide PacketOf;
    var t := s.up[c][0];
    assert Carries(w, c, t);
    hide Carries;
    HubOpens(w, s, c, t, junk);
    HubRoutes(w, d, s, c, PacketOf(w, c, t), junk);
  }

  lemma HubReadEffect(w: Wiring, d: Key, s: State, packet: Packet, junk: Junk)
    requires Links(w, s) && Possible(w, s, HubRead(packet, junk)) && IsFor(w, d, packet)
    ensures var s' := Apply(w, s, HubRead(packet, junk));
      && s'.clients == s.clients && s'.up == s.up && |s'.down| == |s.down|
      && (forall j :: 0 <= j < |s.clients| ==>
            s'.down[j] == s.down[j] + if HubSends(s, d, None, j) then [Copy(w, j, packet, 1)] else [])
      && s'.hub.slots == s.hub.slots && Keys(s'.hub.local) == Keys(s.hub.local) + {SourceKey(w.hub.host, packet)}
  {
    hide ParseAddr;
    hide InRoutes;
    hide ClientInv;
    hide Carries;
    hide Owner;
    hide Broadcast;
    hide SendTo;
    hide HubSends;
    hide SentTo;
    hide Copy;
    var src := ParseAddr(w.hub.host, InBuffer(packet, junk.buf), junk.route, true);
    var dst := ParseAddr(w.hub.host, InBuffer(packet, junk.buf), src, false);
    DestinationParses(w, d, packet, junk, src);
    ReadLearnsSource(w.hub, s.hub, packet, junk);
    var s' := Apply(w, s, HubRead(packet, junk));
    OwnerIgnoresLocal(s.hub, s'.hub.local, dst);
    forall j | 0 <= j < |s.clients|
      ensures s'.down[j] == s.down[j] + if HubSends(s, d, None, j) then [Copy(w, j, packet, 1)] else []
    {
      HubSending(w, d, s, dst, packet, None, j, 1);
    }
  }

  lemma ReadLearnsSource(cfg: Config, d: Daemon, packet: Packet, junk: Junk)
    requires Parseable(cfg.host, packet)
    ensures Keys(TunRead(cfg, d, packet, junk).daemon.local) == Keys(d.local) + {SourceKey(cfg.host, packet)}
  {
    Learning.ReadLearns(cfg, d, packet, junk);
    Learning.CompleteView(cfg.host, packet, junk.buf);
  }

  lemma OwnerIgnoresLocal(h: Daemon, local: seq<Route>, r: Route)
    ensures Owner(h.(local := local), r) == Owner(h, r)
    ensures forall cfg, packet :: Broadcast(cfg, h.(local := local), packet, None) == Broadcast(cfg, h, packet, None)
  {
  }

  lemma SentToOne(i: nat, f: Frame, hops: nat)
    ensures SentTo([ToPeer(i, f)], i, hops) == [Transit(hops, f)]
    ensures forall packet :: SentTo([ToTun(packet)], i, hops) == []
  {
    forall o: Out ensures [o][1..] == [] {
    }
  }

  lemma ReadEffect(w: Wiring, s: State, c: nat, packet: Packet, junk: Junk)
    requires Links(w, s) && Possible(w, s, Read(c, packet, junk))
    ensures var s' := Apply(w, s, Read(c, packet, junk));
      && s'.hub == s.hub && s'.down == s.down && s'.up == s.up[c := s.up[c] + [Copy(w, c, packet, 1)]]
      && s'.clients == s.clients[c := s'.clients[c]] && s'.clients[c].slots == s.clients[c].slots
      && Keys(s'.clients[c].local) == Keys(s.clients[c].local) + {SourceKey(w.hub.host, packet)}
      && Session.Connected(LinkOf(w, c), s'.clients[c], 0)
  {
    hide TunRead;
    hide Carries;
    hide SentTo;
    assert ClientInv(w, s, c);
    var l := LinkOf(w, c);
    Session.ReadSendsOne(l, s.clients[c], 0, packet, junk);
    SentToOne(w.ends[c], Session.Sealed(l, packet), 1);
    ReadLearnsSource(w.clients[c], s.clients[c], packet, junk);
  }

  /** A client sends a packet for `d` back, or takes it in; it learns nothing from it unless `d` is
      local to it. */
  lemma ClientRoutes(w: Wiring, d: Key, s: State, c: nat, t: Transit, junk: Junk)
    requires Links(w, s) && Live(s, c) && Carries(w, c, t) && IsFor(w, d, PacketOf(w, c, t))
    ensures w.ends[c] < |s.clients[c].slots|
    ensures var packet := PacketOf(w, c, t);
            var st := ProcessFrame(w.clients[c], s.clients[c], w.ends[c], t.frame, junk);
      && st.outs == (if SendsBack(w, s, d, c) then [ToPeer(w.ends[c], SealedFor(w, c, packet))] else [ToTun(packet)])
      && st.daemon.local == s.clients[c].local
      && (if d in Keys(s.clients[c].local) then OnlyLonger(s.clients[c], st.daemon, w.ends[c])
          else st.daemon == s.clients[c])
      && Session.Connected(LinkOf(w, c), st.daemon, 0)
  {
    hide ParseAddr;
    hide InRoutes;
    hide Owner;
    hide ProcessFrame;
    assert ClientInv(w, s, c);
    var l := LinkOf(w, c);
    var packet := PacketOf(w, c, t);
    Session.ProcessSealed(l, s.clients[c], 0, t.frame, junk);
    Session.ArrivalHasOneOutput(l, s.clients[c], 0, packet, junk);
    hide Session.IsSealed;
    hide Session.PacketIn;
    var dst := ParseAddr(w.hub.host, InBuffer(packet, junk.buf), junk.route, false);
    DestinationParses(w, d, packet, junk, junk.route);
    InRoutesIsInKeys(dst, s.clients[c].local);
    Session.SoleOwner(l, s.clients[c], 0, dst);
  }

  /** The routes of element `i` have grown. */
  predicate OnlyLonger(d: Daemon, d': Daemon, i: nat) {
    |d'.slots| == |d.slots| && i < |d.slots| && d.slots[i].routes <= d'.slots[i].routes
  }

  lemma ArriveAtClientEffect(w: Wiring, d: Key, s: State, c: nat, junk: Junk)
    requires Links(w, s) && Possible(w, s, ArriveAtClient(c, junk)) && IsFor(w, d, PacketOf(w, c, s.down[c][0]))
    ensures var t := s.down[c][0];
            var s' := Apply(w, s, ArriveAtClient(c, junk));
      && s'.hub == s.hub && s'.down == s.down[c := s.down[c][1..]]
      && s'.up == s.up[c := s.up[c] + if SendsBack(w, s, d, c) then [Copy(w, c, PacketOf(w, c, t), t.hops + 1)] else []]
      && s'.clients == s.clients[c := s'.clients[c]] && s'.clients[c].local == s.clients[c].local
      && (if d in Keys(s.clients[c].local) then OnlyLonger(s.clients[c], s'.clients[c], w.ends[c])
          else s'.clients[c] == s.clients[c])
      && Session.Connected(LinkOf(w, c), s'.clients[c], 0)
  {
    hide ProcessFrame;
    hide SentTo;
    hide SendsBack;
    hide SealedFor;
    hide ClientInv;
    hide Session.Connected;
    hide PacketOf;
    hide IsFor;
    hide OnlyLonger;
    var t := s.down[c][0];
    assert Carries(w, c, t);
    hide Carries;
    ClientRoutes(w, d, s, c, t, junk);
    SentToOne(w.ends[c], SealedFor(w, c, PacketOf(w, c, t)), t.hops + 1);
  }

  // ---------------------------------------------------------------- runs

  ghost predicate Next(w: Wiring, d: Key, s: State, s': State) {
    exists m :: Enabled(w, d, s, m) && s' == Apply(w, s, m)
  }

  ghost predicate IsRun(w: Wiring, d: Key, run: seq<State>) {
    && run != [] && Inv(w, d, run[0])
    && forall i | 0 <= i < |run| - 1 :: Next(w, d, run[i], run[i + 1])
  }

  lemma HubKeepsClients(w: Wiring, s: State, s': State)
    requires Shape(w, s) && Shape(w, s') && s'.clients == s.clients && |s'.hub.slots| == |s.hub.slots|
    requires forall c :: 0 <= c < |s.clients| && Live(s, c) ==> ClientInv(w, s, c)
    requires forall c :: 0 <= c < |s.clients| ==> s'.hub.slots[c] == s.hub.slots[c].(routes := s'.hub.slots[c].routes)
    ensures forall c :: 0 <= c < |s.clients| && Live(s', c) ==> ClientInv(w, s', c)
  {
    hide Session.Connected;
    hide Session.ValidLink;
    forall c | 0 <= c < |s.clients| && Live(s', c) ensures ClientInv(w, s', c) {
      assert Live(s, c) && ClientInv(w, s, c);
    }
  }

  lemma ClientKeepsOthers(w: Wiring, s: State, s': State, c: nat)
    requires Shape(w, s) && s'.hub == s.hub && c < |s.clients| == |s'.clients|
    requires s'.clients == s.clients[c := s'.clients[c]]
    requires |s'.up| == |s.up| && |s'.down| == |s.down|
    requires forall k :: 0 <= k < |s.clients| && Live(s, k) ==> ClientInv(w, s, k)
    requires Session.Connected(LinkOf(w, c), s'.clients[c], 0)
    ensures forall k :: 0 <= k < |s.clients| && Live(s', k) ==> ClientInv(w, s', k)
    ensures Live(s, c) ==> w.ends[c] < |s'.clients[c].slots|
  {
    hide Session.ValidLink;
    forall k | 0 <= k < |s.clients| && Live(s', k) ensures ClientInv(w, s', k) {
      assert Live(s, k) && ClientInv(w, s, k);
    }
  }

  /** What a step adds to a queue is a copy of a packet for `d`, to a client that is there. */
  ghost predicate Grown(w: Wiring, d: Key, s: State, c: nat, q: seq<Transit>, q': seq<Transit>)
    requires Shape(w, s) && c < |s.clients|
  {
    || q' == q
    || exists t :: q' == q + [t] && Live(s, c) && Carries(w, c, t) && IsFor(w, d, PacketOf(w, c, t))
  }

  lemma HubCopies(w: Wiring, d: Key, s: State, from: Option<nat>, packet: Packet, hops: nat, j: nat)
    requires Links(w, s) && IsFor(w, d, packet) && j < |s.clients| && HubSends(s, d, from, j)
    ensures Live(s, j) && Grown(w, d, s, j, s.down[j], s.down[j] + [Copy(w, j, packet, hops)])
  {
    CopyCarries(w, s, d, j, packet, hops);
    hide ClientInv;
    hide Carries;
    hide PacketOf;
  }

  /** What every step keeps: each queue only loses its first frame or gains a copy at its end. */
  lemma QueuesKept(w: Wiring, d: Key, s: State, s': State)
    requires Links(w, s) && Shape(w, s') && forall c :: 0 <= c < |s.clients| ==> (Live(s', c) <==> Live(s, c))
    requires forall c :: 0 <= c < |s.clients| && Live(s', c) ==> ClientInv(w, s', c)
    requires forall c :: 0 <= c < |s.clients| ==>
      && (Grown(w, d, s, c, s.up[c], s'.up[c]) || (s.up[c] != [] && s'.up[c] == s.up[c][1..]))
      && (Grown(w, d, s, c, s.down[c], s'.down[c]) || (s.down[c] != [] && s'.down[c] == s.down[c][1..]))
    ensures Links(w, s') && (OnlyFor(w, d, s) ==> OnlyFor(w, d, s'))
  {
    hide ClientInv;
    hide Carries;
    hide PacketOf;
    hide IsFor;
    forall c, k | 0 <= c < |s.clients| && 0 <= k < |s'.up[c]|
      ensures Carries(w, c, s'.up[c][k]) && (OnlyFor(w, d, s) ==> IsFor(w, d, PacketOf(w, c, s'.up[c][k])))
    {
      QueueKept(w, d, s, c, s.up[c], s'.up[c], k);
    }
    forall c, k | 0 <= c < |s.clients| && 0 <= k < |s'.down[c]|
      ensures Carries(w, c, s'.down[c][k]) && (OnlyFor(w, d, s) ==> IsFor(w, d, PacketOf(w, c, s'.down[c][k])))
    {
      QueueKept(w, d, s, c, s.down[c], s'.down[c], k);
    }
  }

  lemma QueueKept(w: Wiring, d: Key, s: State, c: nat, q: seq<Transit>, q': seq<Transit>, k: nat)
    requires Shape(w, s) && c < |s.clients| && k < |q'|
    requires Grown(w, d, s, c, q, q') || (q != [] && q' == q[1..])
    requires forall i :: 0 <= i < |q| ==> Carries(w, c, q[i])
    ensures Carries(w, c, q'[k])
    ensures (forall i :: 0 <= i < |q| ==> IsFor(w, d, PacketOf(w, c, q[i]))) ==> IsFor(w, d, PacketOf(w, c, q'[k]))
  {
    hide Carries;
    hide PacketOf;
    hide IsFor;
    if q != [] && q' == q[1..] {
      assert q'[k] == q[k + 1];
    } else if k < |q| {
      assert q'[k] == q[k];
    }
  }

  lemma ArriveAtHubKeeps(w: Wiring, d: Key, s: State, c: nat, junk: Junk)
    requires Links(w, s) && Possible(w, s, ArriveAtHub(c, junk)) && IsFor(w, d, PacketOf(w, c, s.up[c][0]))
    ensures var s' := Apply(w, s, ArriveAtHub(c, junk));
            Links(w, s') && (OnlyFor(w, d, s) ==> OnlyFor(w, d, s')) && SameKnowledge(w, s, s', d)
  {
    hide Apply;
    hide Carries;
    hide Copy;
    hide IsFor;
    hide PacketOf;
    hide HubSends;
    var s' := Apply(w, s, ArriveAtHub(c, junk));
    var t := s.up[c][0];
    ArriveAtHubEffect(w, d, s, c, junk);
    HubKeepsClients(w, s, s');
    forall j | 0 <= j < |s.clients| && HubSends(s, d, Some(c), j)
      ensures Grown(w, d, s, j, s.down[j], s.down[j] + [Copy(w, j, PacketOf(w, c, t), t.hops + 1)])
    {
      HubCopies(w, d, s, Some(c), PacketOf(w, c, t), t.hops + 1, j);
    }
    hide ClientInv;
    QueuesKept(w, d, s, s');
  }

  lemma HubReadKeeps(w: Wiring, d: Key, s: State, packet: Packet, junk: Junk)
    requires Links(w, s) && Possible(w, s, HubRead(packet, junk)) && IsFor(w, d, packet)
    ensures var s' := Apply(w, s, HubRead(packet, junk));
      && Links(w, s') && (OnlyFor(w, d, s) ==> OnlyFor(w, d, s'))
      && (SourceKey(w.hub.host, packet) != d ==> SameKnowledge(w, s, s', d))
  {
    hide Apply;
    hide Carries;
    hide Copy;
    hide IsFor;
    hide PacketOf;
    hide HubSends;
    var s' := Apply(w, s, HubRead(packet, junk));
    HubReadEffect(w, d, s, packet, junk);
    HubKeepsClients(w, s, s');
    forall j | 0 <= j < |s.clients| && HubSends(s, d, None, j)
      ensures Grown(w, d, s, j, s.down[j], s.down[j] + [Copy(w, j, packet, 1)])
    {
      HubCopies(w, d, s, None, packet, 1, j);
    }
    hide ClientInv;
    QueuesKept(w, d, s, s');
  }

  lemma ClientCopies(w: Wiring, d: Key, s: State, packet: Packet, hops: nat, c: nat)
    requires Links(w, s) && IsFor(w, d, packet) && Live(s, c)
    ensures Grown(w, d, s, c, s.up[c], s.up[c] + [Copy(w, c, packet, hops)])
  {
    CopyCarries(w, s, d, c, packet, hops);
    hide ClientInv;
    hide Carries;
    hide PacketOf;
  }

  lemma ReadKeeps(w: Wiring, d: Key, s: State, c: nat, packet: Packet, junk: Junk)
    requires Links(w, s) && Possible(w, s, Read(c, packet, junk)) && IsFor(w, d, packet)
    ensures var s' := Apply(w, s, Read(c, packet, junk));
      && Links(w, s') && (OnlyFor(w, d, s) ==> OnlyFor(w, d, s'))
      && (SourceKey(w.hub.host, packet) != d ==> SameKnowledge(w, s, s', d))
  {
    hide Apply;
    hide Carries;
    hide Copy;
    hide IsFor;
    hide PacketOf;
    var s' := Apply(w, s, Read(c, packet, junk));
    ReadEffect(w, s, c, packet, junk);
    ClientCopies(w, d, s, packet, 1, c);
    ClientKeepsOthers(w, s, s', c);
    hide ClientInv;
    QueuesKept(w, d, s, s');
  }

  lemma ArriveAtClientKeeps(w: Wiring, d: Key, s: State, c: nat, junk: Junk)
    requires Links(w, s) && Possible(w, s, ArriveAtClient(c, junk)) && IsFor(w, d, PacketOf(w, c, s.down[c][0]))
    ensures var s' := Apply(w, s, ArriveAtClient(c, junk));
            Links(w, s') && (OnlyFor(w, d, s) ==> OnlyFor(w, d, s')) && SameKnowledge(w, s, s', d)
  {
    hide Apply;
    hide Carries;
    hide Copy;
    hide IsFor;
    hide PacketOf;
    var t := s.down[c][0];
    var s' := Apply(w, s, ArriveAtClient(c, junk));
    ArriveAtClientEffect(w, d, s, c, junk);
    ClientCopies(w, d, s, PacketOf(w, c, t), t.hops + 1, c);
    ClientKeepsOthers(w, s, s', c);
    hide ClientInv;
    assert s.up[c] + [] == s.up[c];
    QueuesKept(w, d, s, s');
  }

  /** A step with packets for `d` changes nothing about who knows `d`. */
  lemma StepKeeps(w: Wiring, d: Key, s: State, m: Move)
    requires Inv(w, d, s) && Enabled(w, d, s, m)
    ensures Inv(w, d, Apply(w, s, m)) && SameKnowledge(w, s, Apply(w, s, m), d)
  {
    AboutOne(w, d, s, m);
    hide Links;
    hide SameKnowledge;
    match m
    case HubRead(packet, junk) => HubReadKeeps(w, d, s, packet, junk);
    case Read(c, packet, junk) => ReadKeeps(w, d, s, c, packet, junk);
    case ArriveAtHub(c, junk) => ArriveAtHubKeeps(w, d, s, c, junk);
    case ArriveAtClient(c, junk) => ArriveAtClientKeeps(w, d, s, c, junk);
  }

  /** In such a state every move is about a packet for `d`. */
  lemma AboutOne(w: Wiring, d: Key, s: State, m: Move)
    requires Inv(w, d, s) && Enabled(w, d, s, m)
    ensures Links(w, s) && Possible(w, s, m)
    ensures m.ArriveAtHub? ==> IsFor(w, d, PacketOf(w, m.c, s.up[m.c][0]))
    ensures m.ArriveAtClient? ==> IsFor(w, d, PacketOf(w, m.c, s.down[m.c][0]))
  {
    hide ClientInv;
    hide Carries;
    hide IsFor;
    hide PacketOf;
  }

  lemma SameTrap(w: Wiring, s: State, s': State, d: Key)
    requires Shape(w, s) && SameKnowledge(w, s, s', d)
    ensures Trapped(w, s', d) <==> Trapped(w, s, d)
  {
    var o := OwnerOf(s.hub.slots, d, 0);
    assert o.Some? ==> o.value < |s.clients|;
    hide SendsBack;
    hide OwnerOf;
    hide LocalToHub;
  }

  lemma {:induction false} RunKeeps(w: Wiring, d: Key, run: seq<State>, i: nat)
    requires IsRun(w, d, run) && i < |run|
    ensures Inv(w, d, run[i]) && (Trapped(w, run[i], d) <==> Trapped(w, run[0], d))
  {
    if i > 0 {
      RunKeeps(w, d, run, i - 1);
      var m := MoveAt(w, d, run, i - 1);
      StepKeeps(w, d, run[i - 1], m);
      SameTrap(w, run[i - 1], run[i], d);
    }
  }

  lemma MoveAt(w: Wiring, d: Key, run: seq<State>, i: nat) returns (m: Move)
    requires IsRun(w, d, run) && i + 1 < |run|
    ensures Enabled(w, d, run[i], m) && run[i + 1] == Apply(w, run[i], m)
  {
    assert Next(w, d, run[i], run[i + 1]);
    m :| Enabled(w, d, run[i], m) && run[i + 1] == Apply(w, run[i], m);
  }

  // ---------------------------------------------------------------- trapped packets never die

  /** Some packet is where it cannot get lost: on its way to the hub, or to a client that sends
      it back. */
  ghost predicate Circulating(w: Wiring, s: State, d: Key)
    requires Shape(w, s)
  {
    exists c :: 0 <= c < |s.clients| && (s.up[c] != [] || (s.down[c] != [] && SendsBack(w, s, d, c)))
  }

  lemma TrappedStep(w: Wiring, d: Key, s: State, m: Move)
    requires Inv(w, d, s) && Enabled(w, d, s, m) && Trapped(w, s, d) && Circulating(w, s, d)
    ensures Shape(w, Apply(w, s, m)) && Circulating(w, Apply(w, s, m), d)
  {
    hide Apply;
    hide Inv;
    hide Links;
    hide PacketOf;
    hide Copy;
    hide SendsBack;
    var s' := Apply(w, s, m);
    StepKeeps(w, d, s, m);
    AboutOne(w, d, s, m);
    match m
    case HubRead(packet, junk) => HubReadEffect(w, d, s, packet, junk);
    case Read(c, packet, junk) =>
      ReadEffect(w, s, c, packet, junk);
      assert s'.up[c] != [];
    case ArriveAtHub(c, junk) =>
      ArriveAtHubEffect(w, d, s, c, junk);
      var b := TrapFor(w, s, d, c);
      assert HubSends(s, d, Some(c), b) && s'.down[b] != [];
    case ArriveAtClient(c, junk) =>
      ArriveAtClientEffect(w, d, s, c, junk);
      if SendsBack(w, s, d, c) {
        assert s'.up[c] != [];
      } else {
        var x: nat :| x < |s.clients| && (s.up[x] != [] || (s.down[x] != [] && SendsBack(w, s, d, x)));
        assert s'.up[x] != [] || (s'.down[x] != [] && SendsBack(w, s', d, x));
      }
  }

  /** Wherever a packet comes from, the hub sends it to a client that sends it back. */
  lemma TrapFor(w: Wiring, s: State, d: Key, c: nat) returns (b: nat)
    requires Shape(w, s) && Trapped(w, s, d)
    ensures b < |s.clients| && SendsBack(w, s, d, b) && HubSends(s, d, Some(c), b)
  {
    match OwnerOf(s.hub.slots, d, 0)
    case Some(a) => b := a;
    case None =>
      var x: nat, y: nat :| x != y && SendsBack(w, s, d, x) && SendsBack(w, s, d, y);
      b := if x == c then y else x;
  }

  lemma {:induction false} StaysCirculating(w: Wiring, d: Key, run: seq<State>, i: nat, j: nat)
    requires IsRun(w, d, run) && i <= j < |run| && Trapped(w, run[0], d)
    requires Shape(w, run[i]) && Circulating(w, run[i], d)
    ensures Shape(w, run[j]) && Circulating(w, run[j], d)
    decreases j
  {
    hide IsRun;
    hide Inv;
    hide Trapped;
    hide Circulating;
    if i < j {
      StaysCirculating(w, d, run, i, j - 1);
      RunKeeps(w, d, run, j - 1);
      var m := MoveAt(w, d, run, j - 1);
      TrappedStep(w, d, run[j - 1], m);
    }
  }

  /** Main result, one half: when the hub and its clients are trapped, a packet for `d` that is on
      its way to the hub, or to a client that sends it back, never dies. However many frames
      arrive, in whatever order, there is always another one to arrive. */
  lemma TrappedNeverDies(w: Wiring, d: Key, run: seq<State>, i: nat, j: nat)
    requires IsRun(w, d, run) && i <= j < |run| && Trapped(w, run[0], d)
    requires Shape(w, run[i]) && Circulating(w, run[i], d)
    ensures exists m :: IsArrival(m) && Enabled(w, d, run[j], m)
  {
    hide IsRun;
    hide Trapped;
    hide Circulating;
    hide Enabled;
    RunKeeps(w, d, run, j);
    StaysCirculating(w, d, run, i, j);
    CirculatingCanMove(w, d, run[j]);
  }

  predicate IsArrival(m: Move) {
    m.ArriveAtHub? || m.ArriveAtClient?
  }

  /** Any packet for `d` that a client reads starts circulating. */
  lemma ReadCirculates(w: Wiring, d: Key, s: State, m: Move)
    requires Inv(w, d, s) && Enabled(w, d, s, m) && m.Read?
    ensures Shape(w, Apply(w, s, m)) && Circulating(w, Apply(w, s, m), d)
  {
    hide Apply;
    AboutOne(w, d, s, m);
    hide Inv;
    hide Links;
    ReadEffect(w, s, m.c, m.packet, m.junk);
    assert Apply(w, s, m).up[m.c] != [];
  }

  lemma CirculatingCanMove(w: Wiring, d: Key, s: State)
    requires Inv(w, d, s) && Circulating(w, s, d)
    ensures exists m :: IsArrival(m) && Enabled(w, d, s, m)
  {
    hide ClientInv;
    hide Carries;
    var c :| 0 <= c < |s.clients| && (s.up[c] != [] || (s.down[c] != [] && SendsBack(w, s, d, c)));
    if s.up[c] != [] {
      assert Enabled(w, d, s, ArriveAtHub(c, ZEROED));
    } else {
      assert Enabled(w, d, s, ArriveAtClient(c, ZEROED));
    }
  }

  // ---------------------------------------------------------------- otherwise they die out

  /** A packet goes to the hub for the second time only from a client that sends it back, and to a
      client for the second time only if that client does not. */
  predicate HopsInv(w: Wiring, s: State, d: Key)
    requires Shape(w, s)
  {
    && (forall c, k :: 0 <= c < |s.clients| && 0 <= k < |s.up[c]| ==>
          s.up[c][k].hops <= 1 || (s.up[c][k].hops <= 3 && SendsBack(w, s, d, c)))
    && (forall c, k :: 0 <= c < |s.clients| && 0 <= k < |s.down[c]| ==>
          s.down[c][k].hops <= 2 || (s.down[c][k].hops <= 4 && !SendsBack(w, s, d, c)))
  }

  /** When nothing is trapped, a packet that the hub gets from a client that sends packets back
      goes only to clients that do not. */
  lemma NoSecondTrap(w: Wiring, s: State, d: Key, c: nat, j: nat)
    requires Shape(w, s) && !Trapped(w, s, d) && !LocalToHub(s, d)
    requires HubSends(s, d, Some(c), j) && SendsBack(w, s, d, c)
    ensures !SendsBack(w, s, d, j)
  {
  }

  lemma HopsStep(w: Wiring, d: Key, s: State, m: Move)
    requires Inv(w, d, s) && Enabled(w, d, s, m) && !Trapped(w, s, d) && HopsInv(w, s, d)
    ensures Shape(w, Apply(w, s, m)) && HopsInv(w, Apply(w, s, m), d)
  {
    hide Apply;
    hide Inv;
    hide SendsBack;
    hide HubSends;
    hide SealedFor;
    hide Trapped;
    hide Links;
    hide PacketOf;
    StepKeeps(w, d, s, m);
    AboutOne(w, d, s, m);
    match m
    case HubRead(packet, junk) => HubReadEffect(w, d, s, packet, junk);
    case Read(c, packet, junk) => ReadEffect(w, s, c, packet, junk);
    case ArriveAtHub(c, junk) =>
      ArriveAtHubEffect(w, d, s, c, junk);
      forall j | 0 <= j < |s.clients| && !LocalToHub(s, d) && HubSends(s, d, Some(c), j) && SendsBack(w, s, d, c)
        ensures !SendsBack(w, s, d, j)
      {
        NoSecondTrap(w, s, d, c, j);
      }
    case ArriveAtClient(c, junk) => ArriveAtClientEffect(w, d, s, c, junk);
  }

  /** Nothing in flight has crossed more than one link. */
  predicate StartsFresh(s: State) {
    && (forall c, k :: 0 <= c < |s.up| && 0 <= k < |s.up[c]| ==> s.up[c][k].hops <= 1)
    && (forall c, k :: 0 <= c < |s.down| && 0 <= k < |s.down[c]| ==> s.down[c][k].hops <= 1)
  }

  /** Main result, the hop bound: when nothing is trapped, no packet for `d` crosses more than four
      links, and only the last of these crossings is the fourth. */
  lemma {:induction false} UntrappedStaysShort(w: Wiring, d: Key, run: seq<State>, i: nat)
    requires IsRun(w, d, run) && i < |run| && !Trapped(w, run[0], d) && StartsFresh(run[0])
    ensures Shape(w, run[i]) && HopsInv(w, run[i], d)
    ensures forall c, k :: 0 <= c < |run[i].up| && 0 <= k < |run[i].up[c]| ==> run[i].up[c][k].hops <= 3
    ensures forall c, k :: 0 <= c < |run[i].down| && 0 <= k < |run[i].down[c]| ==> run[i].down[c][k].hops <= 4
  {
    RunKeeps(w, d, run, i);
    hide Inv;
    hide SendsBack;
    if i > 0 {
      hide IsRun;
      hide Trapped;
      UntrappedStaysShort(w, d, run, i - 1);
      RunKeeps(w, d, run, i - 1);
      var m := MoveAt(w, d, run, i - 1);
      HopsStep(w, d, run[i - 1], m);
    }
  }

  // ---------------------------------------------------------------- how many arrivals are left

  /** The lengths of the queues, weighted. */
  function Total(queues: seq<seq<Transit>>, weights: seq<nat>): nat
    requires |queues| == |weights|
  {
    if queues == [] then 0 else |queues[0]| * weights[0] + Total(queues[1..], weights[1..])
  }

  lemma {:induction false} TotalUpdate(queues: seq<seq<Transit>>, weights: seq<nat>, c: nat, q: seq<Transit>)
    requires c < |queues| == |weights|
    ensures Total(queues[c := q], weights) + |queues[c]| * weights[c] == Total(queues, weights) + |q| * weights[c]
  {
    if c == 0 {
      assert queues[c := q][1..] == queues[1..];
    } else {
      TotalUpdate(queues[1..], weights[1..], c - 1, q);
      assert queues[c := q][1..] == queues[1..][c - 1 := q];
    }
  }

  /** Every queue gets one frame longer at most, and only queues of weight `max` at most do. */
  lemma {:induction false} TotalGrows(queues: seq<seq<Transit>>, longer: seq<seq<Transit>>, weights: seq<nat>, max: nat)
    requires |queues| == |longer| == |weights|
    requires forall j :: 0 <= j < |queues| ==>
      |longer[j]| == |queues[j]| || (|longer[j]| == |queues[j]| + 1 && weights[j] <= max)
    ensures Total(longer, weights) <= Total(queues, weights) + |queues| * max
  {
    if queues != [] {
      TotalGrows(queues[1..], longer[1..], weights[1..], max);
      var n := |queues[0]|;
      assert (n + 1) * weights[0] == n * weights[0] + weights[0];
      assert |queues| * max == (|queues| - 1) * max + max;
    }
  }

  /** How many arrivals a frame to the hub can cause, with its own. */
  function UpWeight(w: Wiring, s: State, d: Key, c: nat): nat
    requires Shape(w, s)
  {
    var n := |s.clients|;
    if SendsBack(w, s, d, c) then n + 1 else n * (n + 2) + 1
  }

  function DownWeight(w: Wiring, s: State, d: Key, c: nat): nat
    requires Shape(w, s)
  {
    if SendsBack(w, s, d, c) then |s.clients| + 2 else 1
  }

  function UpWeights(w: Wiring, s: State, d: Key): seq<nat>
    requires Shape(w, s)
  {
    seq(|s.clients|, c requires 0 <= c < |s.clients| => UpWeight(w, s, d, c))
  }

  function DownWeights(w: Wiring, s: State, d: Key): seq<nat>
    requires Shape(w, s)
  {
    seq(|s.clients|, c requires 0 <= c < |s.clients| => DownWeight(w, s, d, c))
  }

  function ArrivalsLeft(w: Wiring, s: State, d: Key): nat
    requires Shape(w, s)
  {
    Total(s.up, UpWeights(w, s, d)) + Total(s.down, DownWeights(w, s, d))
  }

  lemma SameWeights(w: Wiring, s: State, s': State, d: Key)
    requires Shape(w, s) && SameKnowledge(w, s, s', d)
    ensures UpWeights(w, s', d) == UpWeights(w, s, d) && DownWeights(w, s', d) == DownWeights(w, s, d)
  {
    hide SendsBack;
    hide LocalToHub;
    hide OwnerOf;
  }

  lemma HubArrivalUsesUp(w: Wiring, d: Key, s: State, c: nat, junk: Junk)
    requires Inv(w, d, s) && Enabled(w, d, s, ArriveAtHub(c, junk)) && !Trapped(w, s, d)
    ensures var s' := Apply(w, s, ArriveAtHub(c, junk));
            Shape(w, s') && ArrivalsLeft(w, s', d) < ArrivalsLeft(w, s, d)
  {
    hide Apply;
    hide Inv;
    hide SendsBack;
    hide HubSends;
    hide Copy;
    hide Trapped;
    hide SameKnowledge;
    var s' := Apply(w, s, ArriveAtHub(c, junk));
    var n := |s.clients|;
    StepKeeps(w, d, s, ArriveAtHub(c, junk));
    AboutOne(w, d, s, ArriveAtHub(c, junk));
    hide Links;
    hide PacketOf;
    hide IsFor;
    hide OnlyRoutesDiffer;
    SameWeights(w, s, s', d);
    ArriveAtHubEffect(w, d, s, c, junk);
    var ups, downs := UpWeights(w, s, d), DownWeights(w, s, d);
    TotalUpdate(s.up, ups, c, s.up[c][1..]);
    OneLess(|s.up[c]|, ups[c]);
    var max := if SendsBack(w, s, d, c) then 1 else n + 2;
    DownGrows(w, d, s, c, junk, max);
    TotalGrows(s.down, s'.down, downs, max);
  }

  /** An arrival at the hub adds a copy at most to each queue, and to light ones only when it came
      from a client that sends back. */
  lemma DownGrows(w: Wiring, d: Key, s: State, c: nat, junk: Junk, max: nat)
    requires Inv(w, d, s) && Enabled(w, d, s, ArriveAtHub(c, junk)) && !Trapped(w, s, d)
    requires max == if SendsBack(w, s, d, c) then 1 else |s.clients| + 2
    ensures var s' := Apply(w, s, ArriveAtHub(c, junk));
      && |s'.down| == |s.down|
      && forall j :: 0 <= j < |s.clients| ==>
           || |s'.down[j]| == |s.down[j]|
           || (|s'.down[j]| == |s.down[j]| + 1 && DownWeights(w, s, d)[j] <= max)
  {
    hide Apply;
    hide SendsBack;
    hide HubSends;
    hide Copy;
    hide Trapped;
    AboutOne(w, d, s, ArriveAtHub(c, junk));
    ArriveAtHubEffect(w, d, s, c, junk);
    hide Inv;
    hide Links;
    forall j | 0 <= j < |s.clients| && HubSends(s, d, Some(c), j) && !LocalToHub(s, d)
      ensures DownWeights(w, s, d)[j] <= max
    {
      if SendsBack(w, s, d, c) {
        NoSecondTrap(w, s, d, c, j);
      }
    }
  }

  lemma OneLess(n: nat, weight: nat)
    requires n > 0
    ensures n * weight == (n - 1) * weight + weight
  {
  }

  lemma ClientArrivalUsesUp(w: Wiring, d: Key, s: State, c: nat, junk: Junk)
    requires Inv(w, d, s) && Enabled(w, d, s, ArriveAtClient(c, junk))
    ensures var s' := Apply(w, s, ArriveAtClient(c, junk));
            Shape(w, s') && ArrivalsLeft(w, s', d) < ArrivalsLeft(w, s, d)
  {
    hide Apply;
    hide Inv;
    hide SendsBack;
    hide Copy;
    hide SameKnowledge;
    var s' := Apply(w, s, ArriveAtClient(c, junk));
    StepKeeps(w, d, s, ArriveAtClient(c, junk));
    AboutOne(w, d, s, ArriveAtClient(c, junk));
    hide Links;
    hide PacketOf;
    SameWeights(w, s, s', d);
    ArriveAtClientEffect(w, d, s, c, junk);
    var ups, downs := UpWeights(w, s, d), DownWeights(w, s, d);
    TotalUpdate(s.down, downs, c, s.down[c][1..]);
    OneLess(|s.down[c]|, downs[c]);
    TotalUpdate(s.up, ups, c, s'.up[c]);
    if SendsBack(w, s, d, c) {
      OneLess(|s'.up[c]|, ups[c]);
    } else {
      assert s'.up[c] == s.up[c];
    }
  }

  /** A run in which frames arrive and nothing is read. */
  ghost predicate IsDelivery(w: Wiring, d: Key, run: seq<State>) {
    && run != [] && Inv(w, d, run[0])
    && forall i | 0 <= i < |run| - 1 :: Delivers(w, d, run[i], run[i + 1])
  }

  ghost predicate Delivers(w: Wiring, d: Key, s: State, s': State) {
    exists m :: IsArrival(m) && Enabled(w, d, s, m) && s' == Apply(w, s, m)
  }

  /** A packet that is in a trap and can circulate in it. */
  ghost predicate Caught(w: Wiring, s: State, d: Key)
    requires Shape(w, s)
  {
    Trapped(w, s, d) && Circulating(w, s, d)
  }

  /** Main result, the other half: when nothing is caught, every run of deliveries ends, after at
      most as many arrivals as `ArrivalsLeft` says at its start. */
  lemma {:induction false} UncaughtDiesOut(w: Wiring, d: Key, run: seq<State>, i: nat)
    requires IsDelivery(w, d, run) && i < |run| && !Caught(w, run[0], d)
    ensures Inv(w, d, run[i]) && !Caught(w, run[i], d)
    ensures ArrivalsLeft(w, run[i], d) + i <= ArrivalsLeft(w, run[0], d)
  {
    if i > 0 {
      hide Links;
      hide OnlyFor;
      hide Caught;
      hide Enabled;
      hide Apply;
      hide ArrivalsLeft;
      UncaughtDiesOut(w, d, run, i - 1);
      var s := run[i - 1];
      assert Delivers(w, d, s, run[i - 1 + 1]);
      var m :| IsArrival(m) && Enabled(w, d, s, m) && run[i] == Apply(w, s, m);
      UncaughtStep(w, d, s, m);
    }
  }

  lemma UncaughtStep(w: Wiring, d: Key, s: State, m: Move)
    requires Inv(w, d, s) && Enabled(w, d, s, m) && IsArrival(m) && !Caught(w, s, d)
    ensures var s' := Apply(w, s, m);
            Inv(w, d, s') && !Caught(w, s', d) && ArrivalsLeft(w, s', d) < ArrivalsLeft(w, s, d)
  {
    hide Links;
    hide OnlyFor;
    hide Trapped;
    hide Circulating;
    hide Apply;
    hide ArrivalsLeft;
    hide Possible;
    InvShape(w, d, s);
    StepKeeps(w, d, s, m);
    SameTrap(w, s, Apply(w, s, m), d);
    if Trapped(w, s, d) {
      StaysOut(w, d, s, m);
      ClientArrivalUsesUp(w, d, s, m.c, m.junk);
    } else if m.ArriveAtHub? {
      HubArrivalUsesUp(w, d, s, m.c, m.junk);
    } else {
      ClientArrivalUsesUp(w, d, s, m.c, m.junk);
    }
  }

  /** When nothing circulates, all that can arrive is taken in by clients. */
  lemma StaysOut(w: Wiring, d: Key, s: State, m: Move)
    requires Inv(w, d, s) && Enabled(w, d, s, m) && IsArrival(m) && !Circulating(w, s, d)
    ensures m.ArriveAtClient? && Shape(w, Apply(w, s, m)) && !Circulating(w, Apply(w, s, m), d)
  {
    hide Apply;
    hide SendsBack;
    StepKeeps(w, d, s, m);
    AboutOne(w, d, s, m);
    hide Links;
    hide OnlyFor;
    hide IsFor;
    hide PacketOf;
    if m.ArriveAtClient? {
      ArriveAtClientEffect(w, d, s, m.c, m.junk);
    }
  }

  /** Some run of deliveries from `s` has at least `n` arrivals. */
  ghost predicate LastsFor(w: Wiring, d: Key, s: State, n: nat) {
    exists run :: IsDelivery(w, d, run) && run[0] == s && |run| == n + 1
  }

  /** Main result, exactly: with packets for `d` in flight, deliveries can go on for ever if and only
      if the hub and its clients are trapped and some packet is on its way to the hub or to a client
      that sends it back. */
  lemma ForEverIffTrapped(w: Wiring, d: Key, s: State)
    requires Inv(w, d, s)
    ensures Trapped(w, s, d) && Circulating(w, s, d) <==> forall n :: LastsFor(w, d, s, n)
  {
    hide ClientInv;
    hide Carries;
    hide Trapped;
    hide Circulating;
    hide ArrivalsLeft;
    if Trapped(w, s, d) && Circulating(w, s, d) {
      forall n ensures LastsFor(w, d, s, n) {
        var run := GoesOn(w, d, s, n);
      }
    } else {
      var n := ArrivalsLeft(w, s, d) + 1;
      if LastsFor(w, d, s, n) {
        var run :| IsDelivery(w, d, run) && run[0] == s && |run| == n + 1;
        UncaughtDiesOut(w, d, run, n);
      }
    }
  }

  lemma {:induction false} GoesOn(w: Wiring, d: Key, s: State, n: nat) returns (run: seq<State>)
    requires Inv(w, d, s) && Circulating(w, s, d) && Trapped(w, s, d)
    ensures IsDelivery(w, d, run) && run[0] == s && |run| == n + 1
    ensures var last := run[n]; Inv(w, d, last) && Circulating(w, last, d) && Trapped(w, last, d)
  {
    hide ClientInv;
    hide Carries;
    hide Trapped;
    hide Circulating;
    hide Possible;
    hide IsFor;
    hide Apply;
    if n == 0 {
      run := [s];
    } else {
      var before := GoesOn(w, d, s, n - 1);
      var last := before[n - 1];
      CirculatingCanMove(w, d, last);
      var m :| IsArrival(m) && Enabled(w, d, last, m);
      StepKeeps(w, d, last, m);
      SameTrap(w, last, Apply(w, last, m), d);
      TrappedStep(w, d, last, m);
      assert Delivers(w, d, last, Apply(w, last, m));
      run := before + [Apply(w, last, m)];
      forall i | 0 <= i < |run| - 1 ensures Delivers(w, d, run[i], run[i + 1]) {
        assert i < n - 1 ==> Delivers(w, d, before[i], before[i + 1]);
      }
    }
  }

  // ---------------------------------------------------------------- the trap is sprung by itself

  /** A client learns the source of a packet for a destination that is local to it. */
  lemma ClientLearns(w: Wiring, d: Key, s: State, c: nat, junk: Junk)
    requires Inv(w, d, s) && Enabled(w, d, s, ArriveAtClient(c, junk)) && d in Keys(s.clients[c].local)
    ensures var packet := PacketOf(w, c, s.down[c][0]);
            var slots, slots' := s.clients[c].slots, Apply(w, s, ArriveAtClient(c, junk)).clients[c].slots;
      && Parseable(w.hub.host, packet) && w.ends[c] < |slots'|
      && w.ends[c] < |slots|
      && Keys(slots'[w.ends[c]].routes) == Keys(slots[w.ends[c]].routes) + {SourceKey(w.hub.host, packet)}
  {
    hide ParseAddr;
    hide InRoutes;
    hide ProcessFrame;
    hide SentTo;
    assert ClientInv(w, s, c);
    var l, t := LinkOf(w, c), s.down[c][0];
    assert Carries(w, c, t) && IsFor(w, d, PacketOf(w, c, t));
    var packet := PacketOf(w, c, t);
    Session.ProcessSealed(l, s.clients[c], 0, t.frame, junk);
    var buf := InBuffer(packet, junk.buf);
    var dst := ParseAddr(w.hub.host, buf, junk.route, false);
    var src := ParseAddr(w.hub.host, buf, dst, true);
    DestinationParses(w, d, packet, junk, junk.route);
    InRoutesIsInKeys(dst, s.clients[c].local);
    ParsedKey(w.hub.host, packet, junk.buf, dst, true);
    Session.SoleOwner(l, s.clients[c], 0, src);
    KeysOfLonger(s.clients[c].slots[w.ends[c]].routes, src);
  }

  /** Nothing is in flight, all three clients are connected, and the hub has never heard of `d`. */
  ghost predicate Calm(w: Wiring, s: State, d: Key) {
    && Shape(w, s) && |s.clients| == 3
    && (forall c :: 0 <= c < 3 ==> Live(s, c) && ClientInv(w, s, c) && s.up[c] == [] && s.down[c] == [])
    && !LocalToHub(s, d) && OwnerOf(s.hub.slots, d, 0) == None
  }

  /** What client `c` has learned from the hub. */
  function Learned(w: Wiring, s: State, c: nat): set<Key>
    requires Shape(w, s) && c < |s.clients|
  {
    if w.ends[c] < |s.clients[c].slots| then Keys(s.clients[c].slots[w.ends[c]].routes) else {}
  }

  /** Client 0 reads a packet for `d`. */
  lemma ClientSends(w: Wiring, d: Key, s: State, packet: Packet) returns (s': State)
    requires Calm(w, s, d) && Enabled(w, d, s, Read(0, packet, ZEROED))
    ensures Next(w, d, s, s') && Inv(w, d, s') && SameKnowledge(w, s, s', d)
    ensures s'.hub == s.hub && s'.clients == s.clients[0 := s'.clients[0]]
    ensures s'.up == [[Copy(w, 0, packet, 1)], [], []] && s'.down == [[], [], []]
  {
    hide Apply;
    hide Copy;
    hide SendsBack;
    hide Session.Connected;
    var read := Read(0, packet, ZEROED);
    assert Inv(w, d, s);
    hide ClientInv;
    s' := Apply(w, s, read);
    StepKeeps(w, d, s, read);
    ReadEffect(w, s, 0, packet, ZEROED);
    assert s.up[0] == [] && s.up[1] == [] && s.up[2] == [];
    assert s.down[0] == [] && s.down[1] == [] && s.down[2] == [];
    assert s'.up[0] == [Copy(w, 0, packet, 1)];
  }

  /** It arrives at the hub, which floods it. */
  lemma HubFloods(w: Wiring, d: Key, s: State, packet: Packet) returns (s': State)
    requires Inv(w, d, s) && |s.clients| == 3 && forall c :: 0 <= c < 3 ==> Live(s, c)
    requires !LocalToHub(s, d) && OwnerOf(s.hub.slots, d, 0) == None
    requires s.up == [[Copy(w, 0, packet, 1)], [], []] && s.down == [[], [], []]
    ensures Next(w, d, s, s') && Inv(w, d, s') && SameKnowledge(w, s, s', d)
    ensures s'.hub == s.hub && s'.clients == s.clients
    ensures s'.up == [[], [], []] && s'.down == [[], [Copy(w, 1, packet, 2)], [Copy(w, 2, packet, 2)]]
  {
    hide Apply;
    hide Copy;
    hide OwnerOf;
    var arrive := ArriveAtHub(0, ZEROED);
    StepKeeps(w, d, s, arrive);
    FloodedQueues(w, d, s, packet);
    s' := Apply(w, s, arrive);
  }

  lemma FloodedQueues(w: Wiring, d: Key, s: State, packet: Packet)
    requires Inv(w, d, s) && |s.clients| == 3 && forall c :: 0 <= c < 3 ==> Live(s, c)
    requires !LocalToHub(s, d) && OwnerOf(s.hub.slots, d, 0) == None
    requires s.up == [[Copy(w, 0, packet, 1)], [], []] && s.down == [[], [], []]
    ensures var s' := Apply(w, s, ArriveAtHub(0, ZEROED));
      && s'.hub == s.hub && s'.clients == s.clients
      && s'.up == [[], [], []] && s'.down == [[], [Copy(w, 1, packet, 2)], [Copy(w, 2, packet, 2)]]
  {
    hide Apply;
    hide Copy;
    hide OwnerOf;
    hide Carries;
    hide PacketOf;
    hide ClientInv;
    hide IsFor;
    InvShape(w, d, s);
    LiveInv(w, s, 0);
    CopyOpens(w, s, 0, packet, 1);
    assert s.up[0][0] == Copy(w, 0, packet, 1);
    AboutOne(w, d, s, ArriveAtHub(0, ZEROED));
    hide Inv;
    hide Links;
    var s' := Apply(w, s, ArriveAtHub(0, ZEROED));
    ArriveAtHubEffect(w, d, s, 0, ZEROED);
    hide Possible;
    hide OnlyRoutesDiffer;
    assert HubSends(s, d, Some(0), 1) && HubSends(s, d, Some(0), 2) && !HubSends(s, d, Some(0), 0);
    hide HubSends;
    hide LocalToHub;
    ThreeQueues(s.down, s'.down, [[], [Copy(w, 1, packet, 2)], [Copy(w, 2, packet, 2)]]);
    ThreeQueues([[], s.up[1], s.up[2]], s'.up, [[], [], []]);
  }

  lemma LiveInv(w: Wiring, s: State, c: nat)
    requires Links(w, s) && Live(s, c)
    ensures ClientInv(w, s, c)
  {
  }

  lemma ThreeQueues(qs: seq<seq<Transit>>, qs': seq<seq<Transit>>, more: seq<seq<Transit>>)
    requires qs == [[], [], []] && |qs'| == |more| == 3
    requires forall j :: 0 <= j < 3 ==> qs'[j] == qs[j] + more[j]
    ensures qs' == more
  {
    assert qs'[0] == more[0] && qs'[1] == more[1] && qs'[2] == more[2];
  }

  /** After that it arrives at clients 1 and 2. The one to which `d` is local learns the source;
      the hub learns nothing. */
  lemma Teaches(w: Wiring, d: Key, s: State, packet: Packet) returns (run: seq<State>)
    requires Calm(w, s, d) && Enabled(w, d, s, Read(0, packet, ZEROED))
    requires forall c :: 1 <= c < 3 ==> !SendsBack(w, s, d, c)
    ensures |run| == 5 && run[0] == s && forall i :: 0 <= i < 4 ==> Next(w, d, run[i], run[i + 1])
    ensures var s' := run[4];
      && s'.hub == s.hub && Calm(w, s', d)
      && (forall c :: 1 <= c < 3 ==>
            && s'.clients[c].local == s.clients[c].local
            && (d in Keys(s.clients[c].local) ==>
                  Learned(w, s', c) == Learned(w, s, c) + {SourceKey(w.hub.host, packet)})
            && (d !in Keys(s.clients[c].local) ==> s'.clients[c] == s.clients[c]))
  {
    hide Copy;
    hide SendsBack;
    hide Next;
    hide ClientInv;
    hide Carries;
    hide OwnerOf;
    hide IsFor;
    var s1 := ClientSends(w, d, s, packet);
    var s2 := HubFloods(w, d, s1, packet);
    var s3 := CopyArrives(w, d, s2, 1, packet);
    var s4 := CopyArrives(w, d, s3, 2, packet);
    run := [s, s1, s2, s3, s4];
  }

  lemma CopyOpens(w: Wiring, s: State, c: nat, packet: Packet, hops: nat)
    requires Shape(w, s) && c < |s.clients| && ClientInv(w, s, c)
    ensures var t := Copy(w, c, packet, hops);
            t.hops == hops && PacketOf(w, c, t) == packet
  {
    Session.SealedOpens(LinkOf(w, c), packet);
  }

  /** The flooded copy arrives at client `c`, which does not send it back. */
  lemma CopyArrives(w: Wiring, d: Key, s: State, c: nat, packet: Packet) returns (s': State)
    requires Inv(w, d, s) && c < |s.clients| && Live(s, c) && !SendsBack(w, s, d, c)
    requires s.down[c] == [Copy(w, c, packet, 2)] && IsFor(w, d, packet)
    ensures Inv(w, d, s') && Next(w, d, s, s') && SameKnowledge(w, s, s', d)
    ensures s'.hub == s.hub && s'.up == s.up && s'.down == s.down[c := []]
    ensures s'.clients == s.clients[c := s'.clients[c]] && s'.clients[c].local == s.clients[c].local
    ensures d in Keys(s.clients[c].local) ==>
      Learned(w, s', c) == Learned(w, s, c) + {SourceKey(w.hub.host, packet)}
    ensures d !in Keys(s.clients[c].local) ==> s'.clients[c] == s.clients[c]
  {
    hide Apply;
    hide Copy;
    hide SendsBack;
    hide Session.Connected;
    var m := ArriveAtClient(c, ZEROED);
    assert ClientInv(w, s, c);
    EndExists(w, s, c);
    CopyOpens(w, s, c, packet, 2);
    assert s.down[c][0] == Copy(w, c, packet, 2);
    s' := Apply(w, s, m);
    StepKeeps(w, d, s, m);
    ArriveAtClientEffect(w, d, s, c, ZEROED);
    if d in Keys(s.clients[c].local) {
      ClientLearns(w, d, s, c, ZEROED);
    }
    hide ClientInv;
    assert s.up[c] + [] == s.up[c] && s.down[c][1..] == [];
  }

  lemma EndExists(w: Wiring, s: State, c: nat)
    requires Shape(w, s) && c < |s.clients| && ClientInv(w, s, c)
    ensures w.ends[c] < |s.clients[c].slots|
  {
  }

  function Address(k: byte): seq<byte> {
    seq(6, _ => k)
  }

  function AddressKey(k: byte): Key {
    Key(true, false, Address(k))
  }

  function EthernetFrame(dst: byte, src: byte): Packet {
    seq(4, _ => 0) + Address(dst) + Address(src)
  }

  const TAP_CONFIG := Config(Host(true, true), IDENTITY_CIPHER, PLAIN_RSA, 0, {})
  const SOME_KEY := SessionKey([], [])
  const CONNECTED :=
    Slot(true, true, false, None, Some(Stamped(SOME_KEY, 1)), Some(Stamped(SOME_KEY, 1)), [], Receiving, 1, [])

  /** A hub with three clients. */
  const THREE_CLIENTS :=
    Wiring(TAP_CONFIG, [TAP_CONFIG, TAP_CONFIG, TAP_CONFIG], [0, 0, 0], [SOME_KEY, SOME_KEY, SOME_KEY])

  /** Client `k` has so far read packets from the address `k`, and nobody has learned anything. */
  function Client(k: byte): Daemon {
    Daemon([CONNECTED], [RawRoute(true, false, Address(k) + seq(10, _ => 0))])
  }

  const BEFORE := State(Daemon([CONNECTED, CONNECTED, CONNECTED], []), [Client(0), Client(1), Client(2)],
                        [[], [], []], [[], [], []])

  lemma FrameKeys(dst: byte, src: byte)
    ensures var h, p := TAP_CONFIG.host, EthernetFrame(dst, src);
      && 0 < |p| < FRAME_PAYLOAD_MAXSIZE && Parseable(h, p)
      && DestinationKey(h, p) == AddressKey(dst) && SourceKey(h, p) == AddressKey(src)
  {
    var p := EthernetFrame(dst, src);
    assert p[4..10] == Address(dst) && p[10..16] == Address(src);
  }

  lemma AddressesDiffer(j: byte, k: byte)
    ensures AddressKey(j) == AddressKey(k) <==> j == k
  {
    assert Address(j)[0] == j && Address(k)[0] == k;
  }

  lemma ClientsStart(k: byte)
    ensures Keys(Client(k).local) == {AddressKey(k)}
  {
    var r := Client(k).local[0];
    assert r.addr[..6] == Address(k);
    assert KeyOf(r) == AddressKey(k);
  }

  lemma BeforeIsCalm(k: byte)
    ensures Calm(THREE_CLIENTS, BEFORE, AddressKey(k))
    ensures forall c :: 0 <= c < 3 ==> Learned(THREE_CLIENTS, BEFORE, c) == {}
  {
    SoundCipherExists();
    hide SoundCipher;
    forall c | 0 <= c < 3 ensures ClientInv(THREE_CLIENTS, BEFORE, c) {
    }
    hide ClientInv;
    NobodyOwns(BEFORE.hub.slots, AddressKey(k), 0);
  }

  lemma {:induction false} NobodyOwns(slots: seq<Slot>, d: Key, i: nat)
    requires forall j :: 0 <= j < |slots| ==> slots[j].routes == []
    ensures OwnerOf(slots, d, i) == None
    decreases |slots| - i
  {
    if i < |slots| {
      NobodyOwns(slots, d, i + 1);
    }
  }

  /** Main result: no odd circumstances are needed. Client 0 sends one packet to client 1 and one to
      client 2; both arrive everywhere; and the daemons are trapped for the address of client 0. */
  lemma TrapIsSprung() returns (first: seq<State>, second: seq<State>)
    ensures |first| == 5 && first[0] == BEFORE && |second| == 5 && second[0] == first[4]
    ensures forall i :: 0 <= i < 4 ==> Next(THREE_CLIENTS, AddressKey(1), first[i], first[i + 1])
    ensures forall i :: 0 <= i < 4 ==> Next(THREE_CLIENTS, AddressKey(2), second[i], second[i + 1])
    ensures Inv(THREE_CLIENTS, AddressKey(0), second[4]) && Trapped(THREE_CLIENTS, second[4], AddressKey(0))
    ensures Live(second[4], 1)
  {
    BeforeIsCalm(1);
    ClientsStart(1);
    ClientsStart(2);
    hide ClientInv;
    hide Next;
    hide OwnerOf;
    hide Keys;
    hide Learned;
    hide AddressKey;
    first := SpringStep(BEFORE, 1);
    hide Calm;
    StaysCalm(BEFORE, first[4], 1, 2);
    second := SpringStep(first[4], 2);
    StaysCalm(BEFORE, second[4], 2, 0);
    BothSendBack(second[4]);
  }

  lemma StaysCalm(s: State, s': State, j: byte, k: byte)
    requires s == BEFORE && s'.hub == s.hub && Calm(THREE_CLIENTS, s', AddressKey(j))
    ensures Calm(THREE_CLIENTS, s', AddressKey(k)) && Inv(THREE_CLIENTS, AddressKey(k), s')
  {
    BeforeIsCalm(k);
    hide ClientInv;
    hide OwnerOf;
  }

  lemma BothSendBack(s: State)
    requires Calm(THREE_CLIENTS, s, AddressKey(0))
    requires forall c :: 1 <= c < 3 ==> Keys(s.clients[c].local) == {AddressKey(c as byte)}
    requires forall c :: 1 <= c < 3 ==> AddressKey(0) in Learned(THREE_CLIENTS, s, c)
    ensures Trapped(THREE_CLIENTS, s, AddressKey(0))
  {
    AddressesDiffer(0, 1);
    AddressesDiffer(0, 2);
    hide Keys;
    hide AddressKey;
    hide OwnerOf;
    hide ClientInv;
    assert Keys(s.clients[1].local) == {AddressKey(1)} && Keys(s.clients[2].local) == {AddressKey(2)};
    assert AddressKey(0) in Learned(THREE_CLIENTS, s, 1) && AddressKey(0) in Learned(THREE_CLIENTS, s, 2);
    assert SendsBack(THREE_CLIENTS, s, AddressKey(0), 1) && SendsBack(THREE_CLIENTS, s, AddressKey(0), 2);
  }

  /** Main result: the reply is delivered for ever. Client 1 answers the packet it got; from then on
      deliveries can go on for any number of arrivals. */
  lemma ReplyNeverDies() returns (first: seq<State>, second: seq<State>, reply: State)
    ensures |first| == 5 && first[0] == BEFORE && |second| == 5 && second[0] == first[4]
    ensures forall i :: 0 <= i < 4 ==> Next(THREE_CLIENTS, AddressKey(1), first[i], first[i + 1])
    ensures forall i :: 0 <= i < 4 ==> Next(THREE_CLIENTS, AddressKey(2), second[i], second[i + 1])
    ensures var m := Read(1, EthernetFrame(0, 1), ZEROED);
            Possible(THREE_CLIENTS, second[4], m) && reply == Apply(THREE_CLIENTS, second[4], m)
    ensures forall n :: LastsFor(THREE_CLIENTS, AddressKey(0), reply, n)
  {
    hide Next;
    hide Trapped;
    hide LastsFor;
    hide Apply;
    first, second := TrapIsSprung();
    reply := Answered(second[4]);
  }

  lemma Answered(s: State) returns (reply: State)
    requires Inv(THREE_CLIENTS, AddressKey(0), s) && Live(s, 1) && Trapped(THREE_CLIENTS, s, AddressKey(0))
    ensures var m := Read(1, EthernetFrame(0, 1), ZEROED);
            Possible(THREE_CLIENTS, s, m) && reply == Apply(THREE_CLIENTS, s, m)
    ensures forall n :: LastsFor(THREE_CLIENTS, AddressKey(0), reply, n)
  {
    FrameKeys(0, 1);
    AddressesDiffer(0, 1);
    hide Links;
    hide OnlyFor;
    hide Trapped;
    hide LastsFor;
    hide Apply;
    hide AddressKey;
    hide EthernetFrame;
    hide SourceKey;
    hide DestinationKey;
    InvShape(THREE_CLIENTS, AddressKey(0), s);
    var m := Read(1, EthernetFrame(0, 1), ZEROED);
    reply := Apply(THREE_CLIENTS, s, m);
    StepKeeps(THREE_CLIENTS, AddressKey(0), s, m);
    SameTrap(THREE_CLIENTS, s, reply, AddressKey(0));
    ReadCirculates(THREE_CLIENTS, AddressKey(0), s, m);
    ForEverIffTrapped(THREE_CLIENTS, AddressKey(0), reply);
  }

  lemma InvShape(w: Wiring, d: Key, s: State)
    requires Inv(w, d, s)
    ensures Shape(w, s)
  {
  }

  lemma NobodySendsBack(s: State, k: byte)
    requires Shape(THREE_CLIENTS, s) && |s.clients| == 3 && 1 <= k < 3
    requires forall c :: 1 <= c < 3 ==> Keys(s.clients[c].local) == {AddressKey(c as byte)}
    requires forall c :: 1 <= c < 3 ==> Learned(THREE_CLIENTS, s, c) <= {AddressKey(0)}
    ensures forall c :: 1 <= c < 3 ==> !SendsBack(THREE_CLIENTS, s, AddressKey(k), c)
  {
    AddressesDiffer(0, k);
    hide Keys;
    hide AddressKey;
    forall c | 1 <= c < 3 ensures !SendsBack(THREE_CLIENTS, s, AddressKey(k), c) {
      assert Keys(s.clients[c].local) == {AddressKey(c as byte)} && Learned(THREE_CLIENTS, s, c) <= {AddressKey(0)};
      assert c == 1 || c == 2;
    }
  }

  /** Client 0 sends a packet to client `k`. */
  lemma SpringStep(s: State, k: byte) returns (run: seq<State>)
    requires Calm(THREE_CLIENTS, s, AddressKey(k)) && 1 <= k < 3
    requires forall c :: 1 <= c < 3 ==> Keys(s.clients[c].local) == {AddressKey(c as byte)}
    requires forall c :: 1 <= c < 3 ==> Learned(THREE_CLIENTS, s, c) <= {AddressKey(0)}
    ensures |run| == 5 && run[0] == s
    ensures forall i :: 0 <= i < 4 ==> Next(THREE_CLIENTS, AddressKey(k), run[i], run[i + 1])
    ensures var s' := run[4];
      && s'.hub == s.hub && Calm(THREE_CLIENTS, s', AddressKey(k))
      && (forall c :: 1 <= c < 3 ==>
            && Keys(s'.clients[c].local) == {AddressKey(c as byte)}
            && Learned(THREE_CLIENTS, s', c)
               == Learned(THREE_CLIENTS, s, c) + if c == k as int then {AddressKey(0)} else {})
  {
    hide SendsBack;
    hide LocalToHub;
    hide ClientInv;
    hide Next;
    hide OwnerOf;
    hide Keys;
    hide AddressKey;
    hide EthernetFrame;
    hide DestinationKey;
    hide SourceKey;
    hide Parseable;
    hide Links;
    hide Possible;
    CalmShape(s, AddressKey(k));
    hide Calm;
    FrameKeys(k, 0);
    ReadIsPossible(s, k);
    hide Enabled;
    NobodySendsBack(s, k);
    run := Teaches(THREE_CLIENTS, AddressKey(k), s, EthernetFrame(k, 0));
    CalmShape(run[4], AddressKey(k));
    forall c | 1 <= c < 3 ensures AddressKey(k) in Keys(s.clients[c].local) <==> c == k as int {
      AddressesDiffer(c as byte, k);
    }
  }

  lemma CalmShape(s: State, d: Key)
    ensures Calm(THREE_CLIENTS, s, d) ==> Shape(THREE_CLIENTS, s) && |s.clients| == 3 && Live(s, 0)
  {
  }

  lemma ReadIsPossible(s: State, k: byte)
    requires Shape(THREE_CLIENTS, s) && Live(s, 0) && 1 <= k < 3
    ensures Enabled(THREE_CLIENTS, AddressKey(k), s, Read(0, EthernetFrame(k, 0), ZEROED))
  {
    FrameKeys(k, 0);
    AddressesDiffer(0, k);
  }
}
