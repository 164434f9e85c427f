/** Any number of daemons in any topology, over any history of connections.

    An established connection is a pair of wires, one in each direction, each with the session
    key of the connection and the frames sent and not yet received. Connections open, get
    established, break on either side and make room for others in the same peer elements. A
    frame is received only while the element it is for is still in the connection it was sent on;
    that element may be the last to notice that the other end is gone. The handshake of module
    Handshake is one step here. */
module Network {
  import opened Protocol
  import opened Framing
  import opened Cipher
  import opened Routes
  import opened PacketHeader
  import opened Router
  import opened Wrappers

  /** One end of a connection: a peer element of a daemon during one of its connections. */
  datatype End = End(node: nat, slot: nat, epoch: nat)

  /** The direction from an end (the key it is stored under) to the end `to`. */
  datatype Wire = Wire(to: End, key: SessionKey, queue: seq<Frame>)

  /** `seen` and `written` list the packets read from and written to any device so far. */
  datatype Net = Net(nodes: seq<Daemon>, wires: map<End, Wire>, seen: seq<Packet>, written: seq<Packet>)

  datatype Move =
    | Open(n: nat, isClient: bool)
    | Establish(x: End, y: End, key: SessionKey)
    | Break(n: nat, i: nat)
    | Read(n: nat, packet: Packet, junk: Junk)
    | Arrive(x: End, junk: Junk)

  /** All daemons use the same cipher. Their kinds of device may differ, and so may the byte orders in
      which they keep addresses; how frames are laid out as bytes is not part of this module. */
  ghost predicate ValidConfigs(cfgs: seq<Config>) {
    forall n :: 0 <= n < |cfgs| ==> SoundCipher(cfgs[n].cipher) && cfgs[n].cipher == cfgs[0].cipher
  }

  /** The end belongs to the connection its element serves now. */
  predicate Current(net: Net, x: End) {
    && x.node < |net.nodes| && x.slot < |net.nodes[x.node].slots|
    && net.nodes[x.node].slots[x.slot].epoch == x.epoch
  }

  function SlotAt(net: Net, x: End): Slot
    requires Current(net, x)
  {
    net.nodes[x.node].slots[x.slot]
  }

  predicate Enabled(cfgs: seq<Config>, net: Net, m: Move) {
    && |cfgs| == |net.nodes|
    && match m
       case Open(n, _) => n < |net.nodes|
       case Establish(x, y, _) =>
         && x != y && Current(net, x) && Current(net, y)
         && SlotAt(net, x).alive && SlotAt(net, x).stage.SendPub?
         && SlotAt(net, y).alive && SlotAt(net, y).stage.SendPub?
       case Break(n, i) => n < |net.nodes| && i < |net.nodes[n].slots| && net.nodes[n].slots[i].alive
       case Read(n, packet, _) => n < |net.nodes| && 0 < |packet| < FRAME_PAYLOAD_MAXSIZE
       case Arrive(x, _) =>
         && x in net.wires && net.wires[x].queue != [] && Current(net, net.wires[x].to)
         && SlotAt(net, net.wires[x].to).alive && SlotAt(net, net.wires[x].to).stage.Receiving?
  }

  function Established(s: Slot, key: SessionKey): Slot {
    s.(stage := Receiving, authenticated := true,
       encCtx := Some(Stamped(key, s.epoch)), decCtx := Some(Stamped(key, s.epoch)))
  }

  function UpdateSlot(net: Net, n: nat, i: nat, s: Slot): Net
    requires n < |net.nodes| && i < |net.nodes[n].slots|
  {
    net.(nodes := net.nodes[n := net.nodes[n].(slots := net.nodes[n].slots[i := s])])
  }

  /** Put the frames among the outputs of node `n` on its wires. */
  function Post(wires: map<End, Wire>, n: nat, slots: seq<Slot>, outs: seq<Out>): map<End, Wire> {
    if outs == [] then wires
    else Post(PostOne(wires, n, slots, outs[0]), n, slots, outs[1..])
  }

  function PostOne(wires: map<End, Wire>, n: nat, slots: seq<Slot>, o: Out): map<End, Wire> {
    if o.ToTun? || o.slot >= |slots| then wires
    else
      var x := End(n, o.slot, slots[o.slot].epoch);
      if x in wires then wires[x := wires[x].(queue := wires[x].queue + [o.frame])] else wires
  }

  function Apply(cfgs: seq<Config>, net: Net, m: Move): Net
    requires Enabled(cfgs, net, m)
  {
    match m
    case Open(n, isClient) => net.(nodes := net.nodes[n := AddPeer(net.nodes[n], isClient)])
    case Establish(x, y, key) =>
      var net1 := UpdateSlot(net, x.node, x.slot, Established(SlotAt(net, x), key));
      var net2 := UpdateSlot(net1, y.node, y.slot, Established(net1.nodes[y.node].slots[y.slot], key));
      net2.(wires := net.wires[x := Wire(y, key, [])][y := Wire(x, key, [])])
    case Break(n, i) => UpdateSlot(net, n, i, net.nodes[n].slots[i].(stage := Ended, alive := false))
    case Read(n, packet, junk) =>
      var st := TunRead(cfgs[n], net.nodes[n], packet, junk);
      Net(net.nodes[n := st.daemon], Post(net.wires, n, net.nodes[n].slots, st.outs),
          net.seen + [packet], net.written + Written(st.outs))
    case Arrive(x, junk) =>
      var w := net.wires[x];
      var n := w.to.node;
      var st := ProcessFrame(cfgs[n], net.nodes[n], w.to.slot, w.queue[0], junk);
      Net(net.nodes[n := st.daemon],
          Post(net.wires[x := w.(queue := w.queue[1..])], n, net.nodes[n].slots, st.outs),
          net.seen, net.written + Written(st.outs))
  }

  ghost predicate Init(cfgs: seq<Config>, net: Net) {
    && ValidConfigs(cfgs) && |net.nodes| == |cfgs|
    && (forall n :: 0 <= n < |net.nodes| ==> net.nodes[n] == INITIAL_DAEMON)
    && net.wires == map[] && net.seen == [] && net.written == []
  }

  ghost predicate Next(cfgs: seq<Config>, net: Net, net': Net) {
    exists m :: Enabled(cfgs, net, m) && net' == Apply(cfgs, net, m)
  }

  ghost predicate IsRun(cfgs: seq<Config>, run: seq<Net>) {
    && run != [] && Init(cfgs, run[0])
    && forall i | 0 <= i < |run| - 1 :: Next(cfgs, run[i], run[i + 1])
  }

  // ---------------------------------------------------------------- where frames come from

  /** The frame is some packet read earlier, encrypted under the given key. */
  ghost predicate Genuine(cfgs: seq<Config>, seen: seq<Packet>, key: SessionKey, f: Frame)
    requires cfgs != []
  {
    exists p :: p in seen && f == Frame(FRAME_HDR_NETPACKET, AesEncrypt(cfgs[0].cipher, key, p))
  }

  predicate KeyedWith(s: Slot, key: SessionKey) {
    s.authenticated && s.encCtx == Some(Stamped(key, s.epoch)) && s.decCtx == s.encCtx
  }

  /** The two directions of a connection belong together, and as long as an end is current its
      element holds the key of the connection. */
  ghost predicate WireInv(net: Net, x: End)
    requires x in net.wires
  {
    var w := net.wires[x];
    && w.to in net.wires && net.wires[w.to].to == x && net.wires[w.to].key == w.key
    && x.node < |net.nodes| && x.slot < |net.nodes[x.node].slots|
    && x.epoch <= net.nodes[x.node].slots[x.slot].epoch
    && (Current(net, x) ==> KeyedWith(SlotAt(net, x), w.key))
  }

  ghost predicate SlotInv(net: Net, n: nat, i: nat)
    requires n < |net.nodes| && i < |net.nodes[n].slots|
  {
    var s := net.nodes[n].slots[i];
    && (s.authenticated ==> End(n, i, s.epoch) in net.wires)
    && (s.alive && s.stage.Receiving? ==> s.authenticated)
    && (s.authenticated ==> !s.stage.SendPub?)
    && (s.routes != [] ==> s.authenticated)
  }

  ghost predicate ConnectionsInv(cfgs: seq<Config>, net: Net) {
    && ValidConfigs(cfgs) && |cfgs| == |net.nodes|
    && (forall x :: x in net.wires ==> WireInv(net, x))
    && (forall n, i :: 0 <= n < |net.nodes| && 0 <= i < |net.nodes[n].slots| ==> SlotInv(net, n, i))
  }

  ghost predicate FramesInv(cfgs: seq<Config>, wires: map<End, Wire>, seen: seq<Packet>)
    requires cfgs != []
  {
    forall x, k :: x in wires && 0 <= k < |wires[x].queue| ==> Genuine(cfgs, seen, wires[x].key, wires[x].queue[k])
  }

  ghost predicate PacketsInv(cfgs: seq<Config>, net: Net) {
    && cfgs != []
    && FramesInv(cfgs, net.wires, net.seen)
    && (forall k :: 0 <= k < |net.written| ==> net.written[k] in net.seen)
  }

  /** Posting changes queues and nothing else about the wires. */
  lemma {:induction false} PostKeepsWires(wires: map<End, Wire>, n: nat, slots: seq<Slot>, outs: seq<Out>)
    ensures var wires' := Post(wires, n, slots, outs);
      && wires'.Keys == wires.Keys
      && forall x :: x in wires ==> wires'[x].to == wires[x].to && wires'[x].key == wires[x].key
    decreases outs
  {
    if outs != [] {
      PostKeepsWires(PostOne(wires, n, slots, outs[0]), n, slots, outs[1..]);
    }
  }

  /** Every frame among the outputs of node `n` is genuine for the wire it goes on. */
  ghost predicate GenuineOuts(cfgs: seq<Config>, wires: map<End, Wire>, n: nat, slots: seq<Slot>,
                              outs: seq<Out>, seen: seq<Packet>)
    requires cfgs != []
  {
    forall o :: o in outs && o.ToPeer? && o.slot < |slots| && End(n, o.slot, slots[o.slot].epoch) in wires ==>
      Genuine(cfgs, seen, wires[End(n, o.slot, slots[o.slot].epoch)].key, o.frame)
  }

  lemma {:induction false} PostKeepsFrames(cfgs: seq<Config>, wires: map<End, Wire>, n: nat, slots: seq<Slot>,
                                           outs: seq<Out>, seen: seq<Packet>)
    requires cfgs != [] && FramesInv(cfgs, wires, seen) && GenuineOuts(cfgs, wires, n, slots, outs, seen)
    ensures FramesInv(cfgs, Post(wires, n, slots, outs), seen)
    decreases outs
  {
    hide Genuine;
    if outs != [] {
      var wires' := PostOne(wires, n, slots, outs[0]);
      assert outs[0] in outs;
      forall x, k | x in wires' && 0 <= k < |wires'[x].queue|
        ensures Genuine(cfgs, seen, wires'[x].key, wires'[x].queue[k])
      {
        if k < |wires[x].queue| {
          assert Genuine(cfgs, seen, wires[x].key, wires[x].queue[k]);
        }
      }
      PostKeepsFrames(cfgs, wires', n, slots, outs[1..], seen);
    }
  }

  /** What node `n` sends when it routes a packet read earlier is genuine. */
  lemma CarriedIsGenuine(cfgs: seq<Config>, net: Net, wires: map<End, Wire>, n: nat, outs: seq<Out>,
                         packet: Packet, seen: seq<Packet>)
    requires ConnectionsInv(cfgs, net) && n < |net.nodes| && packet in seen
    requires wires.Keys == net.wires.Keys && forall x :: x in wires ==> wires[x].key == net.wires[x].key
    requires forall o :: o in outs ==> Carries(cfgs[n], net.nodes[n].slots, o, packet)
    ensures GenuineOuts(cfgs, wires, n, net.nodes[n].slots, outs, seen)
  {
    var slots := net.nodes[n].slots;
    forall o | o in outs && o.ToPeer? && o.slot < |slots| && End(n, o.slot, slots[o.slot].epoch) in wires
      ensures Genuine(cfgs, seen, wires[End(n, o.slot, slots[o.slot].epoch)].key, o.frame)
    {
      var x := End(n, o.slot, slots[o.slot].epoch);
      assert WireInv(net, x) && Current(net, x);
      assert Carries(cfgs[n], slots, o, packet);
      assert o.frame == Frame(FRAME_HDR_NETPACKET, AesEncrypt(cfgs[0].cipher, net.wires[x].key, packet));
    }
  }

  lemma {:induction false} WrittenCarries(cfg: Config, slots: seq<Slot>, outs: seq<Out>, packet: Packet)
    requires forall o :: o in outs ==> Carries(cfg, slots, o, packet)
    ensures forall k :: 0 <= k < |Written(outs)| ==> Written(outs)[k] == packet
  {
    if outs != [] {
      assert Carries(cfg, slots, outs[0], packet);
      WrittenCarries(cfg, slots, outs[1..], packet);
    }
  }

  lemma MoreSeenKeepFrames(cfgs: seq<Config>, wires: map<End, Wire>, seen: seq<Packet>, packet: Packet)
    requires cfgs != [] && FramesInv(cfgs, wires, seen)
    ensures FramesInv(cfgs, wires, seen + [packet])
  {
    hide AesEncrypt;
    forall x, k | x in wires && 0 <= k < |wires[x].queue|
      ensures Genuine(cfgs, seen + [packet], wires[x].key, wires[x].queue[k])
    {
      assert Genuine(cfgs, seen, wires[x].key, wires[x].queue[k]);
    }
  }

  // ---------------------------------------------------------------- steps

  lemma RoutingKeepsConnections(cfgs: seq<Config>, net: Net, net': Net, n: nat)
    requires ConnectionsInv(cfgs, net) && n < |net.nodes| && |net'.nodes| == |net.nodes|
    requires net'.nodes == net.nodes[n := net'.nodes[n]]
    requires OnlyRoutesDiffer(net.nodes[n].(local := net'.nodes[n].local), net'.nodes[n])
    requires net'.wires.Keys == net.wires.Keys
    requires forall x :: x in net.wires ==> net'.wires[x].to == net.wires[x].to && net'.wires[x].key == net.wires[x].key
    ensures ConnectionsInv(cfgs, net')
  {
    forall x | x in net'.wires ensures WireInv(net', x) {
      assert WireInv(net, x);
    }
    forall m, i | 0 <= m < |net'.nodes| && 0 <= i < |net'.nodes[m].slots| ensures SlotInv(net', m, i) {
      assert SlotInv(net, m, i);
    }
  }

  /** Opening a connection gives one element a new epoch, unauthenticated, and leaves the others. */
  lemma OpenEffect(d: Daemon, isClient: bool, i: nat)
    ensures var d' := AddPeer(d, isClient);
      && |d.slots| <= |d'.slots|
      && (i < |d'.slots| && i >= |d.slots| ==> !d'.slots[i].authenticated && d'.slots[i].stage.SendPub?)
      && (i < |d.slots| ==>
            || d'.slots[i] == d.slots[i]
            || (d'.slots[i].epoch > d.slots[i].epoch && !d'.slots[i].authenticated && d'.slots[i].stage.SendPub?))
  {
  }

  lemma OpenKeepsConnections(cfgs: seq<Config>, net: Net, n: nat, isClient: bool)
    requires ConnectionsInv(cfgs, net) && Enabled(cfgs, net, Open(n, isClient))
    ensures ConnectionsInv(cfgs, Apply(cfgs, net, Open(n, isClient)))
  {
    var net' := Apply(cfgs, net, Open(n, isClient));
    hide AddPeer;
    hide Established;
    forall x | x in net'.wires ensures WireInv(net', x) {
      assert WireInv(net, x);
      OpenEffect(net.nodes[n], isClient, x.slot);
    }
    forall m, i | 0 <= m < |net'.nodes| && 0 <= i < |net'.nodes[m].slots| ensures SlotInv(net', m, i) {
      OpenEffect(net.nodes[n], isClient, i);
      if i < |net.nodes[m].slots| {
        assert SlotInv(net, m, i);
      }
    }
  }

  lemma BreakKeepsConnections(cfgs: seq<Config>, net: Net, n: nat, k: nat)
    requires ConnectionsInv(cfgs, net) && Enabled(cfgs, net, Break(n, k))
    ensures ConnectionsInv(cfgs, Apply(cfgs, net, Break(n, k)))
  {
    var net' := Apply(cfgs, net, Break(n, k));
    forall x | x in net'.wires ensures WireInv(net', x) {
      assert WireInv(net, x);
    }
    forall m, i | 0 <= m < |net'.nodes| && 0 <= i < |net'.nodes[m].slots| ensures SlotInv(net', m, i) {
      assert SlotInv(net, m, i);
    }
  }

  /** What establishing a connection does to the elements. */
  lemma EstablishEffect(cfgs: seq<Config>, net: Net, x: End, y: End, key: SessionKey)
    requires Enabled(cfgs, net, Establish(x, y, key))
    ensures var net' := Apply(cfgs, net, Establish(x, y, key));
      && |net'.nodes| == |net.nodes|
      && (forall n :: 0 <= n < |net.nodes| ==>
            |net'.nodes[n].slots| == |net.nodes[n].slots| && net'.nodes[n].local == net.nodes[n].local)
      && (forall n, i :: 0 <= n < |net.nodes| && 0 <= i < |net.nodes[n].slots| ==>
            net'.nodes[n].slots[i] ==
              if (n == x.node && i == x.slot) || (n == y.node && i == y.slot)
              then Established(net.nodes[n].slots[i], key) else net.nodes[n].slots[i])
  {
  }

  lemma EndsAreNew(net: Net, x: End)
    requires Current(net, x) && SlotAt(net, x).stage.SendPub? && SlotInv(net, x.node, x.slot)
    requires x in net.wires ==> WireInv(net, x)
    ensures x !in net.wires
  {
  }

  lemma EstablishKeepsWire(cfgs: seq<Config>, net: Net, x: End, y: End, key: SessionKey, z: End)
    requires Enabled(cfgs, net, Establish(x, y, key)) && x !in net.wires && y !in net.wires
    requires z == x || z == y || (z in net.wires && WireInv(net, z))
    ensures WireInv(Apply(cfgs, net, Establish(x, y, key)), z)
  {
    var net' := Apply(cfgs, net, Establish(x, y, key));
    EstablishEffect(cfgs, net, x, y, key);
    assert net'.wires == net.wires[x := Wire(y, key, [])][y := Wire(x, key, [])];
    hide Apply;
    assert z != x && z != y ==> net'.wires[z] == net.wires[z];
  }

  lemma EstablishKeepsConnections(cfgs: seq<Config>, net: Net, x: End, y: End, key: SessionKey)
    requires ConnectionsInv(cfgs, net) && Enabled(cfgs, net, Establish(x, y, key))
    ensures ConnectionsInv(cfgs, Apply(cfgs, net, Establish(x, y, key)))
    ensures x !in net.wires && y !in net.wires
  {
    var net' := Apply(cfgs, net, Establish(x, y, key));
    assert net'.wires == net.wires[x := Wire(y, key, [])][y := Wire(x, key, [])];
    EndsAreNew(net, x);
    EndsAreNew(net, y);
    EstablishEffect(cfgs, net, x, y, key);
    hide Apply;
    forall z | z in net'.wires ensures WireInv(net', z) {
      EstablishKeepsWire(cfgs, net, x, y, key, z);
    }
    hide WireInv;
    hide SlotInv;
    forall m, i | 0 <= m < |net'.nodes| && 0 <= i < |net'.nodes[m].slots| ensures SlotInv(net', m, i) {
      EstablishKeepsSlot(cfgs, net, x, y, key, m, i);
    }
  }

  lemma EstablishKeepsSlot(cfgs: seq<Config>, net: Net, x: End, y: End, key: SessionKey, m: nat, i: nat)
    requires Enabled(cfgs, net, Establish(x, y, key))
    requires m < |net.nodes| && i < |net.nodes[m].slots| && SlotInv(net, m, i)
    ensures var net' := Apply(cfgs, net, Establish(x, y, key));
            m < |net'.nodes| && i < |net'.nodes[m].slots| && SlotInv(net', m, i)
  {
    var net' := Apply(cfgs, net, Establish(x, y, key));
    assert net'.wires == net.wires[x := Wire(y, key, [])][y := Wire(x, key, [])];
    EstablishEffect(cfgs, net, x, y, key);
    hide Apply;
  }

  lemma EstablishKeepsFrames(cfgs: seq<Config>, wires: map<End, Wire>, x: End, y: End, key: SessionKey,
                             seen: seq<Packet>)
    requires cfgs != [] && FramesInv(cfgs, wires, seen)
    ensures FramesInv(cfgs, wires[x := Wire(y, key, [])][y := Wire(x, key, [])], seen)
  {
    hide Genuine;
  }

  /** An arriving frame decrypts to a packet read earlier, and is routed. */
  lemma ArrivalRoutes(cfgs: seq<Config>, net: Net, x: End, junk: Junk) returns (packet: Packet)
    requires ConnectionsInv(cfgs, net) && PacketsInv(cfgs, net) && Enabled(cfgs, net, Arrive(x, junk))
    ensures packet in net.seen
    ensures SlotAt(net, net.wires[x].to).authenticated
    ensures var w := net.wires[x];
            ProcessFrame(cfgs[w.to.node], net.nodes[w.to.node], w.to.slot, w.queue[0], junk)
            == RoutePacket(cfgs[w.to.node], net.nodes[w.to.node], w.to.slot, packet, junk)
  {
    hide RoutePacket;
    var w := net.wires[x];
    assert WireInv(net, x) && WireInv(net, w.to);
    assert SlotInv(net, w.to.node, w.to.slot);
    assert Genuine(cfgs, net.seen, w.key, w.queue[0]);
    packet :| packet in net.seen && w.queue[0] == Frame(FRAME_HDR_NETPACKET, AesEncrypt(cfgs[0].cipher, w.key, packet));
    AesRoundTrip(cfgs[0].cipher, w.key, packet);
  }

  lemma RoutePacketOnlyRoutes(cfg: Config, d: Daemon, i: nat, packet: Packet, junk: Junk)
    requires i < |d.slots| && d.slots[i].authenticated
    ensures OnlyRoutesDiffer(d, RoutePacket(cfg, d, i, packet, junk).daemon)
  {
    hide ParseAddr;
    hide InRoutes;
    hide Owner;
    hide Broadcast;
  }

  lemma ArriveKeepsConnections(cfgs: seq<Config>, net: Net, x: End, junk: Junk)
    requires ConnectionsInv(cfgs, net) && PacketsInv(cfgs, net) && Enabled(cfgs, net, Arrive(x, junk))
    ensures ConnectionsInv(cfgs, Apply(cfgs, net, Arrive(x, junk)))
  {
    hide ProcessFrame;
    hide RoutePacket;
    hide Post;
    hide Written;
    hide FramesInv;
    hide WireInv;
    hide SlotInv;
    var w := net.wires[x];
    var n, d := w.to.node, net.nodes[w.to.node];
    var packet := ArrivalRoutes(cfgs, net, x, junk);
    var st := RoutePacket(cfgs[n], d, w.to.slot, packet, junk);
    RoutePacketOnlyRoutes(cfgs[n], d, w.to.slot, packet, junk);
    PostKeepsWires(net.wires[x := w.(queue := w.queue[1..])], n, d.slots, st.outs);
    RoutingKeepsConnections(cfgs, net, Apply(cfgs, net, Arrive(x, junk)), n);
  }

  lemma ArriveKeepsPackets(cfgs: seq<Config>, net: Net, x: End, junk: Junk)
    requires ConnectionsInv(cfgs, net) && PacketsInv(cfgs, net) && Enabled(cfgs, net, Arrive(x, junk))
    ensures PacketsInv(cfgs, Apply(cfgs, net, Arrive(x, junk)))
  {
    hide ProcessFrame;
    hide RoutePacket;
    hide Post;
    hide Written;
    hide FramesInv;
    hide WireInv;
    hide SlotInv;
    hide Carries;
    hide GenuineOuts;
    var w := net.wires[x];
    var n, d := w.to.node, net.nodes[w.to.node];
    var packet := ArrivalRoutes(cfgs, net, x, junk);
    var st := RoutePacket(cfgs[n], d, w.to.slot, packet, junk);
    RoutePacketCarries(cfgs[n], d, w.to.slot, packet, junk);
    var wires := net.wires[x := w.(queue := w.queue[1..])];
    PopKeepsFrames(cfgs, net.wires, x, net.seen);
    CarriedIsGenuine(cfgs, net, wires, n, st.outs, packet, net.seen);
    PostKeepsFrames(cfgs, wires, n, d.slots, st.outs, net.seen);
    WrittenCarries(cfgs[n], d.slots, st.outs, packet);
  }

  lemma PopKeepsFrames(cfgs: seq<Config>, wires: map<End, Wire>, x: End, seen: seq<Packet>)
    requires cfgs != [] && FramesInv(cfgs, wires, seen) && x in wires && wires[x].queue != []
    ensures FramesInv(cfgs, wires[x := wires[x].(queue := wires[x].queue[1..])], seen)
  {
    hide Genuine;
    var wires' := wires[x := wires[x].(queue := wires[x].queue[1..])];
    forall z, k | z in wires' && 0 <= k < |wires'[z].queue|
      ensures Genuine(cfgs, seen, wires'[z].key, wires'[z].queue[k])
    {
      var k' := if z == x then k + 1 else k;
      assert Genuine(cfgs, seen, wires[z].key, wires[z].queue[k']);
    }
  }

  lemma TunStep(cfgs: seq<Config>, net: Net, n: nat, packet: Packet, junk: Junk)
    requires ConnectionsInv(cfgs, net) && PacketsInv(cfgs, net) && Enabled(cfgs, net, Read(n, packet, junk))
    ensures var net' := Apply(cfgs, net, Read(n, packet, junk));
            ConnectionsInv(cfgs, net') && PacketsInv(cfgs, net')
  {
    hide TunRead;
    hide Post;
    hide Written;
    hide Genuine;
    var d := net.nodes[n];
    var st := TunRead(cfgs[n], d, packet, junk);
    var net' := Apply(cfgs, net, Read(n, packet, junk));
    var seen := net.seen + [packet];
    assert seen[|net.seen|] == packet;
    TunReadCarries(cfgs[n], d, packet, junk);
    PostKeepsWires(net.wires, n, d.slots, st.outs);
    RoutingKeepsConnections(cfgs, net, net', n);
    MoreSeenKeepFrames(cfgs, net.wires, net.seen, packet);
    CarriedIsGenuine(cfgs, net, net.wires, n, st.outs, packet, seen);
    PostKeepsFrames(cfgs, net.wires, n, d.slots, st.outs, seen);
    WrittenCarries(cfgs[n], d.slots, st.outs, packet);
  }

  lemma StepPackets(cfgs: seq<Config>, net: Net, m: Move)
    requires ConnectionsInv(cfgs, net) && PacketsInv(cfgs, net) && Enabled(cfgs, net, m)
    ensures ConnectionsInv(cfgs, Apply(cfgs, net, m)) && PacketsInv(cfgs, Apply(cfgs, net, m))
  {
    hide FramesInv;
    hide WireInv;
    hide SlotInv;
    match m
    case Open(n, isClient) => OpenKeepsConnections(cfgs, net, n, isClient);
    case Establish(x, y, key) =>
      EstablishKeepsConnections(cfgs, net, x, y, key);
      EstablishKeepsFrames(cfgs, net.wires, x, y, key, net.seen);
    case Break(n, i) => BreakKeepsConnections(cfgs, net, n, i);
    case Read(n, packet, junk) => TunStep(cfgs, net, n, packet, junk);
    case Arrive(x, junk) =>
      ArriveKeepsConnections(cfgs, net, x, junk);
      ArriveKeepsPackets(cfgs, net, x, junk);
  }

  // ---------------------------------------------------------------- where addresses come from

  /** The route is the source of a packet read earlier. */
  ghost predicate HasSource(h: Host, seen: seq<Packet>, r: Route) {
    exists p :: p in seen && Parseable(h, p) && KeyOf(r) == SourceKey(h, p)
  }

  ghost predicate AllHaveSource(h: Host, seen: seq<Packet>, rs: seq<Route>) {
    forall k :: 0 <= k < |rs| ==> HasSource(h, seen, rs[k])
  }

  ghost predicate NodeSources(h: Host, seen: seq<Packet>, d: Daemon) {
    && AllHaveSource(h, seen, d.local)
    && forall i :: 0 <= i < |d.slots| ==> AllHaveSource(h, seen, d.slots[i].routes)
  }

  ghost predicate SourcesInv(cfgs: seq<Config>, net: Net) {
    |cfgs| == |net.nodes| && forall n :: 0 <= n < |net.nodes| ==> NodeSources(cfgs[n].host, net.seen, net.nodes[n])
  }

  lemma ParsedHasSource(h: Host, seen: seq<Packet>, packet: Packet, before: Buffer, route: Route)
    requires packet in seen && Parseable(h, packet)
    ensures HasSource(h, seen, ParseAddr(h, InBuffer(packet, before), route, true))
  {
    ParsedKey(h, packet, before, route, true);
  }

  lemma MoreSeenKeepSources(h: Host, seen: seq<Packet>, packet: Packet, d: Daemon)
    requires NodeSources(h, seen, d)
    ensures NodeSources(h, seen + [packet], d)
  {
    hide KeyOf;
    forall r | HasSource(h, seen, r) ensures HasSource(h, seen + [packet], r) {
      var p :| p in seen && Parseable(h, p) && KeyOf(r) == SourceKey(h, p);
      assert p in seen + [packet];
    }
  }

  lemma TunKeepsSources(cfg: Config, d: Daemon, seen: seq<Packet>, packet: Packet, junk: Junk)
    requires NodeSources(cfg.host, seen, d) && packet in seen && Parseable(cfg.host, packet)
    ensures NodeSources(cfg.host, seen, TunRead(cfg, d, packet, junk).daemon)
  {
    hide HasSource;
    ParsedHasSource(cfg.host, seen, packet, junk.buf, junk.route);
    hide ParseAddr;
    hide InRoutes;
    TunReadCarries(cfg, d, packet, junk);
  }

  lemma RouteKeepsSources(cfg: Config, d: Daemon, i: nat, seen: seq<Packet>, packet: Packet, junk: Junk)
    requires i < |d.slots| && NodeSources(cfg.host, seen, d) && packet in seen && Parseable(cfg.host, packet)
    ensures NodeSources(cfg.host, seen, RoutePacket(cfg, d, i, packet, junk).daemon)
  {
    hide HasSource;
    var dst := ParseAddr(cfg.host, InBuffer(packet, junk.buf), junk.route, false);
    ParsedHasSource(cfg.host, seen, packet, junk.buf, dst);
    hide ParseAddr;
    hide InRoutes;
    hide Owner;
    hide Broadcast;
  }

  lemma StepSources(cfgs: seq<Config>, net: Net, m: Move)
    requires ConnectionsInv(cfgs, net) && PacketsInv(cfgs, net) && SourcesInv(cfgs, net) && Enabled(cfgs, net, m)
    requires AllParseable(cfgs, Apply(cfgs, net, m).seen)
    ensures SourcesInv(cfgs, Apply(cfgs, net, m))
  {
    hide HasSource;
    hide WireInv;
    hide SlotInv;
    hide FramesInv;
    hide TunRead;
    hide ProcessFrame;
    hide RoutePacket;
    hide Parseable;
    match m
    case Read(n, packet, junk) =>
      forall k | 0 <= k < |net.nodes| ensures NodeSources(cfgs[k].host, net.seen + [packet], net.nodes[k]) {
        MoreSeenKeepSources(cfgs[k].host, net.seen, packet, net.nodes[k]);
      }
      assert (net.seen + [packet])[|net.seen|] == packet;
      assert Parseable(cfgs[n].host, Apply(cfgs, net, m).seen[|net.seen|]);
      TunKeepsSources(cfgs[n], net.nodes[n], net.seen + [packet], packet, junk);
    case Arrive(x, junk) =>
      var to := net.wires[x].to;
      var packet := ArrivalRoutes(cfgs, net, x, junk);
      RouteKeepsSources(cfgs[to.node], net.nodes[to.node], to.slot, net.seen, packet, junk);
    case _ =>
  }

  /** Every packet is complete for the device of every daemon. */
  predicate AllParseable(cfgs: seq<Config>, seen: seq<Packet>) {
    forall n, k :: 0 <= n < |cfgs| && 0 <= k < |seen| ==> Parseable(cfgs[n].host, seen[k])
  }

  lemma {:induction false} RunInv(cfgs: seq<Config>, run: seq<Net>, i: nat)
    requires IsRun(cfgs, run) && i < |run| && cfgs != []
    ensures ConnectionsInv(cfgs, run[i]) && PacketsInv(cfgs, run[i])
  {
    if i > 0 {
      hide Enabled;
      hide Apply;
      hide ConnectionsInv;
      hide PacketsInv;
      RunInv(cfgs, run, i - 1);
      assert Next(cfgs, run[i - 1], run[i - 1 + 1]);
      var m :| Enabled(cfgs, run[i - 1], m) && run[i] == Apply(cfgs, run[i - 1], m);
      StepPackets(cfgs, run[i - 1], m);
    }
  }

  lemma {:induction false} RunSources(cfgs: seq<Config>, run: seq<Net>, i: nat)
    requires IsRun(cfgs, run) && i < |run| && cfgs != [] && AllParseable(cfgs, run[i].seen)
    ensures SourcesInv(cfgs, run[i])
  {
    if i > 0 {
      hide Enabled;
      hide Apply;
      hide ConnectionsInv;
      hide PacketsInv;
      hide SourcesInv;
      hide Parseable;
      RunInv(cfgs, run, i - 1);
      assert Next(cfgs, run[i - 1], run[i - 1 + 1]);
      var m :| Enabled(cfgs, run[i - 1], m) && run[i] == Apply(cfgs, run[i - 1], m);
      SeenGrows(cfgs, run[i - 1], m);
      assert forall k :: 0 <= k < |run[i - 1].seen| ==> run[i].seen[k] == run[i - 1].seen[k];
      RunSources(cfgs, run, i - 1);
      StepSources(cfgs, run[i - 1], m);
    }
  }

  lemma SeenGrows(cfgs: seq<Config>, net: Net, m: Move)
    requires Enabled(cfgs, net, m)
    ensures net.seen <= Apply(cfgs, net, m).seen
  {
    hide TunRead;
    hide ProcessFrame;
    hide Post;
    hide Written;
    hide AddPeer;
  }

  /** Main result: every packet written to any device is byte for byte a packet read earlier from
      some device, however many hops it took and whatever connections came and went. */
  lemma WrittenWasRead(cfgs: seq<Config>, run: seq<Net>, i: nat, k: nat)
    requires IsRun(cfgs, run) && i < |run| && cfgs != [] && k < |run[i].written|
    ensures run[i].written[k] in run[i].seen
  {
    RunInv(cfgs, run, i);
  }

  /** Main result: when every packet read so far is complete, every address in the local routes or
      in the routes of any peer of any daemon was the source of one of them. */
  lemma AddressesWereSources(cfgs: seq<Config>, run: seq<Net>, i: nat, n: nat, r: Route)
    requires IsRun(cfgs, run) && i < |run| && cfgs != [] && n < |run[i].nodes|
    requires AllParseable(cfgs, run[i].seen)
    requires
      || r in run[i].nodes[n].local
      || exists j :: 0 <= j < |run[i].nodes[n].slots| && r in run[i].nodes[n].slots[j].routes
    ensures |run[i].nodes| == |cfgs|
    ensures exists p ::
      && p in run[i].seen && Parseable(cfgs[n].host, p)
      && KeyOf(r) == SourceKey(cfgs[n].host, p)
  {
    RunSources(cfgs, run, i);
    assert NodeSources(cfgs[n].host, run[i].seen, run[i].nodes[n]);
    assert HasSource(cfgs[n].host, run[i].seen, r);
  }

  /** In every reachable state a packet for a looked-up owner becomes exactly one frame, which goes
      on a wire of that owner's connection; the receiver accepts it exactly when the packet is
      shorter than the largest payload; and while the element at the other end is in the connection,
      its own decrypt context gives back the packet. */
  lemma UnicastIsReadable(cfgs: seq<Config>, run: seq<Net>, i: nat, n: nat, r: Route, packet: Packet)
    requires IsRun(cfgs, run) && i < |run| && cfgs != [] && n < |run[i].nodes|
    requires Owner(run[i].nodes[n], r).Some?
    ensures n < |cfgs|
    ensures var net, p := run[i], Owner(run[i].nodes[n], r).value;
            var outs := SendTo(cfgs[n], net.nodes[n].slots, p, packet);
            var x := End(n, p, net.nodes[n].slots[p].epoch);
      && |outs| == 1 && outs[0].ToPeer? && outs[0].slot == p
      && outs[0].frame.kind == FRAME_HDR_NETPACKET && outs[0].frame.payload != []
      && (Sendable(outs[0].frame) <==> |packet| < FRAME_PAYLOAD_MAXSIZE)
      && x in net.wires
      && (Current(net, net.wires[x].to) ==>
            var s := SlotAt(net, net.wires[x].to);
            && s.authenticated && net.wires[x].to.node < |cfgs|
            && Opened(cfgs[net.wires[x].to.node], s, outs[0].frame.payload) == Some(packet))
  {
    RunInv(cfgs, run, i);
    var net, p := run[i], Owner(run[i].nodes[n], r).value;
    var x := End(n, p, net.nodes[n].slots[p].epoch);
    assert SlotInv(net, n, p);
    assert WireInv(net, x) && WireInv(net, net.wires[x].to);
    AesRoundTrip(cfgs[0].cipher, net.wires[x].key, packet);
    hide AesEncrypt;
    hide AesDecrypt;
    hide SoundCipher;
  }

  // ---------------------------------------------------------------- steps do what they should

  /** Posting puts on each wire of node `n` the frames for its peer, in order, and leaves all other wires
      as they are. */
  lemma {:induction false} PostPuts(wires: map<End, Wire>, n: nat, slots: seq<Slot>, outs: seq<Out>, x: End)
    requires x in wires
    ensures var wires' := Post(wires, n, slots, outs);
      && x in wires'
      && wires'[x].queue == wires[x].queue
           + if x.node == n && x.slot < |slots| && x.epoch == slots[x.slot].epoch then FramesFor(outs, x.slot) else []
    decreases outs
  {
    if outs != [] {
      var wires' := PostOne(wires, n, slots, outs[0]);
      PostPuts(wires', n, slots, outs[1..], x);
      if x.node == n && x.slot < |slots| && x.epoch == slots[x.slot].epoch {
        Regroup(wires[x].queue, FrameFor(outs[0], x.slot), FramesFor(outs[1..], x.slot));
        assert wires'[x].queue == wires[x].queue + FrameFor(outs[0], x.slot);
      }
    }
  }

  /** What a read puts on each wire: one frame for the packet, if `ReadForwards` of module Forwarding says
      so. The packet counts as seen, and nothing is written. */
  lemma ReadPuts(cfgs: seq<Config>, net: Net, n: nat, packet: Packet, junk: Junk, x: End)
    requires Enabled(cfgs, net, Read(n, packet, junk)) && x in net.wires
    ensures var net' := Apply(cfgs, net, Read(n, packet, junk));
            var st := TunRead(cfgs[n], net.nodes[n], packet, junk);
      && x in net'.wires && net'.wires[x].to == net.wires[x].to && net'.wires[x].key == net.wires[x].key
      && net'.wires[x].queue == net.wires[x].queue
           + (if x.node == n && Current(net, x) then FramesFor(st.outs, x.slot) else [])
      && net'.seen == net.seen + [packet] && net'.written == net.written + Written(st.outs)
      && net'.nodes == net.nodes[n := st.daemon]
  {
    hide TunRead;
    var st := TunRead(cfgs[n], net.nodes[n], packet, junk);
    PostPuts(net.wires, n, net.nodes[n].slots, st.outs, x);
    PostKeepsWires(net.wires, n, net.nodes[n].slots, st.outs);
  }

  /** What an arrival does: the first frame leaves its wire, and what processing it gives goes on the
      other wires of the node and to its device. */
  lemma ArrivePuts(cfgs: seq<Config>, net: Net, from: End, junk: Junk, x: End)
    requires Enabled(cfgs, net, Arrive(from, junk)) && x in net.wires
    ensures var net' := Apply(cfgs, net, Arrive(from, junk));
            var to, queue := net.wires[from].to, net.wires[from].queue;
            var st := ProcessFrame(cfgs[to.node], net.nodes[to.node], to.slot, queue[0], junk);
      && x in net'.wires && net'.wires[x].to == net.wires[x].to && net'.wires[x].key == net.wires[x].key
      && net'.wires[x].queue == (if x == from then queue[1..] else net.wires[x].queue)
           + (if x.node == to.node && Current(net, x) then FramesFor(st.outs, x.slot) else [])
      && net'.seen == net.seen && net'.written == net.written + Written(st.outs)
      && net'.nodes == net.nodes[to.node := st.daemon]
  {
    hide ProcessFrame;
    var w := net.wires[from];
    var st := ProcessFrame(cfgs[w.to.node], net.nodes[w.to.node], w.to.slot, w.queue[0], junk);
    var wires := net.wires[from := w.(queue := w.queue[1..])];
    PostPuts(wires, w.to.node, net.nodes[w.to.node].slots, st.outs, x);
    PostKeepsWires(wires, w.to.node, net.nodes[w.to.node].slots, st.outs);
  }

  /** A connection that breaks is gone at once: nothing more arrives at that end, nothing is sent from it,
      and its element is free for the next connection. Nothing else changes. */
  lemma BreakEnds(cfgs: seq<Config>, net: Net, n: nat, i: nat, packet: Packet)
    requires Enabled(cfgs, net, Break(n, i))
    ensures var net' := Apply(cfgs, net, Break(n, i));
      && |net'.nodes| == |net.nodes| && |net'.nodes[n].slots| == |net.nodes[n].slots|
      && Seal(cfgs[n], net'.nodes[n].slots[i], packet) == [] && FirstDead(net'.nodes[n].slots) <= i
      && (forall x, junk :: x in net'.wires && net'.wires[x].to.node == n && net'.wires[x].to.slot == i ==>
            !Enabled(cfgs, net', Arrive(x, junk)))
      && net'.wires == net.wires && net'.seen == net.seen && net'.written == net.written
      && (forall m, j :: 0 <= m < |net.nodes| && 0 <= j < |net.nodes[m].slots| && (m != n || j != i) ==>
            |net'.nodes[m].slots| == |net.nodes[m].slots| && net'.nodes[m].slots[j] == net.nodes[m].slots[j])
  {
  }

  // ---------------------------------------------------------------- it works

  /** The only element of a daemon, in its first connection. */
  function FirstPeer(isClient: bool, key: SessionKey): Slot {
    Established(SetPeerInfo(INITIAL_SLOT, isClient), key)
  }

  lemma NobodyKnows(cfg: Config, isClient: bool, key: SessionKey, local: seq<Route>, packet: Packet, r: Route)
    ensures var d := Daemon([FirstPeer(isClient, key)], local);
      && Owner(d, r) == None
      && Broadcast(cfg, d, packet, None)
         == [ToPeer(0, Frame(FRAME_HDR_NETPACKET, AesEncrypt(cfg.cipher, key, packet)))]
      && Broadcast(cfg, d, packet, Some(0)) == []
  {
    hide AesEncrypt;
    var slots := [FirstPeer(isClient, key)];
    var f := Frame(FRAME_HDR_NETPACKET, AesEncrypt(cfg.cipher, key, packet));
    assert SendTo(cfg, slots, 0, packet) == [ToPeer(0, f)];
    assert BroadcastFrom(cfg, slots, packet, None, 1) == [] && BroadcastFrom(cfg, slots, packet, Some(0), 1) == [];
    assert [ToPeer(0, f)] + [] == [ToPeer(0, f)] && OwnerFrom(slots, r, 1) == None;
  }

  lemma FirstRead(cfg: Config, isClient: bool, key: SessionKey, packet: Packet, junk: Junk)
    ensures var st := TunRead(cfg, Daemon([FirstPeer(isClient, key)], []), packet, junk);
            st.outs == [ToPeer(0, Frame(FRAME_HDR_NETPACKET, AesEncrypt(cfg.cipher, key, packet)))]
  {
    hide AesEncrypt;
    hide ParseAddr;
    var src := ParseAddr(cfg.host, InBuffer(packet, junk.buf), junk.route, true);
    var dst := ParseAddr(cfg.host, InBuffer(packet, junk.buf), src, false);
    hide Owner;
    hide Broadcast;
    NobodyKnows(cfg, isClient, key, [] + [src], packet, dst);
    assert !InRoutes(src, []);
  }

  lemma FirstArrival(cfg: Config, isClient: bool, key: SessionKey, packet: Packet, junk: Junk)
    requires SoundCipher(cfg.cipher)
    ensures var f := Frame(FRAME_HDR_NETPACKET, AesEncrypt(cfg.cipher, key, packet));
            ProcessFrame(cfg, Daemon([FirstPeer(isClient, key)], []), 0, f, junk).outs == [ToTun(packet)]
  {
    AesRoundTrip(cfg.cipher, key, packet);
    hide AesEncrypt;
    hide AesDecrypt;
    hide ParseAddr;
    var dst := ParseAddr(cfg.host, InBuffer(packet, junk.buf), junk.route, false);
    NobodyKnows(cfg, isClient, key, [], packet, dst);
    hide Owner;
    hide Broadcast;
    assert !InRoutes(dst, []);
    assert [ToTun(packet)] + [] == [ToTun(packet)];
  }

  lemma OneOutput(o: Out)
    ensures o.ToPeer? ==> FramesFor([o], o.slot) == [o.frame] && Written([o]) == []
    ensures o.ToTun? ==> Written([o]) == [o.packet]
  {
    assert [o][1..] == [];
  }

  lemma FirstConnection(isClient: bool)
    ensures AddPeer(INITIAL_DAEMON, isClient) == Daemon([SetPeerInfo(INITIAL_SLOT, isClient)], [])
  {
    var s := SetPeerInfo(INITIAL_SLOT, isClient);
    assert [] + [s] == [s];
  }

  /** Two daemons connect. */
  lemma Connects(cfgs: seq<Config>, key: SessionKey) returns (run: seq<Net>)
    requires ValidConfigs(cfgs) && |cfgs| == 2
    ensures |run| == 4 && IsRun(cfgs, run)
    ensures var a, b := End(0, 0, 1), End(1, 0, 1);
            run[3] == Net([Daemon([FirstPeer(false, key)], []), Daemon([FirstPeer(true, key)], [])],
                          map[a := Wire(b, key, []), b := Wire(a, key, [])], [], [])
  {
    var net0 := Net([INITIAL_DAEMON, INITIAL_DAEMON], map[], [], []);
    var net1 := Through(cfgs, net0, Open(0, false));
    FirstConnection(false);
    FirstConnection(true);
    hide AddPeer;
    var first, second := Daemon([SetPeerInfo(INITIAL_SLOT, false)], []), Daemon([SetPeerInfo(INITIAL_SLOT, true)], []);
    assert net1.nodes == [first, INITIAL_DAEMON];
    var net2 := Through(cfgs, net1, Open(1, true));
    assert net2.nodes == [first, second];
    assert net2 == Net([first, second], map[], [], []);
    var net3 := TheyEstablish(cfgs, key);
    assert Init(cfgs, net0);
    run := [net0, net1, net2, net3];
  }

  lemma TheyEstablish(cfgs: seq<Config>, key: SessionKey) returns (net': Net)
    requires |cfgs| == 2
    ensures var first := Daemon([SetPeerInfo(INITIAL_SLOT, false)], []);
            var second := Daemon([SetPeerInfo(INITIAL_SLOT, true)], []);
            Next(cfgs, Net([first, second], map[], [], []), net')
    ensures var a, b := End(0, 0, 1), End(1, 0, 1);
            net' == Net([Daemon([FirstPeer(false, key)], []), Daemon([FirstPeer(true, key)], [])],
                        map[a := Wire(b, key, []), b := Wire(a, key, [])], [], [])
  {
    var first, second := Daemon([SetPeerInfo(INITIAL_SLOT, false)], []), Daemon([SetPeerInfo(INITIAL_SLOT, true)], []);
    var net := Net([first, second], map[], [], []);
    var a, b := End(0, 0, 1), End(1, 0, 1);
    net' := Through(cfgs, net, Establish(a, b, key));
    var up, up' := Daemon([FirstPeer(false, key)], []), Daemon([FirstPeer(true, key)], []);
    OnlySlot(first, FirstPeer(false, key));
    OnlySlot(second, FirstPeer(true, key));
    var net1 := UpdateSlot(net, 0, 0, FirstPeer(false, key));
    hide Established;
    TwoNodes(first, second, up, up');
    assert net1.nodes == [up, second];
    assert net'.nodes == [up, up'];
    assert net'.wires == map[a := Wire(b, key, []), b := Wire(a, key, [])];
  }

  lemma OnlySlot(d: Daemon, s: Slot)
    requires |d.slots| == 1
    ensures d.(slots := d.slots[0 := s]) == Daemon([s], d.local)
  {
  }

  lemma TwoNodes(x: Daemon, y: Daemon, x': Daemon, y': Daemon)
    ensures [x, y][0 := x'] == [x', y] && [x', y][1 := y'] == [x', y']
  {
  }

  /** Two daemons connect, and any packet that the first reads is written by the second, once. */
  lemma PacketGetsThrough(cfgs: seq<Config>, key: SessionKey, packet: Packet, junk: Junk, junk': Junk)
    returns (run: seq<Net>)
    requires ValidConfigs(cfgs) && |cfgs| == 2 && 0 < |packet| <= 2047
    ensures IsRun(cfgs, run) && run[|run| - 1].seen == [packet] && run[|run| - 1].written == [packet]
  {
    hide Next;
    var before := Connects(cfgs, key);
    var net3, a := before[3], End(0, 0, 1);
    hide IsRun;
    var net4 := Through(cfgs, net3, Read(0, packet, junk));
    var f := Frame(FRAME_HDR_NETPACKET, AesEncrypt(cfgs[0].cipher, key, packet));
    ReadPuts(cfgs, net3, 0, packet, junk, a);
    FirstRead(cfgs[0], false, key, packet, junk);
    OneOutput(ToPeer(0, f));
    hide Apply;
    hide FramesFor;
    hide Written;
    assert net4.wires[a].queue == [f];
    assert net4.nodes[1] == net3.nodes[1] && net4.wires[a].to == End(1, 0, 1);
    assert net4.seen == [packet] && net4.written == [];
    var net5 := Through(cfgs, net4, Arrive(a, junk'));
    ArrivePuts(cfgs, net4, a, junk', a);
    FirstArrival(cfgs[1], true, key, packet, junk');
    OneOutput(ToTun(packet));
    run := before + [net4, net5];
    LongerRun(cfgs, before, net4, net5);
  }

  lemma LongerRun(cfgs: seq<Config>, run: seq<Net>, net: Net, net': Net)
    requires IsRun(cfgs, run) && Next(cfgs, run[|run| - 1], net) && Next(cfgs, net, net')
    ensures IsRun(cfgs, run + [net, net'])
  {
    hide Next;
    var longer := run + [net, net'];
    forall i | 0 <= i < |longer| - 1 ensures Next(cfgs, longer[i], longer[i + 1]) {
      assert i < |run| - 1 ==> Next(cfgs, run[i], run[i + 1]);
    }
  }

  lemma Through(cfgs: seq<Config>, net: Net, m: Move) returns (net': Net)
    requires Enabled(cfgs, net, m)
    ensures net' == Apply(cfgs, net, m) && Next(cfgs, net, net')
  {
    net' := Apply(cfgs, net, m);
  }
}
