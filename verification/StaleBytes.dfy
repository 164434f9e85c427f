/** The bytes of a route record beyond the meaningful ones never matter.

    Records are copied whole, so the bytes beyond the fourth of an IPv4 address and beyond the
    sixth of a MAC address are whatever memory held. Two runs of a daemon that differ only in
    such bytes, and in the uninitialised memory their packets are parsed into, do the same. */
module StaleBytes {
  import opened Framing
  import opened Cipher
  import opened Routes
  import opened PacketHeader
  import opened Router
  import opened Wrappers

  predicate SimilarRoutes(rs: seq<Route>, qs: seq<Route>) {
    |rs| == |qs| && forall i :: 0 <= i < |rs| ==> SameRoute(rs[i], qs[i])
  }

  predicate SimilarSlots(s: Slot, t: Slot) {
    t == s.(routes := t.routes) && SimilarRoutes(s.routes, t.routes)
  }

  predicate Similar(d: Daemon, e: Daemon) {
    && SimilarRoutes(d.local, e.local)
    && |d.slots| == |e.slots|
    && forall i :: 0 <= i < |d.slots| ==> SimilarSlots(d.slots[i], e.slots[i])
  }

  /** For a packet with a complete header nothing in memory matters. For another one the
      record decides, or the bytes beyond the packet, and these must then agree. */
  predicate SimilarJunk(h: Host, packet: Packet, j: Junk, k: Junk) {
    Parseable(h, packet) || (SameRoute(j.route, k.route) && j.buf == k.buf)
  }

  predicate SimilarEvents(cfg: Config, d: Daemon, e: Event, f: Event) {
    match (e, f)
    case (Tun(packet, j), Tun(packet', k)) => packet' == packet && SimilarJunk(cfg.host, packet, j, k)
    case (Deliver(i, frame, drawn, j), Deliver(i', frame', drawn', k)) =>
      && i' == i && frame' == frame && drawn' == drawn
      && (i < |d.slots| ==>
            match Opened(cfg, d.slots[i], frame.payload)
            case None => true
            case Some(packet) => SimilarJunk(cfg.host, packet, j, k))
    case _ => f == e
  }

  lemma ParsedAlike(h: Host, packet: Packet, j: Junk, k: Junk, r: Route, q: Route, source: bool)
    requires SimilarJunk(h, packet, j, k) && (Parseable(h, packet) || SameRoute(r, q))
    ensures SameRoute(ParseAddr(h, InBuffer(packet, j.buf), r, source),
                      ParseAddr(h, InBuffer(packet, k.buf), q, source))
  {
    if Parseable(h, packet) {
      ParsedKey(h, packet, j.buf, r, source);
      ParsedKey(h, packet, k.buf, q, source);
    } else {
      SameBufferAlike(h, InBuffer(packet, j.buf), r, q, source);
    }
  }

  lemma SameBufferAlike(h: Host, buf: Buffer, r: Route, q: Route, source: bool)
    requires SameRoute(r, q)
    ensures SameRoute(ParseAddr(h, buf, r, source), ParseAddr(h, buf, q, source))
  {
    if h.tap {
      EthernetKey(buf[4..], r, source);
      EthernetKey(buf[4..], q, source);
    } else if EtherType(buf) == ETH_P_IP {
      Ip4Key(h, buf[4..], r, source);
      Ip4Key(h, buf[4..], q, source);
    }
  }

  lemma InRoutesAlike(r: Route, q: Route, rs: seq<Route>, qs: seq<Route>)
    requires SameRoute(r, q) && SimilarRoutes(rs, qs)
    ensures InRoutes(r, rs) <==> InRoutes(q, qs)
  {
    if InRoutes(r, rs) {
      var i :| 0 <= i < |rs| && SameRoute(r, rs[i]);
      assert SameRoute(q, qs[i]);
    }
    if InRoutes(q, qs) {
      var i :| 0 <= i < |qs| && SameRoute(q, qs[i]);
      assert SameRoute(r, rs[i]);
    }
  }

  lemma OwnerAlike(d: Daemon, e: Daemon, r: Route, q: Route)
    requires SameRoute(r, q) && Similar(d, e)
    ensures Owner(d, r) == Owner(e, q)
  {
    forall i | 0 <= i < |d.slots| ensures Owns(d.slots[i], r) <==> Owns(e.slots[i], q) {
      assert SimilarSlots(d.slots[i], e.slots[i]);
      InRoutesAlike(r, q, d.slots[i].routes, e.slots[i].routes);
    }
  }

  lemma SendAlike(cfg: Config, d: Daemon, e: Daemon, packet: Packet, i: nat)
    requires Similar(d, e) && i < |d.slots|
    ensures i < |e.slots| && SendTo(cfg, d.slots, i, packet) == SendTo(cfg, e.slots, i, packet)
  {
    hide AesEncrypt;
    assert SimilarSlots(d.slots[i], e.slots[i]);
  }

  lemma {:induction false} BroadcastAlike(cfg: Config, d: Daemon, e: Daemon, packet: Packet, exclude: Option<nat>,
                                          i: nat)
    requires Similar(d, e)
    ensures |d.slots| == |e.slots|
    ensures BroadcastFrom(cfg, d.slots, packet, exclude, i) == BroadcastFrom(cfg, e.slots, packet, exclude, i)
    decreases |d.slots| - i
  {
    hide Seal;
    if i < |d.slots| {
      SendAlike(cfg, d, e, packet, i);
      hide Similar;
      BroadcastAlike(cfg, d, e, packet, exclude, i + 1);
    }
  }

  lemma TunAlike(cfg: Config, d: Daemon, e: Daemon, packet: Packet, j: Junk, k: Junk)
    requires Similar(d, e) && SimilarJunk(cfg.host, packet, j, k)
    ensures var st, su := TunRead(cfg, d, packet, j), TunRead(cfg, e, packet, k);
            st.outs == su.outs && Similar(st.daemon, su.daemon)
  {
    hide AesEncrypt;
    var bufJ, bufK := InBuffer(packet, j.buf), InBuffer(packet, k.buf);
    var srcJ, srcK := ParseAddr(cfg.host, bufJ, j.route, true), ParseAddr(cfg.host, bufK, k.route, true);
    ParsedAlike(cfg.host, packet, j, k, j.route, k.route, true);
    InRoutesAlike(srcJ, srcK, d.local, e.local);
    ParsedAlike(cfg.host, packet, j, k, srcJ, srcK, false);
    hide ParseAddr;
    hide InRoutes;
    hide SameRoute;
    var st, su := TunRead(cfg, d, packet, j), TunRead(cfg, e, packet, k);
    assert Similar(st.daemon, su.daemon);
    OwnerAlike(st.daemon, su.daemon, ParseAddr(cfg.host, bufJ, srcJ, false), ParseAddr(cfg.host, bufK, srcK, false));
    BroadcastAlike(cfg, st.daemon, su.daemon, packet, None, 0);
    hide BroadcastFrom;
    hide Seal;
    forall i | 0 <= i < |d.slots|
      ensures SendTo(cfg, st.daemon.slots, i, packet) == SendTo(cfg, su.daemon.slots, i, packet)
    {
      SendAlike(cfg, st.daemon, su.daemon, packet, i);
    }
  }

  lemma RouteAlike(cfg: Config, d: Daemon, e: Daemon, i: nat, packet: Packet, j: Junk, k: Junk)
    requires i < |d.slots| && Similar(d, e) && SimilarJunk(cfg.host, packet, j, k)
    ensures var st, su := RoutePacket(cfg, d, i, packet, j), RoutePacket(cfg, e, i, packet, k);
            st.outs == su.outs && Similar(st.daemon, su.daemon)
  {
    hide AesEncrypt;
    var bufJ, bufK := InBuffer(packet, j.buf), InBuffer(packet, k.buf);
    var dstJ, dstK := ParseAddr(cfg.host, bufJ, j.route, false), ParseAddr(cfg.host, bufK, k.route, false);
    ParsedAlike(cfg.host, packet, j, k, j.route, k.route, false);
    InRoutesAlike(dstJ, dstK, d.local, e.local);
    OwnerAlike(d, e, dstJ, dstK);
    ParsedAlike(cfg.host, packet, j, k, dstJ, dstK, true);
    OwnerAlike(d, e, ParseAddr(cfg.host, bufJ, dstJ, true), ParseAddr(cfg.host, bufK, dstK, true));
    hide ParseAddr;
    hide InRoutes;
    hide SameRoute;
    hide OwnerFrom;
    BroadcastAlike(cfg, d, e, packet, Some(i), 0);
    hide BroadcastFrom;
    hide Seal;
    forall n | 0 <= n < |d.slots|
      ensures SendTo(cfg, d.slots, n, packet) == SendTo(cfg, e.slots, n, packet) && SimilarSlots(d.slots[n], e.slots[n])
    {
      SendAlike(cfg, d, e, packet, n);
    }
  }

  lemma ReceivingAlike(cfg: Config, d: Daemon, e: Daemon, i: nat, frame: Frame, j: Junk, k: Junk)
    requires Similar(d, e) && i < |d.slots|
    requires match Opened(cfg, d.slots[i], frame.payload)
             case None => true
             case Some(packet) => SimilarJunk(cfg.host, packet, j, k)
    ensures var st, su := ProcessFrame(cfg, d, i, frame, j), ProcessFrame(cfg, e, i, frame, k);
            st.outs == su.outs && Similar(st.daemon, su.daemon)
  {
    hide SameRoute;
    hide AesDecrypt;
    assert SimilarSlots(d.slots[i], e.slots[i]);
    var o := Opened(cfg, d.slots[i], frame.payload);
    if o.Some? { RouteAlike(cfg, d, e, i, o.value, j, k); }
    hide RoutePacket;
  }

  lemma HandshakeAlike(cfg: Config, s: Slot, t: Slot, frame: Frame, drawn: SessionKey, seed: nat)
    requires SimilarSlots(s, t)
    ensures Awaiting(s) ==>
      Awaiting(t) && SimilarSlots(Authenticate(cfg, s, frame, drawn), Authenticate(cfg, t, frame, drawn))
    ensures CanAct(s) ==>
      && CanAct(t) && Act(cfg, s, seed).sent == Act(cfg, t, seed).sent
      && SimilarSlots(Act(cfg, s, seed).slot, Act(cfg, t, seed).slot)
  {
    hide SameRoute;
    hide Received;
    hide RsaEncrypt;
  }

  /** One step: similar states and events give the same outputs and similar states. */
  lemma StepAlike(cfg: Config, d: Daemon, e: Daemon, f: Event, g: Event)
    requires Similar(d, e) && Enabled(d, f) && SimilarEvents(cfg, d, f, g)
    ensures Enabled(e, g)
    ensures var st, su := Apply(cfg, d, f), Apply(cfg, e, g);
            st.outs == su.outs && Similar(st.daemon, su.daemon)
  {
    hide SimilarRoutes;
    hide SimilarJunk;
    hide Act;
    hide Authenticate;
    hide ProcessFrame;
    hide TunRead;
    match f
    case Tun(packet, j) => TunAlike(cfg, d, e, packet, j, g.junk);
    case Deliver(i, frame, drawn, j) =>
      assert SimilarSlots(d.slots[i], e.slots[i]);
      if d.slots[i].stage.Receiving? {
        ReceivingAlike(cfg, d, e, i, frame, j, g.junk);
      } else {
        HandshakeAlike(cfg, d.slots[i], e.slots[i], frame, drawn, 0);
      }
    case Accept(isClient) => AcceptAlike(d, e, isClient);
    case Acts(i, seed) =>
      assert SimilarSlots(d.slots[i], e.slots[i]);
      HandshakeAlike(cfg, d.slots[i], e.slots[i], Frame(0, []), SessionKey([], []), seed);
    case Lost(i) => assert SimilarSlots(d.slots[i], e.slots[i]);
    case Reap(i) => assert SimilarSlots(d.slots[i], e.slots[i]);
  }

  lemma AcceptAlike(d: Daemon, e: Daemon, isClient: bool)
    requires Similar(d, e)
    ensures Similar(AddPeer(d, isClient), AddPeer(e, isClient))
  {
    hide SameRoute;
    var i, j := FirstDead(d.slots), FirstDead(e.slots);
    assert i < |d.slots| ==> SimilarSlots(d.slots[i], e.slots[i]);
    assert j < |d.slots| ==> SimilarSlots(d.slots[j], e.slots[j]);
  }

  /** The states a daemon goes through under a list of events. */
  ghost predicate IsRun(cfg: Config, run: seq<Daemon>, events: seq<Event>) {
    && |run| == |events| + 1
    && forall i | 0 <= i < |events| :: Enabled(run[i], events[i]) && run[i + 1] == Apply(cfg, run[i], events[i]).daemon
  }

  /** Main result: two runs that differ only in stale bytes produce the same outputs at every
      step, and keep differing only in stale bytes. */
  lemma {:induction false} StaleBytesNeverMatter(cfg: Config, run: seq<Daemon>, events: seq<Event>,
                                                 run': seq<Daemon>, events': seq<Event>, n: nat)
    requires IsRun(cfg, run, events) && IsRun(cfg, run', events') && |events| == |events'| && n <= |events|
    requires Similar(run[0], run'[0])
    requires forall i :: 0 <= i < |events| ==> SimilarEvents(cfg, run[i], events[i], events'[i])
    ensures Similar(run[n], run'[n])
    ensures n < |events| ==> Apply(cfg, run[n], events[n]).outs == Apply(cfg, run'[n], events'[n]).outs
  {
    hide Similar;
    hide SimilarEvents;
    hide Enabled;
    hide Apply;
    if n > 0 {
      StaleBytesNeverMatter(cfg, run, events, run', events', n - 1);
      StepAlike(cfg, run[n - 1], run'[n - 1], events[n - 1], events'[n - 1]);
    }
    if n < |events| {
      StepAlike(cfg, run[n], run'[n], events[n], events'[n]);
    }
  }
}
