/** Where packets go, said in terms of addresses: who has an address among its routes, who is alive
    and who is authenticated. Nothing here depends on how the daemon looks an address up, or in which
    order it walks its peers. All results hold in every reachable state, with peers at any stage of
    their connections. */
module Forwarding {
  import opened Framing
  import opened Cipher
  import opened Routes
  import opened PacketHeader
  import opened Router
  import opened RouterRuns
  import opened Wrappers
  import Learning

  /** Peer `p` is alive and the address `key` is among its routes. */
  predicate Has(d: Daemon, p: nat, key: Key) {
    p < |d.slots| && d.slots[p].alive && key in Keys(d.slots[p].routes)
  }

  predicate SomeoneHas(d: Daemon, key: Key) {
    exists p :: 0 <= p < |d.slots| && Has(d, p, key)
  }

  /** Peer `p` can be sent packets. */
  predicate Reachable(d: Daemon, p: nat) {
    p < |d.slots| && d.slots[p].alive && d.slots[p].authenticated
  }

  /** The packet in a NETPACKET frame, under the key of the current connection of a peer. */
  function PacketFrame(cfg: Config, s: Slot, packet: Packet): Frame {
    Frame(8, if s.encCtx.Some? then AesEncrypt(cfg.cipher, s.encCtx.value.value, packet) else [])
  }

  /** The address that a packet is for or comes from: the one it shows or, if what the buffer holds is
      not parsed, the one in the record. */
  function Seen(h: Host, packet: Packet, junk: Junk, source: bool): Key {
    var view := InBuffer(packet, junk.buf);
    if !Parseable(h, view) then KeyOf(junk.route)
    else if source then SourceKey(h, view) else DestinationKey(h, view)
  }

  lemma SeenIsPackets(h: Host, packet: Packet, junk: Junk, source: bool)
    requires Parseable(h, packet)
    ensures Seen(h, packet, junk, source) == if source then SourceKey(h, packet) else DestinationKey(h, packet)
  {
    Learning.CompleteView(h, packet, junk.buf);
  }

  // ---------------------------------------------------------------- lookups and broadcasts

  /** In a reachable state the owner is the one alive peer that has the address, and it can be sent
      packets. */
  lemma OwnerHas(cfg: Config, d: Daemon, r: Route)
    requires Inv(cfg, d)
    ensures forall p :: 0 <= p < |d.slots| ==> (Owner(d, r) == Some(p) <==> Has(d, p, KeyOf(r)))
    ensures forall p :: 0 <= p < |d.slots| && Has(d, p, KeyOf(r)) ==> Reachable(d, p)
    ensures Owner(d, r).Some? <==> SomeoneHas(d, KeyOf(r))
  {
    forall p | 0 <= p < |d.slots|
      ensures Owner(d, r) == Some(p) <==> Has(d, p, KeyOf(r))
      ensures Has(d, p, KeyOf(r)) ==> Reachable(d, p)
    {
      OwnerIsUnique(d, r, p);
      assert SlotInv(cfg, d.slots[p]);
    }
    hide Owner;
    OwnerIsThere(d, r);
  }

  lemma OwnerIsThere(d: Daemon, r: Route)
    ensures Owner(d, r).Some? ==> Owner(d, r).value < |d.slots|
  {
  }

  lemma {:induction false} FramesForAppend(a: seq<Out>, b: seq<Out>, p: nat)
    ensures FramesFor(a + b, p) == FramesFor(a, p) + FramesFor(b, p)
    ensures Written(a + b) == Written(a) + Written(b)
  {
    hide FrameFor;
    hide WrittenBy;
    if a == [] {
      assert a + b == b;
    } else {
      FramesForAppend(a[1..], b, p);
      assert (a + b)[1..] == a[1..] + b;
      Regroup(FrameFor(a[0], p), FramesFor(a[1..], p), FramesFor(b, p));
      Regroup(WrittenBy(a[0]), Written(a[1..]), Written(b));
    }
  }

  lemma SentToPeer(cfg: Config, d: Daemon, q: nat, packet: Packet, p: nat)
    requires SlotsInv(cfg, d) && q < |d.slots|
    ensures var outs := SendTo(cfg, d.slots, q, packet);
      && FramesFor(outs, p) == (if q == p && Reachable(d, p) then [PacketFrame(cfg, d.slots[p], packet)] else [])
      && Written(outs) == []
  {
    hide AesEncrypt;
    assert SlotInv(cfg, d.slots[q]);
    var outs := SendTo(cfg, d.slots, q, packet);
    assert outs != [] ==> outs[1..] == [];
  }

  lemma {:induction false} BroadcastToPeer(cfg: Config, d: Daemon, packet: Packet, exclude: Option<nat>, i: nat, p: nat)
    requires SlotsInv(cfg, d) && p < |d.slots|
    ensures var outs := BroadcastFrom(cfg, d.slots, packet, exclude, i);
      && FramesFor(outs, p)
         == (if i <= p && exclude != Some(p) && Reachable(d, p) then [PacketFrame(cfg, d.slots[p], packet)] else [])
      && Written(outs) == []
    decreases |d.slots| - i
  {
    hide SlotsInv;
    hide SendTo;
    hide PacketFrame;
    if i < |d.slots| {
      BroadcastToPeer(cfg, d, packet, exclude, i + 1, p);
      SentToPeer(cfg, d, i, packet, p);
      var head := if exclude == Some(i) then [] else SendTo(cfg, d.slots, i, packet);
      FramesForAppend(head, BroadcastFrom(cfg, d.slots, packet, exclude, i + 1), p);
    }
  }

  /** Sending to the owner of a route, or to everyone but `exclude` if it has none. */
  lemma LookupSends(cfg: Config, d: Daemon, r: Route, packet: Packet, exclude: Option<nat>, p: nat)
    requires Inv(cfg, d) && p < |d.slots|
    ensures var o := Owner(d, r);
            var outs := if o.Some? then SendTo(cfg, d.slots, o.value, packet) else Broadcast(cfg, d, packet, exclude);
      && Written(outs) == []
      && FramesFor(outs, p)
         == if Has(d, p, KeyOf(r)) || (!SomeoneHas(d, KeyOf(r)) && exclude != Some(p) && Reachable(d, p))
            then [PacketFrame(cfg, d.slots[p], packet)] else []
  {
    hide PacketFrame;
    OwnerHas(cfg, d, r);
    OwnerIsThere(d, r);
    hide RoutesInv;
    hide SlotsInv;
    hide Owner;
    hide SendTo;
    hide Has;
    hide Reachable;
    var o := Owner(d, r);
    if o.Some? {
      SentToPeer(cfg, d, o.value, packet, p);
    } else {
      BroadcastToPeer(cfg, d, packet, exclude, 0, p);
    }
  }

  // ---------------------------------------------------------------- main results

  /** Main result on tun/tap reads, for any packet: it is handed to the device never; to a peer once, if
      the peer has the destination, or if nobody has it and the peer can be sent packets; and to nobody
      else. Reading changes nothing about the peers. */
  lemma ReadForwards(cfg: Config, d: Daemon, packet: Packet, junk: Junk)
    requires Inv(cfg, d)
    ensures var st := TunRead(cfg, d, packet, junk);
            var key := Seen(cfg.host, packet, junk, false);
      && Written(st.outs) == []
      && (forall p :: 0 <= p < |d.slots| ==>
            FramesFor(st.outs, p)
            == if Has(d, p, key) || (!SomeoneHas(d, key) && Reachable(d, p))
               then [PacketFrame(cfg, d.slots[p], packet)] else [])
      && (forall o :: o in st.outs ==> o.ToPeer? && o.slot < |d.slots|)
      && st.daemon.slots == d.slots
  {
    var view := InBuffer(packet, junk.buf);
    var src := ParseAddr(cfg.host, view, junk.route, true);
    var dst := ParseAddr(cfg.host, view, src, false);
    Learning.ParsedView(cfg.host, view, junk.route, true);
    Learning.ParsedView(cfg.host, view, src, false);
    TunReadCarries(cfg, d, packet, junk);
    hide ParseAddr;
    hide InRoutes;
    hide Inv;
    hide PacketFrame;
    hide Has;
    hide SomeoneHas;
    hide Reachable;
    hide SendTo;
    var d' := TunRead(cfg, d, packet, junk).daemon;
    SameSlots(cfg, d, d', dst, packet);
    forall p | 0 <= p < |d.slots|
      ensures FramesFor(TunRead(cfg, d, packet, junk).outs, p)
              == if Has(d, p, KeyOf(dst)) || (!SomeoneHas(d, KeyOf(dst)) && Reachable(d, p))
                 then [PacketFrame(cfg, d.slots[p], packet)] else []
    {
      LookupSends(cfg, d, dst, packet, None, p);
    }
    if d.slots == [] {
      NoPeers(cfg, d, dst, packet);
    } else {
      LookupSends(cfg, d, dst, packet, None, 0);
    }
  }

  lemma SameSlots(cfg: Config, d: Daemon, d': Daemon, r: Route, packet: Packet)
    requires d'.slots == d.slots
    ensures Owner(d', r) == Owner(d, r) && Broadcast(cfg, d', packet, None) == Broadcast(cfg, d, packet, None)
  {
  }

  lemma NoPeers(cfg: Config, d: Daemon, r: Route, packet: Packet)
    requires d.slots == []
    ensures Owner(d, r) == None && forall exclude :: Broadcast(cfg, d, packet, exclude) == []
  {
  }

  /** Main result on arriving packets, for any packet from peer `i`: it is handed to the device, once, if
      and only if its destination is local or nobody has it; to a peer, once, if the destination is not
      local and the peer has it, or nobody has it and the peer can be sent packets and is not the one it
      comes from; and to nobody else. Only the routes of peer `i` change, by one route at most: the
      source, if the destination is local and nobody has the source. */
  lemma ArrivalForwards(cfg: Config, d: Daemon, i: nat, packet: Packet, junk: Junk)
    requires Inv(cfg, d) && i < |d.slots|
    ensures var st := RoutePacket(cfg, d, i, packet, junk);
            var key, src := Seen(cfg.host, packet, junk, false), Seen(cfg.host, packet, junk, true);
            var local := key in Keys(d.local);
      && Written(st.outs) == (if local || !SomeoneHas(d, key) then [packet] else [])
      && (forall p :: 0 <= p < |d.slots| ==>
            FramesFor(st.outs, p)
            == if !local && (Has(d, p, key) || (!SomeoneHas(d, key) && p != i && Reachable(d, p)))
               then [PacketFrame(cfg, d.slots[p], packet)] else [])
      && (forall o :: o in st.outs && o.ToPeer? ==> o.slot < |d.slots|)
      && OnlyLearns(d, st.daemon, i, local && !SomeoneHas(d, src), src)
  {
    var view := InBuffer(packet, junk.buf);
    var dst := ParseAddr(cfg.host, view, junk.route, false);
    var from := ParseAddr(cfg.host, view, dst, true);
    Learning.ParsedView(cfg.host, view, junk.route, false);
    Learning.ParsedView(cfg.host, view, dst, true);
    RoutePacketCarries(cfg, d, i, packet, junk);
    ByDestination(cfg, d, i, packet, junk);
    hide RoutePacket;
    hide ParseAddr;
    hide Inv;
    hide PacketFrame;
    hide Has;
    hide SomeoneHas;
    hide Reachable;
    hide NotLocal;
    hide OnlyLearns;
    forall p | 0 <= p < |d.slots|
      ensures FramesFor(NotLocal(cfg, d, i, packet, dst), p)
              == if Has(d, p, KeyOf(dst)) || (!SomeoneHas(d, KeyOf(dst)) && p != i && Reachable(d, p))
                 then [PacketFrame(cfg, d.slots[p], packet)] else []
      ensures FramesFor([ToTun(packet)], p) == []
    {
      NotLocalSends(cfg, d, i, packet, dst, p);
      ToDeviceOnly(packet, p);
    }
    NotLocalSends(cfg, d, i, packet, dst, i);
    ToDeviceOnly(packet, i);
  }

  /** The two cases of an arrival. */
  lemma ByDestination(cfg: Config, d: Daemon, i: nat, packet: Packet, junk: Junk)
    requires Inv(cfg, d) && i < |d.slots|
    ensures var view := InBuffer(packet, junk.buf);
            var dst := ParseAddr(cfg.host, view, junk.route, false);
            var from := ParseAddr(cfg.host, view, dst, true);
            var st, local := RoutePacket(cfg, d, i, packet, junk), KeyOf(dst) in Keys(d.local);
      && st.outs == (if local then [ToTun(packet)] else NotLocal(cfg, d, i, packet, dst))
      && OnlyLearns(d, st.daemon, i, local && !SomeoneHas(d, KeyOf(from)), KeyOf(from))
  {
    var view := InBuffer(packet, junk.buf);
    var dst := ParseAddr(cfg.host, view, junk.route, false);
    InRoutesIsInKeys(dst, d.local);
    OwnerHas(cfg, d, ParseAddr(cfg.host, view, dst, true));
    hide Inv;
    hide ParseAddr;
    hide InRoutes;
    hide Owner;
    hide Broadcast;
    hide SendTo;
    hide SomeoneHas;
  }

  /** The outputs for a destination that is not local. */
  function NotLocal(cfg: Config, d: Daemon, i: nat, packet: Packet, dst: Route): seq<Out> {
    var o := Owner(d, dst);
    if o.Some? then SendTo(cfg, d.slots, o.value, packet) else [ToTun(packet)] + Broadcast(cfg, d, packet, Some(i))
  }

  lemma NotLocalSends(cfg: Config, d: Daemon, i: nat, packet: Packet, dst: Route, p: nat)
    requires Inv(cfg, d) && p < |d.slots|
    ensures var outs, key := NotLocal(cfg, d, i, packet, dst), KeyOf(dst);
      && Written(outs) == (if SomeoneHas(d, key) then [] else [packet])
      && FramesFor(outs, p)
         == if Has(d, p, key) || (!SomeoneHas(d, key) && p != i && Reachable(d, p))
            then [PacketFrame(cfg, d.slots[p], packet)] else []
  {
    OwnerHas(cfg, d, dst);
    LookupSends(cfg, d, dst, packet, Some(i), p);
    ToDeviceOnly(packet, p);
    hide Inv;
    hide Owner;
    hide Broadcast;
    hide PacketFrame;
    hide Has;
    hide SomeoneHas;
    hide Reachable;
    hide SendTo;
    FramesForAppend([ToTun(packet)], Broadcast(cfg, d, packet, Some(i)), p);
  }

  lemma ToDeviceOnly(packet: Packet, p: nat)
    ensures FramesFor([ToTun(packet)], p) == [] && Written([ToTun(packet)]) == [packet]
  {
    assert [ToTun(packet)][1..] == [];
  }

  /** Nothing changes but that peer `i` has learned a route with the key `src`, if it `learns`. */
  predicate OnlyLearns(d: Daemon, d': Daemon, i: nat, learns: bool, src: Key)
    requires i < |d.slots|
  {
    if !learns then d' == d
    else
      && |d'.slots| == |d.slots|
      && var routes := d'.slots[i].routes;
         && routes != [] && routes[..|routes| - 1] == d.slots[i].routes && KeyOf(routes[|routes| - 1]) == src
         && d' == d.(slots := d.slots[i := d.slots[i].(routes := routes)])
  }

  /** Main result on received frames, by type: CLOSE ends the loop of the peer and does nothing else; a
      non-empty NETPACKET from an authenticated peer is decrypted and, if that succeeds, goes where
      `ArrivalForwards` says; everything else is ignored. */
  lemma FrameForwards(cfg: Config, d: Daemon, i: nat, f: Frame, junk: Junk)
    requires Inv(cfg, d) && i < |d.slots|
    ensures var st := ProcessFrame(cfg, d, i, f, junk);
            var s := d.slots[i];
            var m := if s.decCtx.Some? then AesDecrypt(cfg.cipher, s.decCtx.value.value, f.payload) else None;
      if f.kind == 2 then st == Step(d.(slots := d.slots[i := s.(stage := Ended)]), [])
      else if f.kind == 8 && s.authenticated && f.payload != [] && m.Some?
      then st == RoutePacket(cfg, d, i, m.value, junk)
      else st == Step(d, [])
  {
    hide AesDecrypt;
    hide RoutePacket;
  }
}
