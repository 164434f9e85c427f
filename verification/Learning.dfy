/** Which addresses a daemon learns, for packets of any content and length.

    The record and the buffer of _broadcast_tuntap_device live from one read to the next. A packet
    that is shorter than its headers is parsed together with what earlier packets have left in the
    buffer, and one that is not IP leaves the record as it was. */
module Learning {
  import opened Protocol
  import opened Routes
  import opened PacketHeader
  import opened Router

  /** A buffer is long enough for every header, so it is only in TUN mode, and only when its type is
      not IP, that it is not parsed. */
  lemma WhenParseable(h: Host, view: Buffer)
    ensures Parseable(h, view) <==> h.tap || EtherType(view) == ETH_P_IP || EtherType(view) == ETH_P_IPV6
  {
  }

  /** What the record is after parsing a buffer. */
  lemma ParsedView(h: Host, view: Buffer, route: Route, source: bool)
    ensures Parseable(h, view) ==>
      KeyOf(ParseAddr(h, view, route, source)) == if source then SourceKey(h, view) else DestinationKey(h, view)
    ensures !Parseable(h, view) ==> ParseAddr(h, view, route, source) == route
  {
    WhenParseable(h, view);
    if Parseable(h, view) {
      ParsedKey(h, view, view, route, source);
    }
  }

  /** For a complete packet it does not matter what lies behind it in the buffer. */
  lemma CompleteView(h: Host, packet: seq<byte>, before: Buffer)
    requires Parseable(h, packet)
    ensures var view := InBuffer(packet, before);
      && Parseable(h, view)
      && SourceKey(h, view) == SourceKey(h, packet) && DestinationKey(h, view) == DestinationKey(h, packet)
  {
    var view := InBuffer(packet, before);
    var route := RawRoute(false, false, seq(ADDR_SIZE, _ => 0));
    WhenParseable(h, view);
    assert view[..|packet|] == packet;
    ParsedKey(h, packet, before, route, true);
    ParsedKey(h, packet, before, route, false);
    ParsedKey(h, view, view, route, true);
    ParsedKey(h, view, view, route, false);
  }

  // ---------------------------------------------------------------- reading

  /** One read makes local the source of what stands in the buffer or, if that is not IP, whatever
      address the record holds. */
  lemma ReadLearns(cfg: Config, d: Daemon, packet: Packet, junk: Junk)
    ensures var view := InBuffer(packet, junk.buf);
            Keys(TunRead(cfg, d, packet, junk).daemon.local)
            == Keys(d.local) + {if Parseable(cfg.host, view) then SourceKey(cfg.host, view) else KeyOf(junk.route)}
  {
    var src := ParseAddr(cfg.host, InBuffer(packet, junk.buf), junk.route, true);
    ParsedView(cfg.host, InBuffer(packet, junk.buf), junk.route, true);
    hide ParseAddr;
    InRoutesIsInKeys(src, d.local);
    KeysOfLonger(d.local, src);
  }

  /** One read leaves the destination in the record, or the record as it was. */
  lemma ReadLeaves(cfg: Config, packet: Packet, junk: Junk)
    ensures var view := InBuffer(packet, junk.buf);
            var after := JunkAfter(cfg, packet, junk);
      && after.buf == view
      && KeyOf(after.route) == if Parseable(cfg.host, view) then DestinationKey(cfg.host, view) else KeyOf(junk.route)
  {
    var view := InBuffer(packet, junk.buf);
    ParsedView(cfg.host, view, junk.route, true);
    ParsedView(cfg.host, view, ParseAddr(cfg.host, view, junk.route, true), false);
  }

  /** What the packets make local. `record` is the address in the record before the first read. */
  function LearnedBy(h: Host, packets: seq<Packet>, record: Key, before: Buffer): set<Key>
    decreases |packets|
  {
    if packets == [] then {}
    else
      var view := InBuffer(packets[0], before);
      if Parseable(h, view) then {SourceKey(h, view)} + LearnedBy(h, packets[1..], DestinationKey(h, view), view)
      else {record} + LearnedBy(h, packets[1..], record, view)
  }

  /** Main result: this, and nothing else, is what the reading loop makes local, whatever it reads. */
  lemma {:induction false} LoopLearnsExactly(cfg: Config, d: Daemon, packets: seq<Packet>, junk: Junk)
    ensures Keys(TunLoop(cfg, d, packets, junk).daemon.local)
            == Keys(d.local) + LearnedBy(cfg.host, packets, KeyOf(junk.route), junk.buf)
    decreases |packets|
  {
    hide TunRead;
    hide JunkAfter;
    hide Parseable;
    if packets != [] {
      ReadLearns(cfg, d, packets[0], junk);
      ReadLeaves(cfg, packets[0], junk);
      LoopLearnsExactly(cfg, TunRead(cfg, d, packets[0], junk).daemon, packets[1..], JunkAfter(cfg, packets[0], junk));
    }
  }

  /** The sources of the complete packets. */
  function Sources(h: Host, packets: seq<Packet>): set<Key> {
    set i | 0 <= i < |packets| && Parseable(h, packets[i]) :: SourceKey(h, packets[i])
  }

  /** The addresses that stand in for the sources of the others: the destination of the last packet
      that was parsed for one that is not IP, and for one that is cut short whatever the buffer shows
      where its source would be. */
  function StandIns(h: Host, packets: seq<Packet>, record: Key, before: Buffer): set<Key>
    decreases |packets|
  {
    if packets == [] then {}
    else
      var view := InBuffer(packets[0], before);
      var key := if Parseable(h, view) then SourceKey(h, view) else record;
      var record' := if Parseable(h, view) then DestinationKey(h, view) else record;
      (if Parseable(h, packets[0]) then {} else {key}) + StandIns(h, packets[1..], record', view)
  }

  lemma {:induction false} LearnedIsSourcesAndStandIns(h: Host, packets: seq<Packet>, record: Key, before: Buffer)
    ensures LearnedBy(h, packets, record, before) == Sources(h, packets) + StandIns(h, packets, record, before)
    decreases |packets|
  {
    if packets != [] {
      var p, view := packets[0], InBuffer(packets[0], before);
      if Parseable(h, p) {
        CompleteView(h, p, before);
      }
      hide Parseable;
      hide SourceKey;
      hide DestinationKey;
      SourcesFirst(h, packets);
      var record' := if Parseable(h, view) then DestinationKey(h, view) else record;
      LearnedIsSourcesAndStandIns(h, packets[1..], record', view);
    }
  }

  lemma SourcesFirst(h: Host, packets: seq<Packet>)
    requires packets != []
    ensures Sources(h, packets)
            == (if Parseable(h, packets[0]) then {SourceKey(h, packets[0])} else {}) + Sources(h, packets[1..])
  {
    hide Parseable;
    hide SourceKey;
    var rest := packets[1..];
    forall k | k in Sources(h, rest) ensures k in Sources(h, packets) {
      var i :| 0 <= i < |rest| && Parseable(h, rest[i]) && k == SourceKey(h, rest[i]);
      assert packets[i + 1] == rest[i];
    }
    forall k | k in Sources(h, packets) && (Parseable(h, packets[0]) ==> k != SourceKey(h, packets[0]))
      ensures k in Sources(h, rest)
    {
      var i :| 0 <= i < |packets| && Parseable(h, packets[i]) && k == SourceKey(h, packets[i]);
      assert rest[i - 1] == packets[i];
    }
  }

  /** Main result, the exact condition: the reading loop makes local nothing but sources of complete
      packets if and only if every stand-in is one of these, or was local before. */
  lemma LocalAreSourcesIff(cfg: Config, d: Daemon, packets: seq<Packet>, junk: Junk)
    ensures var sources := Keys(d.local) + Sources(cfg.host, packets);
            Keys(TunLoop(cfg, d, packets, junk).daemon.local) <= sources
            <==> StandIns(cfg.host, packets, KeyOf(junk.route), junk.buf) <= sources
  {
    LoopLearnsExactly(cfg, d, packets, junk);
    LearnedIsSourcesAndStandIns(cfg.host, packets, KeyOf(junk.route), junk.buf);
  }

  /** When all packets are complete there is no stand-in. */
  lemma {:induction false} CompleteHaveNone(h: Host, packets: seq<Packet>, record: Key, before: Buffer)
    requires forall i :: 0 <= i < |packets| ==> Parseable(h, packets[i])
    ensures StandIns(h, packets, record, before) == {}
    decreases |packets|
  {
    if packets != [] {
      var view := InBuffer(packets[0], before);
      CompleteHaveNone(h, packets[1..], if Parseable(h, view) then DestinationKey(h, view) else record, view);
    }
  }

  /** An IPv4 packet from 1.1.1.1 to 2.2.2.2, and an ARP packet. */
  const PING: Packet := [0, 0, 8, 0] + seq(12, _ => 0) + [1, 1, 1, 1] + [2, 2, 2, 2]
  const ARP: Packet := [0, 0, 8, 6]

  /** It does go wrong: after these two reads in TUN mode the destination of the first packet, which
      no packet has come from, is local. */
  lemma DestinationBecomesLocal(cfg: Config, junk: Junk)
    requires !cfg.host.tap
    ensures var packets := [PING, ARP];
      && Parseable(cfg.host, PING) && Sources(cfg.host, packets) == {SourceKey(cfg.host, PING)}
      && DestinationKey(cfg.host, PING) != SourceKey(cfg.host, PING)
      && Keys(TunLoop(cfg, INITIAL_DAEMON, packets, junk).daemon.local)
         == {SourceKey(cfg.host, PING), DestinationKey(cfg.host, PING)}
  {
    var packets, h := [PING, ARP], cfg.host;
    assert PING[16..20] == [1, 1, 1, 1] && PING[20..24] == [2, 2, 2, 2];
    assert SourceKey(h, PING).bytes[0] == 1 && DestinationKey(h, PING).bytes[0] == 2;
    var view := InBuffer(PING, junk.buf);
    var view' := InBuffer(ARP, view);
    CompleteView(h, PING, junk.buf);
    WhenParseable(h, view');
    assert packets[1..] == [ARP] && [ARP][1..] == [];
    hide SourceKey;
    hide DestinationKey;
    hide ParseAddr;
    SourcesFirst(h, packets);
    SourcesFirst(h, [ARP]);
    LoopLearnsExactly(cfg, INITIAL_DAEMON, packets, junk);
    assert LearnedBy(h, [ARP], DestinationKey(h, view), view) == {DestinationKey(h, view)};
  }

  // ---------------------------------------------------------------- arrivals

  /** What an arriving packet teaches about the peer it comes from, exactly. The record is fresh
      memory here; if the packet is not IP, it can teach no address that is not local already. */
  lemma ArrivalLearnsExactly(cfg: Config, d: Daemon, i: nat, packet: Packet, junk: Junk)
    requires i < |d.slots|
    ensures var view := InBuffer(packet, junk.buf);
            var d' := RoutePacket(cfg, d, i, packet, junk).daemon;
            var record := KeyOf(junk.route);
            var dst := if Parseable(cfg.host, view) then DestinationKey(cfg.host, view) else record;
            var src := if Parseable(cfg.host, view) then SourceKey(cfg.host, view) else record;
      && i < |d'.slots|
      && Keys(d'.slots[i].routes)
         == Keys(d.slots[i].routes)
            + (if dst in Keys(d.local) && OwnerOf(d.slots, src, 0).None? then {src} else {})
      && (!Parseable(cfg.host, view) ==> Keys(d'.slots[i].routes) <= Keys(d.slots[i].routes) + Keys(d.local))
  {
    var view := InBuffer(packet, junk.buf);
    var dst := ParseAddr(cfg.host, view, junk.route, false);
    var src := ParseAddr(cfg.host, view, dst, true);
    ParsedView(cfg.host, view, junk.route, false);
    ParsedView(cfg.host, view, dst, true);
    hide ParseAddr;
    hide Broadcast;
    hide InRoutes;
    InRoutesIsInKeys(dst, d.local);
    OwnerByKey(d.slots, src, 0);
    KeysOfLonger(d.slots[i].routes, src);
  }
}
