/** Extraction of routing keys from packets (src/packet_header.c), as values.

    A packet is what the tun/tap device delivers: four bytes of flags and protocol, then an
    Ethernet frame in TAP mode or an IP packet in TUN mode. The parser reads at fixed offsets
    of a buffer and overwrites part of a route record. */
module PacketHeader {
  import opened Protocol
  import opened Routes

  /** The byte order of the host and the mode of its device. */
  datatype Host = Host(littleEndian: bool, tap: bool)

  const ETH_P_IP: nat := 0x0800
  const ETH_P_IPV6: nat := 0x86DD

  /** The furthest byte the parser reads is the end of an IPv6 destination address. */
  const PARSE_WINDOW: nat := 44

  type Buffer = b: seq<byte> | |b| >= PARSE_WINDOW witness seq(PARSE_WINDOW, _ => 0)

  function EtherType(buf: seq<byte>): nat
    requires |buf| >= 4
  {
    buf[2] as nat * 256 + buf[3] as nat
  }

  /** parse_ip_packet, on the packet after the four device bytes. The IPv4 address is loaded
      as a host word and then stored most significant byte first. */
  function ParseIp(host: Host, packet: seq<byte>, proto: nat, route: Route, source: bool): Route
    requires |packet| >= 40
  {
    if proto == ETH_P_IP then
      var at := if source then 12 else 16;
      var ip4Addr := WordOf(host.littleEndian, packet[at..at + 4]);
      RawRoute(false, true, BigEndianBytes(ip4Addr) + route.addr[4..])
    else
      var at := if source then 8 else 24;
      RawRoute(false, false, packet[at..at + 16])
  }

  /** parse_eth_packet, on the packet after the four device bytes. */
  function ParseEthernet(packet: seq<byte>, route: Route, source: bool): Route
    requires |packet| >= 12
  {
    var at := if source then 6 else 0;
    RawRoute(true, false, packet[at..at + 6] + route.addr[6..])
  }

  /** parse_packet_addr: in TUN mode a packet that is not IP leaves the record as it was. */
  function ParseAddr(host: Host, buf: Buffer, route: Route, source: bool): Route {
    if host.tap then ParseEthernet(buf[4..], route, source)
    else if EtherType(buf) != ETH_P_IP && EtherType(buf) != ETH_P_IPV6 then route
    else ParseIp(host, buf[4..], EtherType(buf), route, source)
  }

  /** The buffer after a packet has been read into it: the bytes beyond the packet are what
      was there before. */
  function InBuffer(packet: seq<byte>, before: Buffer): Buffer {
    if |packet| >= |before| then packet else packet + before[|packet|..]
  }

  /** The packet is long enough for its headers, and it is IPv4, IPv6 or Ethernet. */
  predicate Parseable(host: Host, packet: seq<byte>) {
    if host.tap then |packet| >= 16
    else |packet| >= 4 &&
         if EtherType(packet) == ETH_P_IP then |packet| >= 24
         else EtherType(packet) == ETH_P_IPV6 && |packet| >= 44
  }

  datatype Family = Mac | Ip4 | Ip6

  /** An address as the packet formats define it, independent of hosts and records: section
      3.1 of RFC 791, section 3 of RFC 8200, and the Ethernet header. */
  datatype NetAddress = NetAddress(family: Family, bytes: seq<byte>)

  function AddressOf(tap: bool, packet: seq<byte>, source: bool): (a: NetAddress)
    requires Parseable(Host(false, tap), packet)
    ensures |a.bytes| == match a.family case Mac => 6 case Ip4 => 4 case Ip6 => 16
  {
    if tap then NetAddress(Mac, if source then packet[10..16] else packet[4..10])
    else if EtherType(packet) == ETH_P_IP then NetAddress(Ip4, if source then packet[16..20] else packet[20..24])
    else NetAddress(Ip6, if source then packet[12..28] else packet[28..44])
  }

  /** The key a host of the given byte order computes for an address. */
  function KeyOnHost(littleEndian: bool, a: NetAddress): Key
    requires a.family.Ip4? ==> |a.bytes| == 4
  {
    match a.family
    case Mac => Key(true, false, a.bytes)
    case Ip4 => Key(false, true, if littleEndian then Reversed4(a.bytes) else a.bytes)
    case Ip6 => Key(false, false, a.bytes)
  }

  /** The keys a host has for the two addresses of a packet. */
  function SourceKey(h: Host, packet: seq<byte>): Key
    requires Parseable(h, packet)
  {
    KeyOnHost(h.littleEndian, AddressOf(h.tap, packet, true))
  }

  function DestinationKey(h: Host, packet: seq<byte>): Key
    requires Parseable(h, packet)
  {
    KeyOnHost(h.littleEndian, AddressOf(h.tap, packet, false))
  }

  lemma LoadThenStore(littleEndian: bool, b: seq<byte>)
    requires |b| == 4
    ensures BigEndianBytes(WordOf(littleEndian, b)) == if littleEndian then Reversed4(b) else b
  {
    WordBytesOfWord(littleEndian, b);
    assert Reversed4(Reversed4(BigEndianBytes(WordOf(littleEndian, b)))) == BigEndianBytes(WordOf(littleEndian, b));
  }

  /** The parsed key depends on the packet alone: neither the old content of the record nor
      what lies in the buffer beyond the packet plays a part. */
  lemma ParsedKey(host: Host, packet: seq<byte>, before: Buffer, route: Route, source: bool)
    requires Parseable(host, packet)
    ensures KeyOf(ParseAddr(host, InBuffer(packet, before), route, source))
            == KeyOnHost(host.littleEndian, AddressOf(host.tap, packet, source))
  {
    var buf := InBuffer(packet, before);
    assert buf[..|packet|] == packet;
    if host.tap {
      EthernetKey(buf[4..], route, source);
    } else if EtherType(packet) == ETH_P_IP {
      Ip4Key(host, buf[4..], route, source);
    } else {
      Ip6Key(host, buf[4..], route, source);
    }
    SameFields(packet, buf);
  }

  lemma EthernetKey(packet: seq<byte>, route: Route, source: bool)
    requires |packet| >= 12
    ensures KeyOf(ParseEthernet(packet, route, source))
            == Key(true, false, if source then packet[6..12] else packet[..6])
  {
    var at := if source then 6 else 0;
    assert (packet[at..at + 6] + route.addr[6..])[..6] == packet[at..at + 6];
  }

  lemma Ip4Key(host: Host, packet: seq<byte>, route: Route, source: bool)
    requires |packet| >= 40
    ensures KeyOf(ParseIp(host, packet, ETH_P_IP, route, source))
            == KeyOnHost(host.littleEndian, NetAddress(Ip4, if source then packet[12..16] else packet[16..20]))
  {
    var field := if source then packet[12..16] else packet[16..20];
    LoadThenStore(host.littleEndian, field);
    var stored := BigEndianBytes(WordOf(host.littleEndian, field));
    assert (stored + route.addr[4..])[..4] == stored;
  }

  lemma Ip6Key(host: Host, packet: seq<byte>, route: Route, source: bool)
    requires |packet| >= 40
    ensures KeyOf(ParseIp(host, packet, ETH_P_IPV6, route, source))
            == Key(false, false, if source then packet[8..24] else packet[24..40])
  {
    var at := if source then 8 else 24;
    assert packet[at..at + 16][..ADDR_SIZE] == packet[at..at + 16];
  }

  /** The address fields lie inside the packet, so a longer buffer shows the same ones. */
  lemma SameFields(packet: seq<byte>, buf: Buffer)
    requires packet <= buf
    ensures |packet| >= 16 ==> buf[4..][6..12] == packet[10..16] && buf[4..][..6] == packet[4..10]
    ensures |packet| >= 24 ==> buf[4..][12..16] == packet[16..20] && buf[4..][16..20] == packet[20..24]
    ensures |packet| >= 44 ==> buf[4..][8..24] == packet[12..28] && buf[4..][24..40] == packet[28..44]
  {
  }

  lemma KeyOnHostInjective(littleEndian: bool, a: NetAddress, b: NetAddress)
    requires a.family.Ip4? ==> |a.bytes| == 4
    requires b.family.Ip4? ==> |b.bytes| == 4
    ensures KeyOnHost(littleEndian, a) == KeyOnHost(littleEndian, b) <==> a == b
  {
    if a.family.Ip4? && b.family.Ip4? && littleEndian && KeyOnHost(true, a) == KeyOnHost(true, b) {
      assert Reversed4(Reversed4(a.bytes)) == a.bytes;
      assert Reversed4(Reversed4(b.bytes)) == b.bytes;
    }
  }

  // ---------------------------------------------------------------- the formats, byte by byte

  /** IPv6 in TUN mode: type 0x86DD, the addresses at bytes 12 and 28 of what the device delivers. */
  lemma Ip6ByBytes(host: Host, packet: seq<byte>, before: Buffer, route: Route)
    requires !host.tap && |packet| >= 44 && packet[2] == 0x86 && packet[3] == 0xDD
    ensures var buf := InBuffer(packet, before);
      && Parseable(host, packet)
      && KeyOf(ParseAddr(host, buf, route, true)) == SourceKey(host, packet) == Key(false, false, packet[12..28])
      && KeyOf(ParseAddr(host, buf, route, false)) == DestinationKey(host, packet) == Key(false, false, packet[28..44])
  {
    ParsedKey(host, packet, before, route, true);
    ParsedKey(host, packet, before, route, false);
  }

  /** IPv4 in TUN mode: type 0x0800, the addresses at bytes 16 and 20; a little-endian host keeps them
      reversed. */
  lemma Ip4ByBytes(host: Host, packet: seq<byte>, before: Buffer, route: Route)
    requires !host.tap && |packet| >= 24 && packet[2] == 0x08 && packet[3] == 0x00
    ensures var buf := InBuffer(packet, before);
            var source, destination := packet[16..20], packet[20..24];
      && Parseable(host, packet)
      && KeyOf(ParseAddr(host, buf, route, true)) == SourceKey(host, packet)
      && KeyOf(ParseAddr(host, buf, route, false)) == DestinationKey(host, packet)
      && (!host.littleEndian ==>
            SourceKey(host, packet) == Key(false, true, source)
            && DestinationKey(host, packet) == Key(false, true, destination))
      && (host.littleEndian ==>
            SourceKey(host, packet) == Key(false, true, [packet[19], packet[18], packet[17], packet[16]])
            && DestinationKey(host, packet) == Key(false, true, [packet[23], packet[22], packet[21], packet[20]]))
  {
    ParsedKey(host, packet, before, route, true);
    ParsedKey(host, packet, before, route, false);
  }

  /** Ethernet in TAP mode, whatever the type: the destination at byte 4, the source at byte 10. */
  lemma EthernetByBytes(host: Host, packet: seq<byte>, before: Buffer, route: Route)
    requires host.tap && |packet| >= 16
    ensures var buf := InBuffer(packet, before);
      && Parseable(host, packet)
      && KeyOf(ParseAddr(host, buf, route, true)) == SourceKey(host, packet) == Key(true, false, packet[10..16])
      && KeyOf(ParseAddr(host, buf, route, false)) == DestinationKey(host, packet) == Key(true, false, packet[4..10])
  {
    ParsedKey(host, packet, before, route, true);
    ParsedKey(host, packet, before, route, false);
  }

  /** Any other type in TUN mode: the record stays as it was. */
  lemma OthersByBytes(host: Host, packet: seq<byte>, before: Buffer, route: Route, source: bool)
    requires !host.tap && |packet| >= 4
    requires !(packet[2] == 0x86 && packet[3] == 0xDD) && !(packet[2] == 0x08 && packet[3] == 0x00)
    ensures !Parseable(host, packet) && ParseAddr(host, InBuffer(packet, before), route, source) == route
  {
    assert InBuffer(packet, before)[..|packet|] == packet;
  }

  /** On a host of either byte order, two parsed records compare equal exactly when the two
      packets carry the same address, whatever was in the records and buffers before. */
  lemma ParsedRoutesCompare(host: Host, p: seq<byte>, q: seq<byte>, sourceP: bool, sourceQ: bool,
                            bufP: Buffer, bufQ: Buffer, routeP: Route, routeQ: Route)
    requires Parseable(host, p) && Parseable(host, q)
    ensures SameRoute(ParseAddr(host, InBuffer(p, bufP), routeP, sourceP),
                      ParseAddr(host, InBuffer(q, bufQ), routeQ, sourceQ))
            <==> AddressOf(host.tap, p, sourceP) == AddressOf(host.tap, q, sourceQ)
  {
    hide ParseAddr;
    hide AddressOf;
    ParsedKey(host, p, bufP, routeP, sourceP);
    ParsedKey(host, q, bufQ, routeQ, sourceQ);
    KeyOnHostInjective(host.littleEndian, AddressOf(host.tap, p, sourceP), AddressOf(host.tap, q, sourceQ));
    SameRouteIsSameKey(ParseAddr(host, InBuffer(p, bufP), routeP, sourceP),
                       ParseAddr(host, InBuffer(q, bufQ), routeQ, sourceQ));
  }

  /** The bytes get_netroute_addr hands to the printing functions. */
  function PrintedBytes(littleEndian: bool, r: Route): seq<byte> {
    if r.mac then r.addr[..6]
    else if r.ip4 then (if littleEndian then Reversed4(r.addr[..4]) else r.addr[..4])
    else r.addr
  }

  /** What is printed for a parsed record is the packet's own address bytes, in order. */
  lemma PrintedBytesAreThePackets(host: Host, packet: seq<byte>, before: Buffer, route: Route, source: bool)
    requires Parseable(host, packet)
    ensures PrintedBytes(host.littleEndian, ParseAddr(host, InBuffer(packet, before), route, source))
            == AddressOf(host.tap, packet, source).bytes
  {
    ParsedKey(host, packet, before, route, source);
    var r := ParseAddr(host, InBuffer(packet, before), route, source);
    assert r.addr[..ADDR_SIZE] == r.addr;
  }
}
