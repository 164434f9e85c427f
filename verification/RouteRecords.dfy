/** Route records and route lists on the heap (src/netroute.c), and the parser that writes into
    a record (src/packet_header.c). */
module RouteRecords {
  import opened Protocol
  import opened Routes
  import opened PacketHeader

  /** A netroute_t. Its address buffer is allocated with it. */
  class Netroute {
    var mac: bool
    var ip4: bool
    const addr: array<byte>
    var next: Netroute?

    /** A record that holds whatever memory held. */
    constructor Uninitialised(content: Route)
      ensures fresh(addr) && HasBuffer() && Value() == content && next == null
    {
      mac, ip4 := content.mac, content.ip4;
      var buffer := new byte[ADDR_SIZE];
      forall k | 0 <= k < ADDR_SIZE {
        buffer[k] := content.addr[k];
      }
      addr := buffer;
      next := null;
      new;
      assert addr[..] == content.addr;
    }

    ghost predicate HasBuffer() {
      addr.Length == ADDR_SIZE
    }

    ghost function Value(): Route
      requires HasBuffer()
      reads `mac, `ip4, addr
    {
      RawRoute(mac, ip4, addr[..])
    }
  }

  /** compare_netroutes */
  predicate CompareNetroutes(r1: Netroute, r2: Netroute): (same: bool)
    requires r1.HasBuffer() && r2.HasBuffer()
    reads r1, r1.addr, r2, r2.addr
    ensures same <==> KeyOf(r1.Value()) == KeyOf(r2.Value())
    ensures same <==> SameRoute(r1.Value(), r2.Value())
  {
    if r1.mac != r2.mac || r1.ip4 != r2.ip4 then false
    else
      var limit := if r1.mac then 6 else if r1.ip4 then 4 else ADDR_SIZE;
      assert r1.addr[..][..limit] == r1.addr[..limit];
      assert r2.addr[..][..limit] == r2.addr[..limit];
      r1.addr[..limit] == r2.addr[..limit]
  }

  /** duplicate_netroute: the copy has a buffer of its own and the same successor. */
  method DuplicateNetroute(route: Netroute) returns (dup: Netroute)
    requires route.HasBuffer()
    ensures fresh(dup) && fresh(dup.addr) && dup.HasBuffer()
    ensures dup.Value() == route.Value() && dup.next == route.next
  {
    dup := new Netroute.Uninitialised(RawRoute(route.mac, route.ip4, route.addr[..]));
    dup.next := route.next;
  }

  ghost function Successor(nodes: seq<Netroute>, i: nat): Netroute? {
    if i + 1 < |nodes| then nodes[i + 1] else null
  }

  /** The holder of a list: the pointer to its first record. `nodes` and `contents` are the
      records in order and what they hold; `records` and `buffers` are what the list owns. */
  class RouteList {
    var head: Netroute?
    ghost var nodes: seq<Netroute>
    ghost var contents: seq<Route>
    ghost var records: set<Netroute>
    ghost var buffers: set<array<byte>>

    ghost predicate Valid()
      reads this, records, buffers
    {
      && (forall i :: 0 <= i < |nodes| ==> nodes[i] in records && nodes[i].addr in buffers)
      && |contents| == |nodes|
      && head == (if nodes == [] then null else nodes[0])
      && (forall i :: 0 <= i < |nodes| ==> nodes[i].HasBuffer() && nodes[i].Value() == contents[i])
      && (forall i {:trigger Successor(nodes, i)} :: 0 <= i < |nodes| ==> nodes[i].next == Successor(nodes, i))
      && (forall i, j :: 0 <= i < j < |nodes| ==> nodes[i] != nodes[j] && nodes[i].addr != nodes[j].addr)
    }

    lemma LastIsMine()
      requires Valid() && nodes != []
      ensures nodes[|nodes| - 1] in records
    {
    }

    constructor ()
      ensures Valid() && contents == [] && nodes == [] && records == {} && buffers == {}
    {
      head := null;
      nodes, contents, records, buffers := [], [], {}, {};
    }

    /** add_netroute: append a copy of `route`. Earlier records stay where they are, and the
        new one shares nothing with the caller's record or with any other list. */
    method Add(route: Netroute) returns (ghost added: Netroute)
      requires Valid() && route.HasBuffer()
      modifies this, if nodes == [] then {} else {nodes[|nodes| - 1]}
      ensures Valid()
      ensures contents == old(contents) + [old(route.Value())]
      ensures nodes == old(nodes) + [added] && fresh(added) && fresh(added.addr)
      ensures records == old(records) + {added} && buffers == old(buffers) + {added.addr}
    {
      hide ValidBut;
      var dup := DuplicateNetroute(route);
      ghost var copied := dup.Value();
      dup.next := null;
      assert dup.Value() == copied;
      Link(dup);
      Extend(dup, copied);
      added := dup;
    }

    /** Hang `dup` from the end of the list. */
    method Link(dup: Netroute)
      requires Valid()
      requires dup !in records && dup.addr !in buffers && dup.HasBuffer() && dup.next == null
      modifies `head, (if nodes == [] then {} else {nodes[|nodes| - 1]})`next
      ensures ValidBut(dup) && dup.Value() == old(dup.Value())
    {
      if head == null {
        head := dup;
      } else {
        var last := Last();
        last.next := dup;
      }
    }

    /** Valid, but for one more record that hangs from the last one. */
    ghost predicate ValidBut(dup: Netroute)
      reads this, records, buffers, dup, dup.addr
    {
      && dup !in records && dup.addr !in buffers
      && dup.HasBuffer() && dup.next == null
      && (forall i :: 0 <= i < |nodes| ==> nodes[i] in records && nodes[i].addr in buffers)
      && |contents| == |nodes|
      && head == (if nodes == [] then dup else nodes[0])
      && (forall i :: 0 <= i < |nodes| ==> nodes[i].HasBuffer() && nodes[i].Value() == contents[i])
      && (forall i {:trigger Successor(nodes, i)} :: 0 <= i < |nodes| - 1 ==> nodes[i].next == Successor(nodes, i))
      && (nodes != [] ==> nodes[|nodes| - 1].next == dup)
      && (forall i, j :: 0 <= i < j < |nodes| ==> nodes[i] != nodes[j] && nodes[i].addr != nodes[j].addr)
    }

    /** Record in the history that the list has grown. */
    ghost method Extend(dup: Netroute, copied: Route)
      requires ValidBut(dup) && dup.Value() == copied
      modifies this`nodes, this`contents, this`records, this`buffers
      ensures Valid()
      ensures nodes == old(nodes) + [dup] && contents == old(contents) + [copied]
      ensures records == old(records) + {dup} && buffers == old(buffers) + {dup.addr}
    {
      ghost var before := nodes;
      nodes := nodes + [dup];
      contents := contents + [copied];
      records, buffers := records + {dup}, buffers + {dup.addr};
      forall i | 0 <= i < |nodes| ensures nodes[i].next == Successor(nodes, i) {
        assert i < |before| - 1 ==> before[i].next == Successor(before, i);
      }
    }

    /** The walk of add_netroute to the end of the list. */
    method Last() returns (last: Netroute)
      requires Valid() && head != null
      ensures nodes != [] && last == nodes[|nodes| - 1]
    {
      last := head;
      ghost var i := 0;
      assert nodes[0].next == Successor(nodes, 0);
      while last.next != null
        invariant 0 <= i < |nodes| && last == nodes[i] && last.next == Successor(nodes, i)
        decreases |nodes| - i
      {
        last := last.next;
        i := i + 1;
        assert nodes[i].next == Successor(nodes, i);
      }
    }

    /** netroute_in_array: the first record with the same key, or null. */
    method Find(route: Netroute) returns (found: Netroute?)
      requires Valid() && route.HasBuffer()
      ensures found == null <==> !InRoutes(route.Value(), contents)
      ensures found != null ==> exists i ::
        && 0 <= i < |nodes| && found == nodes[i] && SameRoute(route.Value(), contents[i])
        && forall j :: 0 <= j < i ==> !SameRoute(route.Value(), contents[j])
    {
      found := head;
      ghost var i := 0;
      while found != null
        invariant 0 <= i <= |nodes|
        invariant found == if i < |nodes| then nodes[i] else null
        invariant forall j :: 0 <= j < i ==> !SameRoute(route.Value(), contents[j])
        decreases |nodes| - i
      {
        if CompareNetroutes(route, found) {
          return;
        }
        assert nodes[i].next == Successor(nodes, i);
        found := found.next;
        i := i + 1;
      }
    }

    /** destroy_netroutes, and the null pointer its callers store afterwards. It frees every
        record once, and takes the next one from a record before it frees that record. */
    method Clear() returns (ghost freed: seq<Netroute>)
      requires Valid()
      modifies this
      ensures Valid() && contents == [] && nodes == [] && records == {} && buffers == {}
      ensures freed == old(nodes) && forall i, j :: 0 <= i < j < |freed| ==> freed[i] != freed[j]
    {
      var current := head;
      freed := [];
      while current != null
        invariant |freed| <= |nodes| && freed == nodes[..|freed|]
        invariant current == if |freed| < |nodes| then nodes[|freed|] else null
        decreases |nodes| - |freed|
      {
        assert current.next == Successor(nodes, |freed|);
        var next := current.next;
        freed := freed + [current];
        current := next;
      }
      head := null;
      nodes, contents, records, buffers := [], [], {}, {};
    }
  }

  /** Lists of different holders, each well formed, no two sharing a record; all of them together
      own at most `records` and `buffers`. */
  ghost predicate Separate(lists: seq<RouteList>, records: set<Netroute>, buffers: set<array<byte>>)
    reads lists, records, buffers
  {
    && (forall i :: 0 <= i < |lists| ==> Within(lists[i], records, buffers))
    && (forall i, j :: 0 <= i < j < |lists| ==> Apart(lists[i], lists[j]))
  }

  ghost predicate Within(list: RouteList, records: set<Netroute>, buffers: set<array<byte>>)
    reads list, records, buffers
  {
    list.records <= records && list.buffers <= buffers && list.Valid()
  }

  ghost predicate Apart(a: RouteList, b: RouteList)
    reads a, b
  {
    a != b && a.records !! b.records && a.buffers !! b.buffers
  }

  /** add_netroute on one of several lists: all others stay as they are, and none comes to share
      a record with it. */
  method AddToOne(ghost lists: seq<RouteList>, ghost records: set<Netroute>, ghost buffers: set<array<byte>>,
                  list: RouteList, ghost i: nat, route: Netroute) returns (ghost added: Netroute)
    requires Separate(lists, records, buffers) && i < |lists| && lists[i] == list && route.HasBuffer()
    modifies list, list.records
    ensures fresh(added) && fresh(added.addr)
    ensures Separate(lists, records + {added}, buffers + {added.addr})
    ensures list.contents == old(list.contents) + [old(route.Value())] && list.nodes == old(list.nodes) + [added]
    ensures list.records == old(list.records) + {added}
    ensures forall j :: 0 <= j < |lists| && j != i ==>
      lists[j].contents == old(lists[j].contents) && lists[j].nodes == old(lists[j].nodes)
  {
    hide RouteList.Valid;
    assert Within(list, records, buffers);
    if list.nodes != [] { list.LastIsMine(); }
    forall j | 0 <= j < |lists| && j != i ensures Apart(lists[j], list) && Within(lists[j], records, buffers) {
      assert if j < i then Apart(lists[j], lists[i]) else Apart(lists[i], lists[j]);
    }
    added := list.Add(route);
    forall j | 0 <= j < |lists| && j != i
      ensures Within(lists[j], records + {added}, buffers + {added.addr})
      ensures Apart(lists[j], list) && Apart(list, lists[j])
    {
    }
  }

  /** get_netroute_addr, up to the text form: the bytes it passes on for printing. */
  method GetNetrouteAddr(littleEndian: bool, route: Netroute) returns (bytes: array<byte>)
    requires route.HasBuffer()
    ensures bytes[..] == PrintedBytes(littleEndian, route.Value())
  {
    if route.mac {
      bytes := new byte[6](k requires 0 <= k < 6 reads route, route.addr requires route.HasBuffer() => route.addr[k]);
    } else if route.ip4 {
      if littleEndian {
        bytes := new byte[] [route.addr[3], route.addr[2], route.addr[1], route.addr[0]];
      } else {
        bytes := new byte[] [route.addr[0], route.addr[1], route.addr[2], route.addr[3]];
      }
    } else {
      bytes := route.addr;
    }
  }

  /** memcpy of `n` bytes from `src[at]` to the start of `dst`. */
  method CopyBytes(dst: array<byte>, src: array<byte>, at: nat, n: nat)
    requires dst != src && n <= dst.Length && at + n <= src.Length
    modifies dst
    ensures dst[..] == src[at..at + n] + old(dst[n..])
  {
    forall k | 0 <= k < n {
      dst[k] := src[at + k];
    }
  }

  /** Store a host word most significant byte first. */
  method StoreIp4(dst: array<byte>, ip4Addr: uint32)
    requires 4 <= dst.Length
    modifies dst
    ensures dst[..] == BigEndianBytes(ip4Addr) + old(dst[4..])
  {
    dst[0] := (ip4Addr / 0x100_0000 % 256) as byte;
    dst[1] := (ip4Addr / 0x1_0000 % 256) as byte;
    dst[2] := (ip4Addr / 0x100 % 256) as byte;
    dst[3] := (ip4Addr % 256) as byte;
  }

  lemma SameField(s: seq<byte>, off: nat, at: nat, n: nat)
    requires off + at + n <= |s|
    ensures s[off + at..off + at + n] == s[off..][at..at + n]
  {
  }

  /** parse_ip_packet, on the packet at `packet[off]`. */
  method ParseIpPacket(host: Host, packet: array<byte>, off: nat, proto: nat, nroute: Netroute, source: bool)
    requires off + 40 <= packet.Length && nroute.HasBuffer() && nroute.addr != packet
    modifies nroute, nroute.addr
    ensures nroute.Value() == ParseIp(host, packet[off..], proto, old(nroute.Value()), source)
    ensures nroute.next == old(nroute.next)
  {
    hide WordOf;
    hide BigEndianBytes;
    nroute.mac := false;
    if proto == ETH_P_IP {
      nroute.ip4 := true;
      var at := if source then 12 else 16;
      var ip4Addr := ReadUint32(host.littleEndian, packet, off + at);
      assert packet[off + at..off + at + 4] == packet[off..][at..at + 4];
      assert old(nroute.Value()).addr[4..] == nroute.addr[4..];
      StoreIp4(nroute.addr, ip4Addr);
    } else {
      nroute.ip4 := false;
      var at := if source then 8 else 24;
      CopyBytes(nroute.addr, packet, off + at, ADDR_SIZE);
      SameField(packet[..], off, at, ADDR_SIZE);
      assert packet[..][off + at..off + at + ADDR_SIZE] == packet[off + at..off + at + ADDR_SIZE];
      assert packet[..][off..] == packet[off..];
    }
  }

  /** parse_eth_packet, on the packet at `packet[off]`. */
  method ParseEthPacket(packet: array<byte>, off: nat, nroute: Netroute, source: bool)
    requires off + 12 <= packet.Length && nroute.HasBuffer() && nroute.addr != packet
    modifies nroute, nroute.addr
    ensures nroute.Value() == ParseEthernet(packet[off..], old(nroute.Value()), source)
    ensures nroute.next == old(nroute.next)
  {
    nroute.ip4 := false;
    nroute.mac := true;
    var at := if source then 6 else 0;
    assert old(nroute.Value()).addr[6..] == nroute.addr[6..];
    CopyBytes(nroute.addr, packet, off + at, 6);
    SameField(packet[..], off, at, 6);
    assert packet[..][off + at..off + at + 6] == packet[off + at..off + at + 6];
    assert packet[..][off..] == packet[off..];
  }

  /** parse_packet_addr: a packet that is not IP leaves the record untouched in TUN mode. */
  method ParsePacketAddr(host: Host, packet: array<byte>, nroute: Netroute, source: bool)
    requires packet.Length >= PARSE_WINDOW && nroute.HasBuffer() && nroute.addr != packet
    modifies nroute, nroute.addr
    ensures nroute.Value() == ParseAddr(host, packet[..], old(nroute.Value()), source)
    ensures nroute.next == old(nroute.next)
  {
    assert packet[..][4..] == packet[4..];
    if host.tap {
      ParseEthPacket(packet, 4, nroute, source);
    } else {
      var etherType := packet[2] as nat * 256 + packet[3] as nat;
      if etherType != ETH_P_IP && etherType != ETH_P_IPV6 {
        return;
      }
      ParseIpPacket(host, packet, 4, etherType, nroute, source);
    }
  }
}
