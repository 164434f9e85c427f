/** Route records and their comparison (src/netroute.c), as values. */
module Routes {
  import opened Protocol

  const ADDR_SIZE: nat := 16

  /** The content of a netroute record. Only the first bytes of `addr` mean something for a
      MAC or an IPv4 address; the others are whatever the record held before. */
  datatype RawRoute = RawRoute(mac: bool, ip4: bool, addr: seq<byte>)

  type Route = r: RawRoute | |r.addr| == ADDR_SIZE witness RawRoute(false, false, seq(ADDR_SIZE, _ => 0))

  /** How many bytes of the address memcmp looks at. */
  function Limit(r: Route): (n: nat)
    ensures n <= ADDR_SIZE
  {
    if r.mac then 6 else if r.ip4 then 4 else ADDR_SIZE
  }

  /** compare_netroutes on values. */
  predicate SameRoute(r1: Route, r2: Route) {
    && r1.mac == r2.mac && r1.ip4 == r2.ip4
    && r1.addr[..Limit(r1)] == r2.addr[..Limit(r1)]
  }

  /** What identifies a route: its flags and the meaningful bytes. */
  datatype Key = Key(mac: bool, ip4: bool, bytes: seq<byte>)

  function KeyOf(r: Route): Key {
    Key(r.mac, r.ip4, r.addr[..Limit(r)])
  }

  /** The comparison is equality of keys: an equivalence that never inspects the stale bytes. */
  lemma SameRouteIsSameKey(r1: Route, r2: Route)
    ensures SameRoute(r1, r2) <==> KeyOf(r1) == KeyOf(r2)
  {
  }

  /** Changing bytes beyond the limit changes no comparison. */
  lemma StaleBytesIgnored(r: Route, r': Route, other: Route)
    requires r'.mac == r.mac && r'.ip4 == r.ip4 && r'.addr[..Limit(r)] == r.addr[..Limit(r)]
    ensures SameRoute(r', other) <==> SameRoute(r, other)
    ensures SameRoute(other, r') <==> SameRoute(other, r)
  {
  }

  predicate InRoutes(r: Route, rs: seq<Route>) {
    exists i :: 0 <= i < |rs| && SameRoute(r, rs[i])
  }

  predicate NoDuplicates(rs: seq<Route>) {
    forall i, j :: 0 <= i < j < |rs| ==> !SameRoute(rs[i], rs[j])
  }

  predicate Disjoint(rs: seq<Route>, qs: seq<Route>) {
    forall i, j :: 0 <= i < |rs| && 0 <= j < |qs| ==> !SameRoute(rs[i], qs[j])
  }

  function Keys(rs: seq<Route>): set<Key> {
    set i | 0 <= i < |rs| :: KeyOf(rs[i])
  }

  lemma InRoutesIsInKeys(r: Route, rs: seq<Route>)
    ensures InRoutes(r, rs) <==> KeyOf(r) in Keys(rs)
  {
    if InRoutes(r, rs) {
      var i :| 0 <= i < |rs| && SameRoute(r, rs[i]);
      assert KeyOf(rs[i]) == KeyOf(r);
    }
  }

  lemma InRoutesAppend(r: Route, rs: seq<Route>, added: Route)
    ensures InRoutes(r, rs + [added]) <==> InRoutes(r, rs) || SameRoute(r, added)
  {
    var all := rs + [added];
    if InRoutes(r, rs) {
      var i :| 0 <= i < |rs| && SameRoute(r, rs[i]);
      assert SameRoute(r, all[i]);
    }
    if SameRoute(r, added) {
      assert SameRoute(r, all[|rs|]);
    }
  }

  lemma KeysOfLonger(rs: seq<Route>, r: Route)
    ensures Keys(rs + [r]) == Keys(rs) + {KeyOf(r)}
  {
    var longer := rs + [r];
    assert longer[|rs|] == r;
    forall k | k in Keys(rs) ensures k in Keys(longer) {
      var i :| 0 <= i < |rs| && k == KeyOf(rs[i]);
      assert longer[i] == rs[i];
    }
    forall k | k in Keys(longer) ensures k in Keys(rs) + {KeyOf(r)} {
      var i :| 0 <= i < |longer| && k == KeyOf(longer[i]);
      assert i < |rs| ==> longer[i] == rs[i];
    }
  }
}
