/** A trap under mixed traffic: a server with any number of clients, and packets for all kinds of
    addresses at the same time. A trap for an address lasts, and keeps what is caught in it, until a
    packet that comes from this address is read or arrives at the hub. */
module StarTraffic {
  import opened Routes
  import opened PacketHeader
  import Router
  import opened Star
  import Session

  /** The packet that a move is about. */
  function PacketMoved(w: Wiring, s: State, m: Move): Router.Packet
    requires Possible(w, s, m)
  {
    match m
    case HubRead(packet, _) => packet
    case Read(_, packet, _) => packet
    case ArriveAtHub(c, _) => PacketOf(w, c, s.up[c][0])
    case ArriveAtClient(c, _) => PacketOf(w, c, s.down[c][0])
  }

  lemma MovedIsComplete(w: Wiring, s: State, m: Move)
    requires Links(w, s) && Possible(w, s, m)
    ensures Parseable(w.hub.host, PacketMoved(w, s, m))
  {
    hide ClientInv;
    if m.ArriveAtHub? {
      assert Carries(w, m.c, s.up[m.c][0]);
    } else if m.ArriveAtClient? {
      assert Carries(w, m.c, s.down[m.c][0]);
    }
  }

  function Destination(w: Wiring, s: State, m: Move): Key
    requires Links(w, s) && Possible(w, s, m)
  {
    MovedIsComplete(w, s, m);
    DestinationKey(w.hub.host, PacketMoved(w, s, m))
  }

  /** The address `d` speaks up: a packet that comes from it is read, or arrives at the hub. */
  predicate Speaks(w: Wiring, s: State, m: Move, d: Key)
    requires Possible(w, s, m)
  {
    var packet := PacketMoved(w, s, m);
    !m.ArriveAtClient? && Parseable(w.hub.host, packet) && SourceKey(w.hub.host, packet) == d
  }

  lemma StepLinks(w: Wiring, s: State, m: Move)
    requires Links(w, s) && Possible(w, s, m)
    ensures Links(w, Apply(w, s, m))
  {
    var d := Destination(w, s, m);
    MovedIsComplete(w, s, m);
    hide Links;
    hide Apply;
    hide OnlyFor;
    hide SameKnowledge;
    hide PacketOf;
    match m
    case HubRead(packet, junk) => HubReadKeeps(w, d, s, packet, junk);
    case Read(c, packet, junk) => ReadKeeps(w, d, s, c, packet, junk);
    case ArriveAtHub(c, junk) => ArriveAtHubKeeps(w, d, s, c, junk);
    case ArriveAtClient(c, junk) => ArriveAtClientKeeps(w, d, s, c, junk);
  }

  // ---------------------------------------------------------------- what is known is not forgotten

  /** As long as `d` is silent the hub knows as much about it as before, and clients that send its
      packets back go on doing so. */
  ghost predicate NothingForgotten(w: Wiring, s: State, s': State, d: Key)
    requires Shape(w, s)
  {
    && Shape(w, s')
    && (LocalToHub(s', d) <==> LocalToHub(s, d))
    && Router.OwnerOf(s'.hub.slots, d, 0) == Router.OwnerOf(s.hub.slots, d, 0)
    && (forall c :: 0 <= c < |s.clients| ==> (Live(s', c) <==> Live(s, c)))
    && (forall c :: 0 <= c < |s.clients| && SendsBack(w, s, d, c) ==> SendsBack(w, s', d, c))
  }

  lemma {:induction false} SameOwner(slots: seq<Router.Slot>, slots': seq<Router.Slot>, d: Key, i: nat)
    requires |slots'| == |slots|
    requires forall j :: 0 <= j < |slots| ==>
      slots'[j].alive == slots[j].alive && (d in Keys(slots'[j].routes) <==> d in Keys(slots[j].routes))
    ensures Router.OwnerOf(slots', d, i) == Router.OwnerOf(slots, d, i)
    decreases |slots| - i
  {
    if i < |slots| {
      SameOwner(slots, slots', d, i + 1);
    }
  }

  /** A packet that does not come from `d` teaches the hub nothing about `d`. */
  lemma HubLearnsOther(w: Wiring, s: State, c: nat, packet: Router.Packet, junk: Router.Junk, d: Key)
    requires Shape(w, s) && Live(s, c) && Parseable(w.hub.host, packet) && SourceKey(w.hub.host, packet) != d
    ensures var h' := Router.RoutePacket(w.hub, s.hub, c, packet, junk).daemon;
      && h'.local == s.hub.local && |h'.slots| == |s.hub.slots|
      && forall j :: 0 <= j < |s.hub.slots| ==>
           && h'.slots[j].alive == s.hub.slots[j].alive
           && (d in Keys(h'.slots[j].routes) <==> d in Keys(s.hub.slots[j].routes))
  {
    var buf := InBuffer(packet, junk.buf);
    var dst := ParseAddr(w.hub.host, buf, junk.route, false);
    var src := ParseAddr(w.hub.host, buf, dst, true);
    ParsedKey(w.hub.host, packet, junk.buf, dst, true);
    hide ParseAddr;
    hide InRoutes;
    hide Router.Owner;
    hide Router.Broadcast;
    KeysOfLonger(s.hub.slots[c].routes, src);
  }

  lemma HubArrivalForgets(w: Wiring, s: State, c: nat, junk: Router.Junk, d: Key)
    requires Links(w, s) && Possible(w, s, ArriveAtHub(c, junk)) && !Speaks(w, s, ArriveAtHub(c, junk), d)
    ensures NothingForgotten(w, s, Apply(w, s, ArriveAtHub(c, junk)), d)
  {
    var m := ArriveAtHub(c, junk);
    MovedIsComplete(w, s, m);
    assert Carries(w, c, s.up[c][0]);
    hide Carries;
    HubOpens(w, s, c, s.up[c][0], junk);
    hide Links;
    hide PacketOf;
    hide Router.ProcessFrame;
    hide Router.RoutePacket;
    HubLearnsOther(w, s, c, PacketMoved(w, s, m), junk, d);
    SameOwner(s.hub.slots, Apply(w, s, m).hub.slots, d, 0);
  }

  lemma ClientArrivalForgets(w: Wiring, s: State, c: nat, junk: Router.Junk, d: Key)
    requires Links(w, s) && Possible(w, s, ArriveAtClient(c, junk))
    ensures NothingForgotten(w, s, Apply(w, s, ArriveAtClient(c, junk)), d)
  {
    var m := ArriveAtClient(c, junk);
    var e := Destination(w, s, m);
    MovedIsComplete(w, s, m);
    ArriveAtClientEffect(w, e, s, c, junk);
    hide Links;
    hide PacketOf;
    hide Apply;
    hide ClientInv;
    hide Copy;
    var s' := Apply(w, s, m);
    if SendsBack(w, s, d, c) {
      Session.KeysGrow(s.clients[c].slots[w.ends[c]].routes, s'.clients[c].slots[w.ends[c]].routes);
    }
  }

  lemma HubReadForgets(w: Wiring, s: State, packet: Router.Packet, junk: Router.Junk, d: Key)
    requires Links(w, s) && Possible(w, s, HubRead(packet, junk)) && SourceKey(w.hub.host, packet) != d
    ensures NothingForgotten(w, s, Apply(w, s, HubRead(packet, junk)), d)
  {
    HubReadEffect(w, DestinationKey(w.hub.host, packet), s, packet, junk);
    hide ClientInv;
    hide Carries;
    hide Apply;
    hide Copy;
    hide HubSends;
    hide Router.OwnerOf;
  }

  lemma ReadForgets(w: Wiring, s: State, c: nat, packet: Router.Packet, junk: Router.Junk, d: Key)
    requires Links(w, s) && Possible(w, s, Read(c, packet, junk)) && SourceKey(w.hub.host, packet) != d
    ensures NothingForgotten(w, s, Apply(w, s, Read(c, packet, junk)), d)
  {
    ReadEffect(w, s, c, packet, junk);
    hide ClientInv;
    hide Carries;
    hide Apply;
    hide Copy;
    hide Router.OwnerOf;
    hide Session.Connected;
  }

  lemma StepForgetsNothing(w: Wiring, s: State, m: Move, d: Key)
    requires Links(w, s) && Possible(w, s, m) && !Speaks(w, s, m, d)
    ensures NothingForgotten(w, s, Apply(w, s, m), d)
  {
    hide Links;
    hide Apply;
    hide NothingForgotten;
    match m
    case HubRead(packet, junk) => HubReadForgets(w, s, packet, junk, d);
    case Read(c, packet, junk) => ReadForgets(w, s, c, packet, junk, d);
    case ArriveAtHub(c, junk) => HubArrivalForgets(w, s, c, junk, d);
    case ArriveAtClient(c, junk) => ClientArrivalForgets(w, s, c, junk, d);
  }

  lemma TrapKept(w: Wiring, s: State, s': State, d: Key)
    requires Shape(w, s) && Trapped(w, s, d) && NothingForgotten(w, s, s', d)
    ensures Trapped(w, s', d)
  {
    var o := Router.OwnerOf(s.hub.slots, d, 0);
    assert o.Some? ==> o.value < |s.clients|;
    hide SendsBack;
    hide Router.OwnerOf;
    hide LocalToHub;
  }

  // ---------------------------------------------------------------- what is caught stays caught

  /** Frame `k` on the way from client `c` to the hub, or from the hub to client `c`, is for `d`, and
      gets to someone who sends it on. */
  predicate CaughtAt(w: Wiring, s: State, d: Key, c: nat, k: nat)
    requires Shape(w, s)
  {
    && c < |s.clients|
    && ((k < |s.up[c]| && IsFor(w, d, PacketOf(w, c, s.up[c][k])))
        || (k < |s.down[c]| && IsFor(w, d, PacketOf(w, c, s.down[c][k])) && SendsBack(w, s, d, c)))
  }

  ghost predicate HasCaught(w: Wiring, s: State, d: Key)
    requires Shape(w, s)
  {
    exists c, k :: CaughtAt(w, s, d, c, k)
  }

  /** What a step does to the queues: it moves them up by one, or appends to them. */
  predicate Moved(q: seq<Transit>, q': seq<Transit>, popped: bool) {
    if popped then q != [] && q[1..] <= q' else q <= q'
  }

  lemma QueuesMove(w: Wiring, s: State, m: Move)
    requires Links(w, s) && Possible(w, s, m)
    ensures var s' := Apply(w, s, m);
      && Shape(w, s')
      && forall c :: 0 <= c < |s.clients| ==>
           && Moved(s.up[c], s'.up[c], m.ArriveAtHub? && m.c == c)
           && Moved(s.down[c], s'.down[c], m.ArriveAtClient? && m.c == c)
  {
    var e := Destination(w, s, m);
    MovedIsComplete(w, s, m);
    StepLinks(w, s, m);
    match m {
      case HubRead(packet, junk) => HubReadEffect(w, e, s, packet, junk);
      case Read(c, packet, junk) => ReadEffect(w, s, c, packet, junk);
      case ArriveAtHub(c, junk) => ArriveAtHubEffect(w, e, s, c, junk);
      case ArriveAtClient(c, junk) => ArriveAtClientEffect(w, e, s, c, junk);
    }
    hide ClientInv;
    hide Carries;
    hide Apply;
    hide Copy;
    hide HubSends;
    hide SendsBack;
    hide PacketOf;
  }

  /** The caught packet that is first in its queue is sent on, and is caught again. */
  lemma HeadIsCaughtAgain(w: Wiring, s: State, m: Move, d: Key)
    requires Links(w, s) && Possible(w, s, m) && IsArrival(m) && Trapped(w, s, d)
    requires IsFor(w, d, PacketMoved(w, s, m)) && (m.ArriveAtClient? ==> SendsBack(w, s, d, m.c))
    requires NothingForgotten(w, s, Apply(w, s, m), d)
    ensures HasCaught(w, Apply(w, s, m), d)
  {
    hide Apply;
    var s', packet := Apply(w, s, m), PacketMoved(w, s, m);
    if m.ArriveAtHub? {
      ArriveAtHubEffect(w, d, s, m.c, m.junk);
      var b := TrapFor(w, s, d, m.c);
      CopyCarries(w, s, d, b, packet, s.up[m.c][0].hops + 1);
      hide Copy;
      hide PacketOf;
      assert CaughtAt(w, s', d, b, |s.down[b]|);
    } else {
      ArriveAtClientEffect(w, d, s, m.c, m.junk);
      CopyCarries(w, s, d, m.c, packet, s.down[m.c][0].hops + 1);
      hide Copy;
      hide PacketOf;
      assert CaughtAt(w, s', d, m.c, |s.up[m.c]|);
    }
  }

  lemma StepKeepsCaught(w: Wiring, s: State, m: Move, d: Key)
    requires Links(w, s) && Possible(w, s, m) && !Speaks(w, s, m, d)
    requires Trapped(w, s, d) && HasCaught(w, s, d)
    ensures var s' := Apply(w, s, m); Links(w, s') && Trapped(w, s', d) && HasCaught(w, s', d)
  {
    hide Apply;
    hide IsFor;
    hide PacketOf;
    hide Speaks;
    hide Trapped;
    hide SendsBack;
    hide ClientInv;
    hide Carries;
    var s' := Apply(w, s, m);
    StepLinks(w, s, m);
    StepForgetsNothing(w, s, m, d);
    TrapKept(w, s, s', d);
    QueuesMove(w, s, m);
    var c: nat, k: nat :| CaughtAt(w, s, d, c, k);
    if k < |s.up[c]| && IsFor(w, d, PacketOf(w, c, s.up[c][k])) {
      if m.ArriveAtHub? && m.c == c {
        if k == 0 {
          HeadIsCaughtAgain(w, s, m, d);
        } else {
          assert s'.up[c][k - 1] == s.up[c][1..][k - 1];
          assert CaughtAt(w, s', d, c, k - 1);
        }
      } else {
        assert s'.up[c][k] == s.up[c][k];
        assert CaughtAt(w, s', d, c, k);
      }
    } else if m.ArriveAtClient? && m.c == c {
      if k == 0 {
        HeadIsCaughtAgain(w, s, m, d);
      } else {
        assert s'.down[c][k - 1] == s.down[c][1..][k - 1];
        assert CaughtAt(w, s', d, c, k - 1);
      }
    } else {
      assert s'.down[c][k] == s.down[c][k];
      assert CaughtAt(w, s', d, c, k);
    }
  }

  // ---------------------------------------------------------------- runs

  ghost predicate IsRun(w: Wiring, run: seq<State>, moves: seq<Move>) {
    && |run| == |moves| + 1 && Links(w, run[0])
    && forall i | 0 <= i < |moves| :: Possible(w, run[i], moves[i]) && run[i + 1] == Apply(w, run[i], moves[i])
  }

  /** Main result under mixed traffic: whatever else is read and arrives, a trap for `d` and the
      packets caught in it last at least until `d` speaks up. */
  lemma {:induction false} TrapLasts(w: Wiring, run: seq<State>, moves: seq<Move>, d: Key, n: nat)
    requires IsRun(w, run, moves) && n <= |moves|
    requires Trapped(w, run[0], d) && HasCaught(w, run[0], d)
    requires forall i :: 0 <= i < n ==> !Speaks(w, run[i], moves[i], d)
    ensures Links(w, run[n]) && Trapped(w, run[n], d) && HasCaught(w, run[n], d)
  {
    hide Links;
    hide Trapped;
    hide HasCaught;
    hide Speaks;
    hide Apply;
    if n > 0 {
      TrapLasts(w, run, moves, d, n - 1);
      StepKeepsCaught(w, run[n - 1], moves[n - 1], d);
    }
  }
}
