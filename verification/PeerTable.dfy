/** The daemon on the heap (src/peer.c and src/peer_net.c): linked peer elements, each with its
    route list, and the methods that walk and change them. Every method is proved against the
    function of module Router that it implements. */
module PeerTable {
  import opened Protocol
  import opened Framing
  import opened Cipher
  import opened Routes
  import opened PacketHeader
  import opened RouteRecords
  import opened Router
  import opened Wrappers

  /** A peer_t. `stage` is where the receiving thread of the peer stands; `epoch` and the
      stamps are history. `routes` holds the pointer to the first record of the route list. */
  class Peer {
    var alive: bool
    var authenticated: bool
    var isClient: bool
    var pubkey: Option<Stamped<RsaKey>>
    var encCtx: Option<Stamped<SessionKey>>
    var decCtx: Option<Stamped<SessionKey>>
    const routes: RouteList
    var next: Peer?
    var epoch: nat
    ghost var stage: Stage
    ghost var frees: seq<Context>

    /** initialize_peer */
    constructor ()
      ensures Value() == INITIAL_SLOT && next == null && fresh(routes) && HasNoRoutes()
    {
      alive, authenticated, isClient := false, false, false;
      pubkey, encCtx, decCtx := None, None, None;
      routes := new RouteList();
      next, epoch, stage, frees := null, 0, Ended, [];
    }

    ghost function Value(): Slot
      reads this, routes
    {
      Slot(alive, authenticated, isClient, pubkey, encCtx, decCtx, routes.contents, stage, epoch, frees)
    }

    ghost predicate HasNoRoutes()
      reads this, routes, routes.records, routes.buffers
    {
      routes.Valid() && routes.contents == [] && routes.records == {} && routes.buffers == {}
    }

    /** set_peer_info */
    method SetPeerInfo(isClient: bool)
      requires routes.Valid()
      modifies this, routes
      ensures Value() == Router.SetPeerInfo(old(Value()), isClient)
      ensures next == old(next) && HasNoRoutes()
    {
      hide RouteList.Valid;
      ForgetSession(isClient);
      ghost var freed := routes.Clear();
      Begin();
    }

    /** The key, the contexts and the authentication of the last connection. */
    method ForgetSession(isClient: bool)
      modifies this`isClient, this`pubkey, this`encCtx, this`authenticated, this`frees
      ensures Value() == old(Value()).(isClient := isClient, pubkey := None, encCtx := None, authenticated := false,
                                       frees := old(frees + FreedNow(Value())))
    {
      this.isClient := isClient;
      pubkey := None;
      FreeContexts();
      encCtx := None;
      encCtx := None;
      authenticated := false;
    }

    /** The next connection begins. */
    method Begin()
      modifies this`alive, this`epoch, this`stage
      ensures Value() == old(Value()).(alive := true, epoch := old(epoch) + 1, stage := SendPub)
    {
      alive := true;
      epoch := epoch + 1;
      stage := SendPub;
    }

    /** Free the contexts whose pointers are not null. */
    method FreeContexts()
      modifies this`frees
      ensures frees == old(frees) + FreedNow(old(Value()))
    {
      if encCtx.Some? {
        frees := frees + [Encrypting(encCtx.value.epoch)];
      }
      if decCtx.Some? {
        frees := frees + [Decrypting(decCtx.value.epoch)];
      }
    }

    /** authenticate_peer, on the frames that arrive before the stream ends. It sends its own
        public key, checks the other side's, and then sends or receives the session key. */
    method Authenticate(cfg: Config, incoming: seq<Frame>, drawn: SessionKey, pads: (nat, nat))
      returns (ok: bool, sent: seq<Frame>, used: nat)
      requires alive && !authenticated && stage == SendPub
      modifies this
      ensures AuthResult(Value(), sent, used) == RunAuth(cfg, old(Value()), incoming, drawn, pads)
      ensures ok == authenticated && next == old(next)
    {
      hide RunAuth;
      ghost var result := RunAuth(cfg, Value(), incoming, drawn, pads);
      assert incoming[0..] == incoming;
      sent, used := [], 0;
      assert result == After(sent, used, RunAuth(cfg, Value(), incoming[used..], drawn, pads));
      RunAuthStep(cfg, Value(), incoming, drawn, pads, sent, used);
      sent := sent + [Frame(FRAME_HDR_AUTH, cfg.rsa.pem(cfg.own))];
      stage := AwaitPub;
      RunAuthStep(cfg, Value(), incoming, drawn, pads, sent, used);
      if used == |incoming| {
        stage := Ended;
        return false, sent, used;
      }
      ok := CheckKey(cfg, incoming[used], drawn);
      used := used + 1;
      RunAuthStep(cfg, Value(), incoming, drawn, pads, sent, used);
      if !ok {
        return;
      }
      if isClient {
        ok, sent, used := TakeSession(cfg, incoming, drawn, pads, sent, used);
      } else {
        ok, sent := SendSession(cfg, incoming, drawn, pads, sent, used);
      }
    }

    /** The check of the public key that has arrived. */
    method CheckKey(cfg: Config, f: Frame, drawn: SessionKey) returns (ok: bool)
      requires alive && !authenticated && stage == AwaitPub
      modifies this`pubkey, this`stage
      ensures Value() == Router.Authenticate(cfg, old(Value()), f, drawn)
      ensures ok == (stage == if isClient then AwaitKey else SendKey(drawn)) && (!ok ==> stage == Ended)
      ensures ok <==>
        f.kind == 1 && f.payload != [] && var k := cfg.rsa.load(f.payload); k.Some? && k.value in cfg.trusted
    {
      if f.kind != FRAME_HDR_AUTH || |f.payload| == 0 {
        stage := Ended;
        return false;
      }
      var key := cfg.rsa.load(f.payload);
      pubkey := if key.None? then None else Some(Stamped(key.value, epoch));
      if key.None? || key.value !in cfg.trusted {
        stage := Ended;
        return false;
      }
      stage := if isClient then AwaitKey else SendKey(drawn);
      ok := true;
    }

    /** The client's part: receive the key and then the IV. */
    method TakeSession(cfg: Config, incoming: seq<Frame>, drawn: SessionKey, pads: (nat, nat),
                       before: seq<Frame>, taken: nat)
      returns (ok: bool, sent: seq<Frame>, used: nat)
      requires alive && !authenticated && stage == AwaitKey && taken <= |incoming|
      modifies this
      ensures AuthResult(Value(), sent, used)
              == After(before, taken, RunAuth(cfg, old(Value()), incoming[taken..], drawn, pads))
      ensures ok == authenticated && next == old(next)
    {
      hide RunAuth;
      sent, used, ok := before, taken, false;
      RunAuthStep(cfg, Value(), incoming, drawn, pads, sent, used);
      if used == |incoming| {
        stage := Ended;
        return;
      }
      var key := TakeSecret(cfg, incoming[used], AES_KEY_SIZE);
      used := used + 1;
      stage := if key.None? then Ended else AwaitIv(key.value);
      RunAuthStep(cfg, Value(), incoming, drawn, pads, sent, used);
      if key.None? {
        return;
      }
      if used == |incoming| {
        stage := Ended;
        return;
      }
      var iv := TakeSecret(cfg, incoming[used], AES_IV_SIZE);
      used := used + 1;
      stage := if iv.None? then Ended else Install(SessionKey(key.value, iv.value));
      RunAuthStep(cfg, Value(), incoming, drawn, pads, sent, used);
      if iv.None? {
        return;
      }
      InstallSession(SessionKey(key.value, iv.value));
      RunAuthStep(cfg, Value(), incoming, drawn, pads, sent, used);
      assert sent + [] == sent;
      ok := true;
    }

    /** One frame of the session key. */
    method TakeSecret(cfg: Config, f: Frame, size: nat) returns (secret: Option<seq<byte>>)
      ensures secret.Some? <==>
        && f.kind == 1 && f.payload != [] && |f.payload| <= cfg.rsa.size(cfg.own)
        && var m := cfg.rsa.open(cfg.own, f.payload); m.Some? && |m.value| == size
      ensures secret.Some? ==> secret == cfg.rsa.open(cfg.own, f.payload)
    {
      if f.kind != FRAME_HDR_AUTH || |f.payload| == 0 || |f.payload| > cfg.rsa.size(cfg.own) {
        return None;
      }
      secret := RsaDecrypt(cfg.rsa, cfg.own, f.payload);
      if secret.Some? && |secret.value| != size {
        secret := None;
      }
    }

    /** The server's part: encrypt and send the key and then the IV. */
    method SendSession(cfg: Config, incoming: seq<Frame>, drawn: SessionKey, pads: (nat, nat),
                       before: seq<Frame>, ghost taken: nat)
      returns (ok: bool, sent: seq<Frame>)
      requires alive && !authenticated && stage == SendKey(drawn) && taken <= |incoming|
      modifies this
      ensures AuthResult(Value(), sent, taken)
              == After(before, taken, RunAuth(cfg, old(Value()), incoming[taken..], drawn, pads))
      ensures ok == authenticated && next == old(next)
    {
      hide RunAuth;
      sent, ok := before, false;
      RunAuthStep(cfg, Value(), incoming, drawn, pads, sent, taken);
      var key := if pubkey.None? then None else RsaEncrypt(cfg.rsa, pubkey.value.value, drawn.key, pads.0);
      if key.None? {
        stage := Ended;
        RunAuthStep(cfg, Value(), incoming, drawn, pads, sent, taken);
        assert sent + [] == sent;
        return;
      }
      sent := sent + [Frame(FRAME_HDR_AUTH, key.value)];
      stage := SendIv(drawn);
      RunAuthStep(cfg, Value(), incoming, drawn, pads, sent, taken);
      var iv := RsaEncrypt(cfg.rsa, pubkey.value.value, drawn.iv, pads.1);
      if iv.None? {
        stage := Ended;
        RunAuthStep(cfg, Value(), incoming, drawn, pads, sent, taken);
        assert sent + [] == sent;
        return;
      }
      sent := sent + [Frame(FRAME_HDR_AUTH, iv.value)];
      stage := Install(drawn);
      RunAuthStep(cfg, Value(), incoming, drawn, pads, sent, taken);
      InstallSession(drawn);
      RunAuthStep(cfg, Value(), incoming, drawn, pads, sent, taken);
      assert sent + [] == sent;
      ok := true;
    }

    /** Make both cipher contexts from the session key. */
    method InstallSession(session: SessionKey)
      requires stage == Install(session)
      modifies this`encCtx, this`decCtx, this`authenticated, this`stage
      ensures Value() == old(Value()).(encCtx := Some(Stamped(session, epoch)), decCtx := Some(Stamped(session, epoch)),
                                       authenticated := true, stage := Receiving)
    {
      encCtx := Some(Stamped(session, epoch));
      decCtx := Some(Stamped(session, epoch));
      authenticated := true;
      stage := Receiving;
    }
  }

  /** What has been handed to the tun/tap device and to the sockets, in order. */
  datatype Handed = ToDevice(packet: Packet) | ToSocket(peer: Peer, frame: Frame)

  class Log {
    var entries: seq<Handed>
  }

  /** The outputs of a step of module Router, with peers in place of their positions. */
  ghost function Hand(list: seq<Peer>, outs: seq<Out>): seq<Handed> {
    if outs == [] then [] else HandOut(list, outs[0]) + Hand(list, outs[1..])
  }

  ghost function HandOut(list: seq<Peer>, o: Out): seq<Handed> {
    match o
    case ToTun(packet) => [ToDevice(packet)]
    case ToPeer(i, frame) => if i < |list| then [ToSocket(list[i], frame)] else []
  }

  lemma {:induction false} HandAppend(list: seq<Peer>, a: seq<Out>, b: seq<Out>)
    ensures Hand(list, a + b) == Hand(list, a) + Hand(list, b)
  {
    hide HandOut;
    if a == [] {
      assert a + b == b;
    } else {
      HandAppend(list, a[1..], b);
      assert (a + b)[1..] == a[1..] + b;
      Regroup(HandOut(list, a[0]), Hand(list, a[1..]), Hand(list, b));
    }
  }

  lemma HandOne(list: seq<Peer>, o: Out)
    ensures o.ToTun? ==> Hand(list, [o]) == [ToDevice(o.packet)]
    ensures o.ToPeer? && o.slot < |list| ==> Hand(list, [o]) == [ToSocket(list[o.slot], o.frame)]
  {
    assert [o][1..] == [];
  }

  /** One round of the broadcasting loop. */
  lemma HandBroadcast(list: seq<Peer>, cfg: Config, slots: seq<Slot>, data: Packet, e: Option<nat>, i: nat)
    requires i < |slots|
    ensures var here := Hand(list, BroadcastFrom(cfg, slots, data, e, i));
            var later := Hand(list, BroadcastFrom(cfg, slots, data, e, i + 1));
            here == if e == Some(i) || !slots[i].alive then later else Hand(list, SendTo(cfg, slots, i, data)) + later
  {
    hide AesEncrypt;
    var head := if e == Some(i) then [] else SendTo(cfg, slots, i, data);
    HandAppend(list, head, BroadcastFrom(cfg, slots, data, e, i + 1));
  }

  ghost function At(list: seq<Peer>, i: nat): Peer? {
    if i < |list| then list[i] else null
  }

  ghost function NextPeer(list: seq<Peer>, i: nat): Peer? {
    At(list, i + 1)
  }

  lemma {:induction false} HandToSlot(list: seq<Peer>, i: nat, frames: seq<Frame>)
    requires i < |list|
    ensures Hand(list, ToSlot(i, frames)) == seq(|frames|, k requires 0 <= k < |frames| => ToSocket(list[i], frames[k]))
  {
    if frames != [] {
      HandToSlot(list, i, frames[1..]);
      assert ToSlot(i, frames)[1..] == ToSlot(i, frames[1..]);
    }
  }

  /** Playing the events turns the state `d` into `d'`, and hands on what is new in the log. */
  ghost predicate Played(cfg: Config, d: Daemon, events: seq<Event>, d': Daemon,
                         entries: seq<Handed>, entries': seq<Handed>, list: seq<Peer>) {
    && Playable(cfg, d, events)
    && d' == Play(cfg, d, events).daemon && entries' == entries + Hand(list, Play(cfg, d, events).outs)
  }

  lemma PlayedThen(cfg: Config, d: Daemon, events: seq<Event>, d': Daemon, more: seq<Event>, d'': Daemon,
                   entries: seq<Handed>, entries': seq<Handed>, entries'': seq<Handed>, list: seq<Peer>)
    requires Played(cfg, d, events, d', entries, entries', list)
    requires Played(cfg, d', more, d'', entries', entries'', list)
    ensures Played(cfg, d, events + more, d'', entries, entries'', list)
  {
    hide Hand;
    PlayAppend(cfg, d, events, more);
    var outs, outs' := Play(cfg, d, events).outs, Play(cfg, d', more).outs;
    HandAppend(list, outs, outs');
    Regroup(entries, Hand(list, outs), Hand(list, outs'));
  }

  /** A single event that hands nothing on. */
  lemma PlayedAlone(cfg: Config, d: Daemon, e: Event, entries: seq<Handed>, list: seq<Peer>)
    requires Enabled(d, e) && Apply(cfg, d, e).outs == []
    ensures Played(cfg, d, [e], Apply(cfg, d, e).daemon, entries, entries, list)
  {
    hide Enabled;
    hide Apply;
    PlayFirst(cfg, d, e, []);
    assert [e] + [] == [e];
  }

  lemma HandNothing(list: seq<Peer>)
    ensures Hand(list, []) == []
  {
  }

  /** What a frame does to the stage of its peer. */
  lemma StageAfter(cfg: Config, d: Daemon, i: nat, f: Frame, junk: Junk)
    requires i < |d.slots|
    ensures var d' := Router.ProcessFrame(cfg, d, i, f, junk).daemon;
            i < |d'.slots| && d'.slots[i].stage == if f.kind == FRAME_HDR_CLOSE then Ended else d.slots[i].stage
  {
    hide ParseAddr;
    hide InRoutes;
    hide Owner;
    hide Broadcast;
    hide AesDecrypt;
  }

  lemma StartsPlayed(cfg: Config, d: Daemon, events: seq<Event>, d': Daemon,
                     entries: seq<Handed>, entries': seq<Handed>, list: seq<Peer>)
    requires Playable(cfg, d, events)
    requires Play(cfg, d, events).daemon == d' && entries' == entries + Hand(list, Play(cfg, d, events).outs)
    ensures Played(cfg, d, events, d', entries, entries', list)
  {
  }

  lemma PlaysOn(cfg: Config, d: Daemon, events: seq<Event>, d': Daemon, e: Event,
                entries: seq<Handed>, entries': seq<Handed>, entries'': seq<Handed>, list: seq<Peer>)
    requires Played(cfg, d, events, d', entries, entries', list) && Enabled(d', e)
    requires entries'' == entries' + Hand(list, Apply(cfg, d', e).outs)
    ensures Played(cfg, d, events + [e], Apply(cfg, d', e).daemon, entries, entries'', list)
  {
    hide Enabled;
    hide Apply;
    hide Hand;
    PlayOneMore(cfg, d, events, e);
    var outs, more := Play(cfg, d, events).outs, Apply(cfg, d', e).outs;
    HandAppend(list, outs, more);
    Regroup(entries, Hand(list, outs), Hand(list, more));
  }

  /** The state in which peer `i` has one more route. */
  ghost function Learned(d: Daemon, i: nat, r: Route): Daemon
    requires i < |d.slots|
  {
    d.(slots := d.slots[i := d.slots[i].(routes := d.slots[i].routes + [r])])
  }

  /** An empty list shares nothing with others. */
  lemma SeparateWith(lists: seq<RouteList>, list: RouteList, records: set<Netroute>, buffers: set<array<byte>>)
    requires Separate(lists, records, buffers) && list !in lists
    requires list.Valid() && list.records == {} && list.buffers == {}
    ensures Separate(lists + [list], records, buffers)
  {
    hide RouteList.Valid;
  }

  lemma DistinctLists(lists: seq<RouteList>, records: set<Netroute>, buffers: set<array<byte>>)
    requires Separate(lists, records, buffers)
    ensures forall i, j :: 0 <= i < j < |lists| ==> lists[i] != lists[j]
  {
    hide RouteList.Valid;
    assert forall i, j :: 0 <= i < j < |lists| ==> Apart(lists[i], lists[j]);
  }

  lemma SeparateAt(lists: seq<RouteList>, records: set<Netroute>, buffers: set<array<byte>>, i: nat)
    requires Separate(lists, records, buffers) && i < |lists|
    ensures forall j :: 0 <= j < |lists| && j != i ==> Apart(lists[i], lists[j]) && Apart(lists[j], lists[i])
  {
    hide RouteList.Valid;
    forall j | 0 <= j < |lists| && j != i ensures Apart(lists[i], lists[j]) && Apart(lists[j], lists[i]) {
      assert if i < j then Apart(lists[i], lists[j]) else Apart(lists[j], lists[i]);
    }
  }

  lemma EmptiedAt(lists: seq<RouteList>, records: set<Netroute>, buffers: set<array<byte>>, i: nat)
    requires i < |lists| && lists[i].Valid() && lists[i].records == {} && lists[i].buffers == {}
    requires forall j :: 0 <= j < |lists| && j != i ==> Within(lists[j], records, buffers) && lists[j] != lists[i]
    requires forall j, k :: 0 <= j < k < |lists| && j != i && k != i ==> Apart(lists[j], lists[k])
    ensures Separate(lists, records, buffers)
  {
    hide RouteList.Valid;
  }

  class Vpnd {
    var peers: Peer?
    const localRoutes: RouteList
    const log: Log
    ghost var list: seq<Peer>
    ghost var lists: seq<RouteList>
    ghost var records: set<Netroute>
    ghost var buffers: set<array<byte>>
    ghost var state: Daemon

    /** `list` holds the distinct elements in the order in which they are linked. */
    ghost predicate Linked()
      reads this`peers, this`list, list`next
    {
      && peers == At(list, 0)
      && (forall i {:trigger NextPeer(list, i)} :: 0 <= i < |list| ==> list[i].next == NextPeer(list, i))
      && (forall i, j :: 0 <= i < j < |list| ==> list[i] != list[j])
    }

    /** `state` is the state of module Router that the heap represents. `lists` holds the local
        routes and then the routes of every peer. */
    ghost predicate Shown()
      reads this`list, this`lists, this`state, list, lists
    {
      && |lists| == |list| + 1 && |list| == |state.slots|
      && lists[0] == localRoutes && localRoutes.contents == state.local
      && (forall i :: 0 <= i < |list| ==> lists[i + 1] == list[i].routes)
      && (forall i :: 0 <= i < |list| ==> list[i].Value() == state.slots[i])
    }

    ghost predicate Valid()
      reads this, list, lists, records, buffers
    {
      Linked() && Shown() && Separate(lists, records, buffers)
    }

    constructor ()
      ensures Valid() && state == INITIAL_DAEMON && list == [] && fresh(log) && log.entries == []
    {
      peers := null;
      localRoutes := new RouteList();
      list, records, buffers, state := [], {}, {}, INITIAL_DAEMON;
      log := new Log;
      new;
      lists := [localRoutes];
      log.entries := [];
    }

    lemma Sizes()
      requires Valid()
      ensures |lists| == |list| + 1 && |list| == |state.slots| && lists[0] == localRoutes
      ensures Within(localRoutes, records, buffers)
    {
      hide Linked;
      hide RouteList.Valid;
      assert Within(lists[0], records, buffers);
    }

    lemma Element(i: nat)
      requires Valid() && i < |list|
      ensures |lists| == |list| + 1 && |list| == |state.slots|
      ensures list[i].Value() == state.slots[i]
      ensures list[i].routes == lists[i + 1] && list[i].routes.Valid()
      ensures list[i].next == NextPeer(list, i)
    {
      hide RouteList.Valid;
      assert Within(lists[i + 1], records, buffers);
    }

    lemma DistinctPeers()
      requires Valid()
      ensures forall i, j :: 0 <= i < j < |list| ==> list[i] != list[j]
    {
      hide Shown;
      hide Separate;
    }

    /** is_local_route */
    method IsLocalRoute(route: Netroute) returns (local: bool)
      requires Valid() && route.HasBuffer()
      ensures local <==> InRoutes(route.Value(), state.local)
    {
      Sizes();
      var found := localRoutes.Find(route);
      local := found != null;
    }

    /** get_peer_route */
    method GetPeerRoute(route: Netroute) returns (owner: Peer?)
      requires Valid() && route.HasBuffer()
      ensures var o := Owner(state, route.Value());
              owner == if o.Some? then list[o.value] else null
    {
      hide InRoutes;
      hide Shown;
      hide Separate;
      hide RouteList.Valid;
      Sizes();
      ghost var slots := state.slots;
      owner := peers;
      ghost var i := 0;
      while owner != null
        invariant 0 <= i <= |list| && owner == At(list, i)
        invariant OwnerFrom(slots, route.Value(), 0) == OwnerFrom(slots, route.Value(), i)
        decreases |list| - i
      {
        Element(i);
        if owner.alive {
          var found := owner.routes.Find(route);
          if found != null {
            return;
          }
        }
        owner := owner.next;
        i := i + 1;
      }
    }

    /** send_data_to_peer, up to the frame it sends. */
    method SendDataToPeer(cfg: Config, kind: byte, data: seq<byte>, encrypt: bool, peer: Peer, ghost i: nat)
      requires Valid() && i < |list| && peer == list[i]
      modifies log
      ensures kind == FRAME_HDR_NETPACKET && encrypt ==>
        log.entries == old(log.entries) + Hand(list, SendTo(cfg, state.slots, i, data))
      ensures encrypt && peer.alive && peer.authenticated && peer.encCtx.Some? ==>
        log.entries == old(log.entries)
                       + [ToSocket(peer, Frame(kind, AesEncrypt(cfg.cipher, peer.encCtx.value.value, data)))]
      ensures !encrypt && peer.alive ==> log.entries == old(log.entries) + [ToSocket(peer, Frame(kind, data))]
      ensures !peer.alive || (encrypt && (!peer.authenticated || peer.encCtx.None?)) ==> log.entries == old(log.entries)
    {
      Element(i);
      hide Linked;
      hide Shown;
      hide Separate;
      if peer.alive {
        var payload := data;
        if encrypt {
          if !peer.authenticated || peer.encCtx.None? {
            return;
          }
          payload := AesEncrypt(cfg.cipher, peer.encCtx.value.value, data);
        }
        log.entries := log.entries + [ToSocket(peer, Frame(kind, payload))];
        HandOne(list, ToPeer(i, Frame(kind, payload)));
      }
    }

    /** broadcast_data_to_peers, for packets. */
    method BroadcastDataToPeers(cfg: Config, data: seq<byte>, exclude: Peer?, ghost e: Option<nat>)
      requires Valid()
      requires e.Some? ==> e.value < |list|
      requires exclude == if e.Some? then list[e.value] else null
      modifies log
      ensures log.entries == old(log.entries) + Hand(list, Broadcast(cfg, state, data, e))
    {
      hide Hand;
      hide BroadcastFrom;
      hide SendTo;
      hide Shown;
      hide Separate;
      hide RouteList.Valid;
      Sizes();
      var peer := peers;
      ghost var i := 0;
      ghost var slots := state.slots;
      ghost var target := log.entries + Hand(list, Broadcast(cfg, state, data, e));
      while peer != null
        invariant 0 <= i <= |list| && peer == At(list, i)
        invariant state.slots == slots
        invariant target == log.entries + Hand(list, BroadcastFrom(cfg, slots, data, e, i))
        decreases |list| - i
      {
        HandBroadcast(list, cfg, slots, data, e, i);
        Element(i);
        if peer != exclude && peer.alive {
          ghost var before := log.entries;
          SendDataToPeer(cfg, FRAME_HDR_NETPACKET, data, true, peer, i);
          ghost var later := Hand(list, BroadcastFrom(cfg, slots, data, e, i + 1));
          Regroup(before, Hand(list, SendTo(cfg, slots, i, data)), later);
        }
        peer := peer.next;
        i := i + 1;
      }
      NothingLeft(list, cfg, slots, data, e);
      assert target == log.entries + [];
    }

    /** add_peer: reuse the first dead element, or append a new one. */
    method AddPeer(isClient: bool) returns (peer: Peer, ghost i: nat)
      requires Valid()
      modifies this, list, lists
      ensures Valid() && state == Router.AddPeer(old(state), isClient)
      ensures i == FirstDead(old(state).slots)
      ensures i < |list| && peer == list[i] && peer.routes.records == {}
      ensures (peer in old(list) && peer.routes in old(lists)) || (fresh(peer) && fresh(peer.routes))
      ensures list == if i < |old(list)| then old(list) else old(list) + [peer]
    {
      hide FirstDead;
      hide Linked;
      hide Shown;
      hide Separate;
      hide RouteList.Valid;
      Sizes();
      ghost var before := list;
      if list != [] { Element(|list| - 1); }
      var last;
      last, i := FindDead();
      if last != null && !last.alive {
        Element(i);
        Reuse(last, i, isClient);
        return last, i;
      }
      peer := new Peer();
      peer.SetPeerInfo(isClient);
      Append(last, peer);
    }

    /** The walk of add_peer: stop at the first dead element, or at the last one. */
    method FindDead() returns (last: Peer?, ghost i: nat)
      requires Valid()
      ensures i <= |list| && i == FirstDead(state.slots)
      ensures i < |list| ==> last == list[i] && !last.alive
      ensures i == |list| ==> last == (if list == [] then null else list[|list| - 1])
      ensures i == |list| && last != null ==> last.alive
    {
      hide FirstDead;
      last, i := peers, 0;
      if peers == null {
        FirstDeadIs(state.slots, 0);
      }
      while last != null
        invariant 0 <= i < |list| || (list == [] && i == 0)
        invariant last == At(list, i)
        invariant forall j :: 0 <= j < i ==> list[j].alive
        decreases |list| - i
      {
        if !last.alive {
          FirstDeadIs(state.slots, i);
          return;
        }
        assert last.next == NextPeer(list, i);
        if last.next == null {
          i := i + 1;
          FirstDeadIs(state.slots, i);
          return;
        }
        last := last.next;
        i := i + 1;
      }
    }

    method Reuse(peer: Peer, ghost i: nat, isClient: bool)
      requires Valid() && i < |list| && peer == list[i]
      modifies this`state, peer, peer.routes
      ensures Valid() && peer.routes.records == {}
      ensures state == old(state).(slots := old(state.slots)[i := Router.SetPeerInfo(old(state.slots[i]), isClient)])
    {
      hide Linked;
      hide RouteList.Valid;
      Element(i);
      SeparateAt(lists, records, buffers, i + 1);
      DistinctPeers();
      peer.SetPeerInfo(isClient);
      EmptiedAt(lists, records, buffers, i + 1);
      hide Separate;
      assert ShownBut(i);
      hide Shown;
      hide ShownBut;
      Show(peer, i);
    }

    /** Hang a new element from the last one. */
    method Append(last: Peer?, peer: Peer)
      requires Valid() && last == (if list == [] then null else list[|list| - 1])
      requires peer !in list && peer.next == null
      requires peer.HasNoRoutes() && peer.routes !in lists
      modifies this`peers, this`list, this`lists, this`state, (if list == [] then {} else {list[|list| - 1]})`next
      ensures Valid() && list == old(list) + [peer]
      ensures state == old(state).(slots := old(state.slots) + [old(peer.Value())])
    {
      hide Separate;
      hide RouteList.Valid;
      Sizes();
      SeparateWith(lists, peer.routes, records, buffers);
      if peers == null {
        peers := peer;
      } else {
        last.next := peer;
      }
      Grow(peer);
    }

    /** Record in the history that the list has grown. */
    ghost method Grow(peer: Peer)
      requires Shown() && peer !in list && peer.next == null
      requires forall i, j :: 0 <= i < j < |list| ==> list[i] != list[j]
      requires peers == if list == [] then peer else list[0]
      requires forall i {:trigger NextPeer(list, i)} :: 0 <= i < |list| - 1 ==> list[i].next == NextPeer(list, i)
      requires list != [] ==> list[|list| - 1].next == peer
      modifies this`list, this`lists, this`state
      ensures Linked() && Shown() && list == old(list) + [peer] && lists == old(lists) + [peer.routes]
      ensures state == old(state).(slots := old(state.slots) + [old(peer.Value())])
    {
      ghost var before := list;
      list, lists := list + [peer], lists + [peer.routes];
      state := state.(slots := state.slots + [peer.Value()]);
      forall i | 0 <= i < |list| ensures list[i].next == NextPeer(list, i) {
        if i < |before| - 1 {
          assert list[i].next == NextPeer(before, i);
        }
      }
    }

    /** process_netpacket. `junk` is what the uninitialised `route` and `packet_data` hold. */
    method ProcessNetpacket(cfg: Config, peer: Peer, ghost i: nat, payload: seq<byte>, junk: Junk)
      requires Valid() && i < |list| && peer == list[i] && SoundCipher(cfg.cipher)
      requires |payload| <= FRAME_PAYLOAD_MAXSIZE && |junk.buf| == FRAME_PAYLOAD_MAXSIZE + AES_BLOCK_SIZE
      modifies this`state, this`records, this`buffers, peer.routes, peer.routes.records, log
      ensures fresh(peer.routes.records - old(peer.routes.records))
      ensures Valid()
      ensures var st := Router.ProcessNetpacket(cfg, old(state), i, payload, junk);
              state == st.daemon && log.entries == old(log.entries) + Hand(list, st.outs)
    {
      Element(i);
      hide Linked;
      hide Shown;
      hide Separate;
      var plain := if peer.decCtx.Some? then AesDecrypt(cfg.cipher, peer.decCtx.value.value, payload) else None;
      if plain.None? {
        return;
      }
      RoutePacket(cfg, peer, i, plain.value, junk);
    }

    /** The rest of process_netpacket, once the payload is decrypted. */
    method RoutePacket(cfg: Config, peer: Peer, ghost i: nat, packet: Packet, junk: Junk)
      requires Valid() && i < |list| && peer == list[i]
      requires |packet| <= |junk.buf|
      modifies this`state, this`records, this`buffers, peer.routes, peer.routes.records, log
      ensures fresh(peer.routes.records - old(peer.routes.records))
      ensures Valid()
      ensures var st := Router.RoutePacket(cfg, old(state), i, packet, junk);
              state == st.daemon && log.entries == old(log.entries) + Hand(list, st.outs)
    {
      hide ParseAddr;
      hide InRoutes;
      hide Owner;
      hide Broadcast;
      hide SendTo;
      hide InBuffer;
      hide Hand;
      hide Linked;
      hide Shown;
      hide Separate;
      Sizes();
      var route := new Netroute.Uninitialised(junk.route);
      var buf := FillBuffer(packet, junk.buf);
      ParsePacketAddr(cfg.host, buf, route, false);
      Dispatch(cfg, peer, i, packet, buf, route);
    }

    /** The branches of process_netpacket, with the destination in `route`. */
    method Dispatch(cfg: Config, peer: Peer, ghost i: nat, packet: Packet, buf: array<byte>, route: Netroute)
      requires Valid() && i < |list| && peer == list[i]
      requires buf.Length >= PARSE_WINDOW && route.HasBuffer() && route.addr != buf
      requires route !in records && route.addr !in buffers
      modifies this`state, this`records, this`buffers, peer.routes, peer.routes.records, log, route, route.addr
      ensures fresh(peer.routes.records - old(peer.routes.records))
      ensures Valid()
      ensures var dst := old(route.Value());
              var src := ParseAddr(cfg.host, old(buf[..]), dst, true);
              var o := Owner(old(state), dst);
        && state == (if InRoutes(dst, old(state).local) && Owner(old(state), src).None? then Learned(old(state), i, src)
                     else old(state))
        && log.entries == old(log.entries) +
             Hand(list, if InRoutes(dst, old(state).local) then [ToTun(packet)]
                        else if o.Some? then SendTo(cfg, old(state).slots, o.value, packet)
                        else [ToTun(packet)] + Broadcast(cfg, old(state), packet, Some(i)))
    {
      hide ParseAddr;
      hide InRoutes;
      hide Owner;
      hide Broadcast;
      hide SendTo;
      hide Hand;
      hide Linked;
      hide Shown;
      hide Separate;
      Sizes();
      var local := IsLocalRoute(route);
      if local {
        ParsePacketAddr(cfg.host, buf, route, true);
        LearnAndWrite(peer, i, packet, route);
      } else {
        Forward(cfg, peer, i, packet, route);
      }
    }

    /** The branch of process_netpacket for a local destination, with the source in `route`. */
    method LearnAndWrite(peer: Peer, ghost i: nat, packet: Packet, route: Netroute)
      requires Valid() && i < |list| && peer == list[i] && route.HasBuffer()
      modifies this`state, this`records, this`buffers, peer.routes, peer.routes.records, log
      ensures fresh(peer.routes.records - old(peer.routes.records))
      ensures Valid()
      ensures var src := old(route.Value());
              state == if Owner(old(state), src).Some? then old(state) else Learned(old(state), i, src)
      ensures log.entries == old(log.entries) + Hand(list, [ToTun(packet)])
    {
      hide Owner;
      hide Hand;
      hide Linked;
      hide Shown;
      hide Separate;
      Sizes();
      OwnerIsElement(route.Value());
      var owner := GetPeerRoute(route);
      if owner == null {
        AddPeerRoute(route, peer, i);
      }
      WriteToDevice(packet);
    }

    lemma OwnerIsElement(r: Route)
      requires Valid()
      ensures Owner(state, r).Some? ==> Owner(state, r).value < |list|
    {
    }

    /** tuntap_write */
    method WriteToDevice(packet: Packet)
      modifies log
      ensures log.entries == old(log.entries) + Hand(list, [ToTun(packet)])
    {
      log.entries := log.entries + [ToDevice(packet)];
      HandOne(list, ToTun(packet));
    }

    /** The branches of process_netpacket for a destination that is not local. */
    method Forward(cfg: Config, peer: Peer, ghost i: nat, packet: Packet, route: Netroute)
      requires Valid() && i < |list| && peer == list[i] && route.HasBuffer()
      modifies log
      ensures log.entries == old(log.entries) +
        Hand(list, var o := Owner(state, route.Value());
                   if o.Some? then SendTo(cfg, state.slots, o.value, packet)
                   else [ToTun(packet)] + Broadcast(cfg, state, packet, Some(i)))
    {
      hide Hand;
      hide Owner;
      hide Broadcast;
      hide SendTo;
      hide Linked;
      hide Shown;
      hide Separate;
      Sizes();
      ghost var before := log.entries;
      OwnerIsElement(route.Value());
      var target := GetPeerRoute(route);
      if target != null {
        SendDataToPeer(cfg, FRAME_HDR_NETPACKET, packet, true, target, Owner(state, route.Value()).value);
      } else {
        WriteToDevice(packet);
        BroadcastDataToPeers(cfg, packet, peer, Some(i));
        HandAppend(list, [ToTun(packet)], Broadcast(cfg, state, packet, Some(i)));
        Regroup(before, Hand(list, [ToTun(packet)]), Hand(list, Broadcast(cfg, state, packet, Some(i))));
      }
    }

    /** add_netroute on the list of a peer. */
    method AddPeerRoute(route: Netroute, peer: Peer, ghost i: nat)
      requires Valid() && i < |list| && peer == list[i] && route.HasBuffer()
      modifies this`state, this`records, this`buffers, peer.routes, peer.routes.records
      ensures fresh(peer.routes.records - old(peer.routes.records))
      ensures Valid()
      ensures state == Learned(old(state), i, old(route.Value()))
    {
      hide Linked;
      hide Separate;
      hide RouteList.Valid;
      Element(i);
      DistinctLists(lists, records, buffers);
      ghost var added := AddToOne(lists, records, buffers, peer.routes, i + 1, route);
      assert ShownBut(i);
      hide Shown;
      records, buffers := records + {added}, buffers + {added.addr};
      Show(peer, i);
    }

    /** process_frame. The result is negative when the peer has closed the connection. */
    method ProcessFrame(cfg: Config, peer: Peer, ghost i: nat, f: Frame, junk: Junk) returns (result: int)
      requires Valid() && i < |list| && peer == list[i] && SoundCipher(cfg.cipher)
      requires Sendable(f) && |junk.buf| == FRAME_PAYLOAD_MAXSIZE + AES_BLOCK_SIZE
      modifies this`state, this`records, this`buffers, peer.routes, peer.routes.records, peer`stage, log
      ensures fresh(peer.routes.records - old(peer.routes.records))
      ensures Valid() && (result < 0 <==> f.kind == FRAME_HDR_CLOSE)
      ensures var st := Router.ProcessFrame(cfg, old(state), i, f, junk);
              state == st.daemon && log.entries == old(log.entries) + Hand(list, st.outs)
    {
      hide Linked;
      hide Shown;
      hide Separate;
      Element(i);
      if f.kind == FRAME_HDR_AUTH || f.kind == FRAME_HDR_RESERVED {
        // logged and ignored
      } else if f.kind == FRAME_HDR_CLOSE {
        EndLoop(peer, i);
        return -1;
      } else if f.kind == FRAME_HDR_NETPACKET {
        if peer.authenticated && |f.payload| != 0 {
          ProcessNetpacket(cfg, peer, i, f.payload, junk);
        }
      }
      result := 0;
    }

    /** Everything but peer `i` is shown. */
    ghost predicate ShownBut(i: nat)
      reads this`list, this`lists, this`state, list, lists
    {
      && |lists| == |list| + 1 && |list| == |state.slots|
      && lists[0] == localRoutes && localRoutes.contents == state.local
      && (forall j :: 0 <= j < |list| ==> lists[j + 1] == list[j].routes)
      && (forall j :: 0 <= j < |list| && j != i ==> list[j].Value() == state.slots[j])
    }

    /** Bring the history up to date after a change of peer `i`. */
    ghost method Show(peer: Peer, i: nat)
      requires Linked() && ShownBut(i) && Separate(lists, records, buffers) && i < |list| && peer == list[i]
      modifies this`state
      ensures Valid() && i < |old(state).slots|
      ensures state == old(state).(slots := old(state).slots[i := peer.Value()])
    {
      hide Linked;
      hide Separate;
      state := state.(slots := state.slots[i := peer.Value()]);
    }

    /** authenticate_peer, with what it sends handed to the socket. */
    method AuthenticatePeer(cfg: Config, peer: Peer, ghost i: nat, incoming: seq<Frame>, drawn: SessionKey,
                            pads: (nat, nat))
      returns (ok: bool, used: nat)
      requires Valid() && i < |list| && peer == list[i]
      requires peer.alive && !peer.authenticated && peer.stage == SendPub
      modifies this`state, peer, log
      ensures Valid()
      ensures var r := RunAuth(cfg, old(state).slots[i], incoming, drawn, pads);
        && state == old(state).(slots := old(state).slots[i := r.slot])
        && log.entries == old(log.entries) + Hand(list, ToSlot(i, r.sent))
        && ok == r.slot.authenticated && used == r.used
    {
      hide RunAuth;
      hide Linked;
      hide Separate;
      hide Hand;
      hide ToSlot;
      Element(i);
      DistinctPeers();
      var sent;
      ok, sent, used := peer.Authenticate(cfg, incoming, drawn, pads);
      assert ShownBut(i);
      hide Shown;
      hide ShownBut;
      Show(peer, i);
      HandToSlot(list, i, sent);
      log.entries := log.entries + seq(|sent|, k requires 0 <= k < |sent| => ToSocket(peer, sent[k]));
    }

    /** peer_receive: authenticate the peer, then process its frames until it closes the connection
        or the stream ends. `events` are the steps of module Router this amounts to: those of the
        authentication and, if it succeeds, one for each further frame that arrives, up to the first
        CLOSE. `junks` is what uninitialised memory holds when each frame is processed. */
    method PeerReceive(cfg: Config, peer: Peer, ghost i: nat, incoming: seq<Frame>, drawn: SessionKey,
                       pads: (nat, nat), junks: seq<Junk>) returns (ghost events: seq<Event>)
      requires Valid() && i < |list| && peer == list[i] && SoundCipher(cfg.cipher)
      requires peer.alive && !peer.authenticated && peer.stage == SendPub
      requires forall k :: 0 <= k < |incoming| ==> Sendable(incoming[k])
      requires |junks| == |incoming| && forall k :: 0 <= k < |junks| ==> FitsPacket(junks[k])
      modifies this`state, this`records, this`buffers, peer, peer.routes, peer.routes.records, log
      ensures Valid() && peer.alive && peer.stage == Ended
      ensures Played(cfg, old(state), events, state, old(log.entries), log.entries, list)
      ensures var s := old(state).slots[i];
              var r := RunAuth(cfg, s, incoming, drawn, pads);
        && peer.authenticated == r.slot.authenticated
        && r.used <= |incoming| && AuthEvents(cfg, s, i, incoming, drawn, pads, ZEROED) <= events
        && FramesTaken(events)
           == incoming[..r.used] + (if peer.authenticated then UpToClose(incoming[r.used..]) else [])
        && (LostLast(events) ==> FramesTaken(events) == incoming)
        && (peer.authenticated ==> (LostLast(events) <==> NoClose(incoming[r.used..])))
      ensures OnlyOf(events, i, drawn) && LostAtMostLast(events)
    {
      hide Linked;
      hide Shown;
      hide Separate;
      hide RunAuth;
      hide Hand;
      hide AuthEvents;
      hide LoopEvents;
      hide Played;
      hide OnlyOf;
      hide LostLast;
      hide LostAtMostLast;
      Sizes();
      ghost var d, entries := state, log.entries;
      events := AuthEvents(cfg, state.slots[i], i, incoming, drawn, pads, ZEROED);
      Element(i);
      AuthIsPlayed(cfg, d, i, incoming, drawn, pads, ZEROED);
      AuthEnds(cfg, d.slots[i], incoming, drawn, pads);
      AuthTakes(cfg, d.slots[i], i, incoming, drawn, pads, ZEROED);
      var ok, used := AuthenticatePeer(cfg, peer, i, incoming, drawn, pads);
      StartsPlayed(cfg, d, events, state, entries, log.entries, list);
      Element(i);
      assert incoming[..used] + [] == incoming[..used];
      assert incoming[..|incoming|] == incoming;
      if ok {
        ghost var before := events;
        ReceiveTakes(i, incoming, used, drawn, junks, before);
        events := ReceiveLoop(cfg, peer, i, incoming[used..], drawn, junks[used..], d, entries, events);
      }
    }

    /** The loop of peer_receive. */
    method ReceiveLoop(cfg: Config, peer: Peer, ghost i: nat, frames: seq<Frame>, ghost drawn: SessionKey,
                       junks: seq<Junk>, ghost d: Daemon, ghost entries: seq<Handed>, ghost before: seq<Event>)
      returns (ghost events: seq<Event>)
      requires Valid() && i < |list| && peer == list[i] && SoundCipher(cfg.cipher)
      requires peer.alive && peer.stage == Receiving
      requires forall k :: 0 <= k < |frames| ==> Sendable(frames[k])
      requires |junks| == |frames| && forall k :: 0 <= k < |junks| ==> FitsPacket(junks[k])
      requires Played(cfg, d, before, state, entries, log.entries, list)
      modifies this`state, this`records, this`buffers, peer`stage, peer.routes, peer.routes.records, log
      ensures Valid() && peer.stage == Ended
      ensures Played(cfg, d, events, state, entries, log.entries, list)
      ensures events == before + LoopEvents(i, frames, drawn, junks)
    {
      hide Linked;
      hide Shown;
      hide Separate;
      hide Hand;
      hide Played;
      hide LoopEvents;
      events := before;
      var n := 0;
      ghost var all := before + LoopEvents(i, frames, drawn, junks);
      assert frames[0..] == frames && junks[0..] == junks;
      while n < |frames|
        invariant n <= |frames| && Valid() && peer.stage == Receiving
        invariant fresh(peer.routes.records - old(peer.routes.records))
        invariant Played(cfg, d, events, state, entries, log.entries, list)
        invariant all == events + LoopEvents(i, frames[n..], drawn, junks[n..])
      {
        LoopRound(i, frames, drawn, junks, n, events);
        var result;
        result, events := ReceiveOne(cfg, peer, i, frames[n], drawn, junks[n], d, entries, events);
        if result < 0 {
          return;
        }
        n := n + 1;
      }
      LoopRound(i, frames, drawn, junks, n, events);
      events := StreamEnds(cfg, peer, i, d, entries, events);
    }

    /** The stream has ended while the peer was in the loop. */
    method StreamEnds(cfg: Config, peer: Peer, ghost i: nat, ghost d: Daemon, ghost entries: seq<Handed>,
                      ghost before: seq<Event>) returns (ghost events: seq<Event>)
      requires Valid() && i < |list| && peer == list[i] && peer.alive && peer.stage == Receiving
      requires Played(cfg, d, before, state, entries, log.entries, list)
      modifies this`state, peer`stage
      ensures Valid() && peer.stage == Ended && events == before + [Lost(i)]
      ensures Played(cfg, d, events, state, entries, log.entries, list)
    {
      hide Linked;
      hide Shown;
      hide Separate;
      hide Hand;
      hide Played;
      ghost var d' := state;
      Element(i);
      EndLoop(peer, i);
      HandNothing(list);
      PlaysOn(cfg, d, before, d', Lost(i), entries, log.entries, log.entries, list);
      events := before + [Lost(i)];
      Element(i);
    }

    /** One round of the loop. */
    method ReceiveOne(cfg: Config, peer: Peer, ghost i: nat, f: Frame, ghost drawn: SessionKey, junk: Junk,
                      ghost d: Daemon, ghost entries: seq<Handed>, ghost before: seq<Event>)
      returns (result: int, ghost events: seq<Event>)
      requires Valid() && i < |list| && peer == list[i] && SoundCipher(cfg.cipher)
      requires peer.alive && peer.stage == Receiving && Sendable(f)
      requires FitsPacket(junk)
      requires Played(cfg, d, before, state, entries, log.entries, list)
      modifies this`state, this`records, this`buffers, peer`stage, peer.routes, peer.routes.records, log
      ensures Valid() && peer.stage == if result < 0 then Ended else Receiving
      ensures (result < 0 <==> f.kind == FRAME_HDR_CLOSE) && events == before + [Deliver(i, f, drawn, junk)]
      ensures fresh(peer.routes.records - old(peer.routes.records))
      ensures Played(cfg, d, events, state, entries, log.entries, list)
    {
      hide Linked;
      hide Shown;
      hide Separate;
      hide Hand;
      hide Played;
      ghost var d', entries', e := state, log.entries, Deliver(i, f, drawn, junk);
      Element(i);
      StageAfter(cfg, d', i, f, junk);
      hide Router.ProcessFrame;
      result := ProcessFrame(cfg, peer, i, f, junk);
      PlaysOn(cfg, d, before, d', e, entries, entries', log.entries, list);
      events := before + [e];
      Element(i);
    }

    /** The end of _peer_connection, once the receiving thread is gone. */
    method EndConnection(cfg: Config, peer: Peer, ghost i: nat)
      requires Valid() && i < |list| && peer == list[i] && peer.alive && peer.stage == Ended
      modifies this`state, peer`alive
      ensures Valid() && !peer.alive
      ensures Enabled(old(state), Reap(i)) && state == Apply(cfg, old(state), Reap(i)).daemon
    {
      hide Linked;
      hide Separate;
      Element(i);
      DistinctPeers();
      peer.alive := false;
      Show(peer, i);
    }

    /** peer_connection and _peer_connection: a connection from its start to its end. */
    method PeerConnection(cfg: Config, isClient: bool, incoming: seq<Frame>, drawn: SessionKey, pads: (nat, nat),
                          junks: seq<Junk>)
      returns (peer: Peer, ghost i: nat, ghost events: seq<Event>)
      requires Valid() && SoundCipher(cfg.cipher) && forall k :: 0 <= k < |incoming| ==> Sendable(incoming[k])
      requires |junks| == |incoming| && forall k :: 0 <= k < |junks| ==> FitsPacket(junks[k])
      modifies this, list, lists, log
      ensures Valid() && i == FirstDead(old(state).slots) && i < |list| && peer == list[i] && !peer.alive
      ensures Played(cfg, old(state), [Accept(isClient)] + events + [Reap(i)], state,
                     old(log.entries), log.entries, list)
      ensures var s := Router.AddPeer(old(state), isClient).slots[i];
              var r := RunAuth(cfg, s, incoming, drawn, pads);
        && peer.authenticated == r.slot.authenticated
        && r.used <= |incoming| && AuthEvents(cfg, s, i, incoming, drawn, pads, ZEROED) <= events
        && FramesTaken(events)
           == incoming[..r.used] + (if peer.authenticated then UpToClose(incoming[r.used..]) else [])
        && (LostLast(events) ==> FramesTaken(events) == incoming)
        && (peer.authenticated ==> (LostLast(events) <==> NoClose(incoming[r.used..])))
      ensures OnlyOf(events, i, drawn) && LostAtMostLast(events)
    {
      hide Linked;
      hide Shown;
      hide Separate;
      hide Hand;
      hide Played;
      hide FirstDead;
      hide RunAuth;
      hide AuthEvents;
      hide OnlyOf;
      hide LostLast;
      hide LostAtMostLast;
      hide FramesTaken;
      ghost var d, entries := state, log.entries;
      peer, i := AddPeer(isClient);
      PlayedAlone(cfg, d, Accept(isClient), entries, list);
      Element(i);
      AddedIsNew(d, isClient);
      ghost var d' := state;
      events := PeerReceive(cfg, peer, i, incoming, drawn, pads, junks);
      PlayedThen(cfg, d, [Accept(isClient)], d', events, state, entries, entries, log.entries, list);
      ghost var d'' := state;
      EndConnection(cfg, peer, i);
      PlayedAlone(cfg, d'', Reap(i), log.entries, list);
      PlayedThen(cfg, d, [Accept(isClient)] + events, d'', [Reap(i)], state, entries, log.entries, log.entries, list);
    }

    /** The receiving thread of a peer leaves its loop. */
    method EndLoop(peer: Peer, ghost i: nat)
      requires Valid() && i < |list| && peer == list[i]
      modifies this`state, peer`stage
      ensures Valid() && state == old(state).(slots := old(state.slots)[i := old(state.slots[i]).(stage := Ended)])
    {
      hide Linked;
      hide Separate;
      Element(i);
      DistinctPeers();
      peer.stage := Ended;
      Show(peer, i);
    }

    /** _broadcast_tuntap_device, reading the given packets one after the other. The route
        record and the buffer live across iterations. */
    method BroadcastTuntapDevice(cfg: Config, packets: seq<Packet>, junk: Junk)
      requires Valid() && |junk.buf| == FRAME_PAYLOAD_MAXSIZE
      requires forall k :: 0 <= k < |packets| ==> 0 < |packets[k]| <= FRAME_PAYLOAD_MAXSIZE
      modifies this`state, this`records, this`buffers, localRoutes, localRoutes.records, log
      ensures Valid()
      ensures var st := TunLoop(cfg, old(state), packets, junk.(route := RawRoute(false, false, junk.route.addr)));
              state == st.daemon && log.entries == old(log.entries) + Hand(list, st.outs)
    {
      hide Linked;
      hide Shown;
      hide Separate;
      hide TunLoop;
      hide Hand;
      var route := ClearedRecord(junk.route);
      ReadAll(cfg, packets, route, junk.buf);
    }

    /** The loop itself. */
    method ReadAll(cfg: Config, packets: seq<Packet>, route: Netroute, junk: Buffer)
      requires Valid() && |junk| == FRAME_PAYLOAD_MAXSIZE
      requires forall k :: 0 <= k < |packets| ==> 0 < |packets[k]| <= FRAME_PAYLOAD_MAXSIZE
      requires route.HasBuffer() && route !in records && route.addr !in buffers
      modifies this`state, this`records, this`buffers, localRoutes, localRoutes.records, log, route, route.addr
      ensures Valid()
      ensures var st := TunLoop(cfg, old(state), packets, Junk(old(route.Value()), junk));
              state == st.daemon && log.entries == old(log.entries) + Hand(list, st.outs)
    {
      hide Linked;
      hide Shown;
      hide Separate;
      hide TunLoop;
      hide Hand;
      ghost var all := TunLoop(cfg, state, packets, Junk(route.Value(), junk));
      ghost var target := log.entries + Hand(list, all.outs);
      var n, before := 0, junk;
      while n < |packets|
        invariant n <= |packets| && |before| == FRAME_PAYLOAD_MAXSIZE
        invariant Valid() && route.HasBuffer() && route !in records && route.addr !in buffers
        invariant fresh(localRoutes.records - old(localRoutes.records))
        invariant var rest := TunLoop(cfg, state, packets[n..], Junk(route.Value(), before));
          target == log.entries + Hand(list, rest.outs) && all.daemon == rest.daemon
      {
        assert packets[n..][1..] == packets[n + 1..];
        before := TunRound(cfg, packets[n], route, before, packets[n..]);
        n := n + 1;
      }
      assert packets[n..] == [];
      TunLoopEnds(list, cfg, state, Junk(route.Value(), before));
      assert target == log.entries + [];
    }

    /** One iteration, as a step of the loop function; `left` are the packets still to be read. */
    method TunRound(cfg: Config, packet: Packet, route: Netroute, before: Buffer, ghost left: seq<Packet>)
      returns (after: Buffer)
      requires Valid() && route.HasBuffer() && |packet| <= |before|
      requires route !in records && route.addr !in buffers
      requires left != [] && packet == left[0]
      modifies this`state, this`records, this`buffers, localRoutes, localRoutes.records, log, route, route.addr
      ensures Valid() && |after| == |before|
      ensures route !in records && route.addr !in buffers
      ensures fresh(localRoutes.records - old(localRoutes.records))
      ensures var all := TunLoop(cfg, old(state), left, Junk(old(route.Value()), before));
              var rest := TunLoop(cfg, state, left[1..], Junk(route.Value(), after));
        && all.daemon == rest.daemon
        && old(log.entries) + Hand(list, all.outs) == log.entries + Hand(list, rest.outs)
    {
      hide TunLoop;
      hide TunRead;
      hide JunkAfter;
      hide Hand;
      hide Linked;
      hide Shown;
      hide Separate;
      ghost var d, entries, j := state, log.entries, Junk(route.Value(), before);
      after := TunIteration(cfg, packet, route, before);
      HandTunLoop(list, entries, cfg, d, left, j);
    }

    /** One iteration of the loop. */
    method TunIteration(cfg: Config, packet: Packet, route: Netroute, before: Buffer) returns (after: Buffer)
      requires Valid() && route.HasBuffer() && |packet| <= |before|
      requires route !in records && route.addr !in buffers
      modifies this`state, this`records, this`buffers, localRoutes, localRoutes.records, log, route, route.addr
      ensures Valid() && |after| == |before|
      ensures route !in records && route.addr !in buffers
      ensures fresh(localRoutes.records - old(localRoutes.records))
      ensures Junk(route.Value(), after) == JunkAfter(cfg, packet, Junk(old(route.Value()), before))
      ensures var st := TunRead(cfg, old(state), packet, Junk(old(route.Value()), before));
              state == st.daemon && log.entries == old(log.entries) + Hand(list, st.outs)
    {
      hide ParseAddr;
      hide InRoutes;
      hide Owner;
      hide Broadcast;
      hide SendTo;
      hide Hand;
      hide Linked;
      hide Shown;
      hide Separate;
      Sizes();
      var buf := FillBuffer(packet, before);
      after := buf[..];
      ParsePacketAddr(cfg.host, buf, route, true);
      LearnLocal(route);
      ParsePacketAddr(cfg.host, buf, route, false);
      SendOut(cfg, packet, route);
    }

    /** Send to the owner of the destination, or to everyone. */
    method SendOut(cfg: Config, packet: Packet, route: Netroute)
      requires Valid() && route.HasBuffer()
      modifies log
      ensures log.entries == old(log.entries) +
        Hand(list, var o := Owner(state, route.Value());
                   if o.Some? then SendTo(cfg, state.slots, o.value, packet) else Broadcast(cfg, state, packet, None))
    {
      hide Owner;
      hide Broadcast;
      hide SendTo;
      hide Hand;
      hide Linked;
      hide Shown;
      hide Separate;
      Sizes();
      OwnerIsElement(route.Value());
      var target := GetPeerRoute(route);
      if target != null {
        SendDataToPeer(cfg, FRAME_HDR_NETPACKET, packet, true, target, Owner(state, route.Value()).value);
      } else {
        BroadcastDataToPeers(cfg, packet, null, None);
      }
    }

    /** Add the route to the local routes, unless it is among them. */
    method LearnLocal(route: Netroute)
      requires Valid() && route.HasBuffer()
      modifies this`state, this`records, this`buffers, localRoutes, localRoutes.records
      ensures Valid()
      ensures state == if InRoutes(old(route.Value()), old(state).local) then old(state)
                       else old(state).(local := old(state).local + [old(route.Value())])
      ensures fresh(records - old(records)) && fresh(buffers - old(buffers))
      ensures fresh(localRoutes.records - old(localRoutes.records))
    {
      hide InRoutes;
      hide Linked;
      hide Shown;
      hide Separate;
      hide RouteList.Valid;
      var local := IsLocalRoute(route);
      if !local {
        AddLocalRoute(route);
      }
    }

    /** add_netroute on the local routes. */
    method AddLocalRoute(route: Netroute)
      requires Valid() && route.HasBuffer()
      modifies this`state, this`records, this`buffers, localRoutes, localRoutes.records
      ensures Valid() && state == old(state).(local := old(state).local + [old(route.Value())])
      ensures fresh(records - old(records)) && fresh(buffers - old(buffers))
      ensures fresh(localRoutes.records - old(localRoutes.records))
    {
      hide Linked;
      hide Separate;
      hide RouteList.Valid;
      Sizes();
      DistinctLists(lists, records, buffers);
      ghost var added := AddToOne(lists, records, buffers, localRoutes, 0, route);
      records, buffers := records + {added}, buffers + {added.addr};
      state := state.(local := localRoutes.contents);
    }
  }

  /** A record whose flags are cleared and whose address is whatever memory held. */
  method ClearedRecord(content: Route) returns (route: Netroute)
    ensures fresh(route) && fresh(route.addr) && route.HasBuffer()
    ensures route.Value() == RawRoute(false, false, content.addr)
  {
    route := new Netroute.Uninitialised(content);
    route.mac := false;
    route.ip4 := false;
  }

  method FillBuffer(packet: Packet, before: Buffer) returns (buf: array<byte>)
    requires |packet| <= |before|
    ensures fresh(buf) && buf[..] == InBuffer(packet, before) && buf.Length == |before|
  {
    buf := new byte[|before|](k requires 0 <= k < |before| => before[k]);
    forall k | 0 <= k < |packet| {
      buf[k] := packet[k];
    }
    assert forall k :: 0 <= k < |before| ==> buf[..][k] == InBuffer(packet, before)[k];
  }

  lemma HandTunLoop(list: seq<Peer>, entries: seq<Handed>, cfg: Config, d: Daemon, packets: seq<Packet>, junk: Junk)
    requires packets != []
    ensures var st := TunRead(cfg, d, packets[0], junk);
            var rest := TunLoop(cfg, st.daemon, packets[1..], JunkAfter(cfg, packets[0], junk));
            var all := TunLoop(cfg, d, packets, junk);
      && all.daemon == rest.daemon
      && entries + Hand(list, all.outs) == (entries + Hand(list, st.outs)) + Hand(list, rest.outs)
  {
    hide TunRead;
    hide JunkAfter;
    var st := TunRead(cfg, d, packets[0], junk);
    var rest := TunLoop(cfg, st.daemon, packets[1..], JunkAfter(cfg, packets[0], junk));
    HandAppend(list, st.outs, rest.outs);
    Regroup(entries, Hand(list, st.outs), Hand(list, rest.outs));
  }

  lemma TunLoopEnds(list: seq<Peer>, cfg: Config, d: Daemon, junk: Junk)
    ensures TunLoop(cfg, d, [], junk).daemon == d && Hand(list, TunLoop(cfg, d, [], junk).outs) == []
  {
  }

  /** Memory as process_netpacket finds it. */
  predicate FitsPacket(junk: Junk) {
    |junk.buf| == FRAME_PAYLOAD_MAXSIZE + AES_BLOCK_SIZE
  }

  /** One round of the loop, or its end, in its events. */
  lemma LoopRound(i: nat, frames: seq<Frame>, drawn: SessionKey, junks: seq<Junk>, n: nat, before: seq<Event>)
    requires |junks| == |frames| && n <= |frames|
    ensures var left := before + LoopEvents(i, frames[n..], drawn, junks[n..]);
      if n == |frames| then left == before + [Lost(i)]
      else
        var after := before + [Deliver(i, frames[n], drawn, junks[n])];
        left == if frames[n].kind == FRAME_HDR_CLOSE then after
                else after + LoopEvents(i, frames[n + 1..], drawn, junks[n + 1..])
  {
    if n < |frames| {
      assert frames[n..][1..] == frames[n + 1..] && junks[n..][1..] == junks[n + 1..];
      var e := [Deliver(i, frames[n], drawn, junks[n])];
      assert e + [] == e;
      Regroup(before, e, LoopEvents(i, frames[n + 1..], drawn, junks[n + 1..]));
    }
  }

  /** What authentication and loop take together. */
  lemma ReceiveTakes(i: nat, incoming: seq<Frame>, used: nat, drawn: SessionKey, junks: seq<Junk>, before: seq<Event>)
    requires used <= |incoming| == |junks| && FramesTaken(before) == incoming[..used]
    requires OnlyOf(before, i, drawn) && LostAtMostLast(before) && !LostLast(before)
    ensures var events := before + LoopEvents(i, incoming[used..], drawn, junks[used..]);
      && OnlyOf(events, i, drawn) && LostAtMostLast(events)
      && FramesTaken(events) == incoming[..used] + UpToClose(incoming[used..])
      && (LostLast(events) <==> NoClose(incoming[used..]))
      && (LostLast(events) ==> FramesTaken(events) == incoming)
  {
    var more := LoopEvents(i, incoming[used..], drawn, junks[used..]);
    LoopTakes(i, incoming[used..], drawn, junks[used..]);
    assert more != [];
    FramesTakenAppend(before, more);
    var events := before + more;
    forall k | 0 <= k < |events| ensures events[k] == if k < |before| then before[k] else more[k - |before|] {
    }
    if NoClose(incoming[used..]) {
      UpToFirstClose(incoming[used..], Frame(0, []), []);
      assert incoming[..used] + incoming[used..] == incoming;
    }
  }

  lemma AddedIsNew(d: Daemon, isClient: bool)
    ensures var i := FirstDead(d.slots);
            var d' := Router.AddPeer(d, isClient);
      && i < |d'.slots| && d'.slots[i].alive && !d'.slots[i].authenticated && d'.slots[i].stage == SendPub
  {
  }

  lemma FirstDeadIs(slots: seq<Slot>, i: nat)
    requires i <= |slots| && (forall j :: 0 <= j < i ==> slots[j].alive) && (i < |slots| ==> !slots[i].alive)
    ensures FirstDead(slots) == i
  {
  }

  lemma NothingLeft(list: seq<Peer>, cfg: Config, slots: seq<Slot>, data: Packet, e: Option<nat>)
    ensures Hand(list, BroadcastFrom(cfg, slots, data, e, |slots|)) == []
  {
  }
}
