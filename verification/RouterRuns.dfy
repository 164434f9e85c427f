/** What holds in every reachable state of one daemon, whatever its peers send: any history of
    connections, failed handshakes, disconnections, recycled peer elements and packets. */
module RouterRuns {
  import opened Protocol
  import opened Framing
  import opened Cipher
  import opened Routes
  import opened PacketHeader
  import opened Router
  import opened Wrappers

  ghost predicate Next(cfg: Config, d: Daemon, d': Daemon) {
    exists e :: Enabled(d, e) && d' == Apply(cfg, d, e).daemon
  }

  ghost predicate IsRun(cfg: Config, run: seq<Daemon>) {
    && run != [] && run[0] == INITIAL_DAEMON
    && forall i | 0 <= i < |run| - 1 :: Next(cfg, run[i], run[i + 1])
  }

  // ---------------------------------------------------------------- peer elements

  /** The stored public key passed the trust check in the current connection. */
  predicate Vetted(cfg: Config, s: Slot) {
    s.pubkey.Some? && s.pubkey.value.value in cfg.trusted && s.pubkey.value.epoch == s.epoch
  }

  /** Both cipher contexts were made from one key and IV in the current connection. */
  predicate Keyed(s: Slot) {
    s.encCtx.Some? && s.encCtx.value.epoch == s.epoch && s.decCtx == s.encCtx
  }

  predicate AfterTrustCheck(stage: Stage) {
    stage.SendKey? || stage.SendIv? || stage.AwaitKey? || stage.AwaitIv? || stage.Install?
  }

  predicate SlotInv(cfg: Config, s: Slot) {
    && (!s.alive ==> s.stage.Ended?)
    && (s.stage.Receiving? ==> s.authenticated)
    && (s.authenticated ==> (s.stage.Receiving? || s.stage.Ended?) && Vetted(cfg, s) && Keyed(s))
    && (!s.authenticated ==> s.routes == [] && s.encCtx == None)
    && (AfterTrustCheck(s.stage) ==> Vetted(cfg, s))
  }

  ghost predicate SlotsInv(cfg: Config, d: Daemon) {
    forall i :: 0 <= i < |d.slots| ==> SlotInv(cfg, d.slots[i])
  }

  /** Each list is free of duplicates, and no route is in the lists of two alive peers. */
  ghost predicate RoutesInv(d: Daemon) {
    && NoDuplicates(d.local)
    && (forall i :: 0 <= i < |d.slots| ==> NoDuplicates(d.slots[i].routes))
    && (forall i, j :: 0 <= i < j < |d.slots| && d.slots[i].alive && d.slots[j].alive ==>
          Disjoint(d.slots[i].routes, d.slots[j].routes))
  }

  ghost predicate Inv(cfg: Config, d: Daemon) {
    SlotsInv(cfg, d) && RoutesInv(d)
  }

  lemma ActKeeps(cfg: Config, s: Slot, seed: nat)
    requires SlotInv(cfg, s) && CanAct(s)
    ensures var s' := Act(cfg, s, seed).slot;
            SlotInv(cfg, s') && s'.alive && s'.epoch == s.epoch && s'.routes == s.routes
  {
    hide RsaEncrypt;
  }

  lemma AuthenticateKeeps(cfg: Config, s: Slot, f: Frame, drawn: SessionKey)
    requires SlotInv(cfg, s) && Awaiting(s)
    ensures var s' := Authenticate(cfg, s, f, drawn);
            SlotInv(cfg, s') && s'.alive && s'.epoch == s.epoch && s'.routes == s.routes && !s'.authenticated
  {
    hide Received;
  }

  /** A received frame can end the loop or add one route; nothing else changes. */
  lemma ProcessFrameEffect(cfg: Config, d: Daemon, i: nat, f: Frame, junk: Junk)
    requires i < |d.slots|
    ensures var d' := ProcessFrame(cfg, d, i, f, junk).daemon;
      || d' == d
      || d' == d.(slots := d.slots[i := d.slots[i].(stage := Ended)])
      || (d.slots[i].authenticated &&
          exists src :: Owner(d, src).None? &&
            d' == d.(slots := d.slots[i := d.slots[i].(routes := d.slots[i].routes + [src])]))
  {
    hide ParseAddr;
    hide InRoutes;
    hide Owner;
    hide AesDecrypt;
    hide Broadcast;
  }

  lemma StepSlots(cfg: Config, d: Daemon, e: Event)
    requires SlotsInv(cfg, d) && Enabled(d, e)
    ensures SlotsInv(cfg, Apply(cfg, d, e).daemon)
  {
    hide Act;
    hide Authenticate;
    hide ProcessFrame;
    hide TunRead;
    match e
    case Deliver(i, f, drawn, junk) =>
      assert SlotInv(cfg, d.slots[i]);
      if d.slots[i].stage.Receiving? {
        ProcessFrameEffect(cfg, d, i, f, junk);
      } else {
        AuthenticateKeeps(cfg, d.slots[i], f, drawn);
      }
    case Acts(i, seed) =>
      assert SlotInv(cfg, d.slots[i]);
      ActKeeps(cfg, d.slots[i], seed);
    case Lost(i) => assert SlotInv(cfg, d.slots[i]);
    case Reap(i) => assert SlotInv(cfg, d.slots[i]);
    case Accept(isClient) =>
      var i := FirstDead(d.slots);
      if i < |d.slots| { assert SlotInv(cfg, d.slots[i]); }
    case Tun(packet, junk) => TunReadCarries(cfg, d, packet, junk);
  }

  lemma LearnKeepsRoutes(d: Daemon, i: nat, src: Route)
    requires RoutesInv(d) && i < |d.slots| && d.slots[i].alive && Owner(d, src).None?
    ensures RoutesInv(d.(slots := d.slots[i := d.slots[i].(routes := d.slots[i].routes + [src])]))
  {
    forall j, k | 0 <= j < |d.slots| && d.slots[j].alive && 0 <= k < |d.slots[j].routes|
      ensures !SameRoute(src, d.slots[j].routes[k]) && !SameRoute(d.slots[j].routes[k], src)
    {
      assert !Owns(d.slots[j], src);
    }
  }

  lemma StepRoutes(cfg: Config, d: Daemon, e: Event)
    requires Inv(cfg, d) && Enabled(d, e)
    ensures RoutesInv(Apply(cfg, d, e).daemon)
  {
    hide Act;
    hide Authenticate;
    hide ProcessFrame;
    match e
    case Deliver(i, f, drawn, junk) =>
      assert SlotInv(cfg, d.slots[i]);
      if d.slots[i].stage.Receiving? {
        ProcessFrameKeepsRoutes(cfg, d, i, f, junk);
      } else {
        AuthenticateKeeps(cfg, d.slots[i], f, drawn);
      }
    case Acts(i, seed) =>
      assert SlotInv(cfg, d.slots[i]);
      ActKeeps(cfg, d.slots[i], seed);
    case Tun(packet, junk) => TunKeepsRoutes(cfg, d, packet, junk);
    case _ =>
  }

  lemma TunKeepsRoutes(cfg: Config, d: Daemon, packet: Packet, junk: Junk)
    requires RoutesInv(d)
    ensures RoutesInv(TunRead(cfg, d, packet, junk).daemon)
  {
    hide ParseAddr;
    hide InRoutes;
    var src := ParseAddr(cfg.host, InBuffer(packet, junk.buf), junk.route, true);
    if !InRoutes(src, d.local) { LocalStaysDistinct(d.local, src); }
  }

  lemma ProcessFrameKeepsRoutes(cfg: Config, d: Daemon, i: nat, f: Frame, junk: Junk)
    requires RoutesInv(d) && i < |d.slots| && d.slots[i].alive
    ensures RoutesInv(ProcessFrame(cfg, d, i, f, junk).daemon)
  {
    hide Owner;
    ProcessFrameEffect(cfg, d, i, f, junk);
    var d' := ProcessFrame(cfg, d, i, f, junk).daemon;
    hide ProcessFrame;
    if d' != d && d' != d.(slots := d.slots[i := d.slots[i].(stage := Ended)]) {
      var src :| Owner(d, src).None? &&
        d' == d.(slots := d.slots[i := d.slots[i].(routes := d.slots[i].routes + [src])]);
      LearnKeepsRoutes(d, i, src);
    }
  }

  lemma LocalStaysDistinct(rs: seq<Route>, r: Route)
    requires NoDuplicates(rs) && !InRoutes(r, rs)
    ensures NoDuplicates(rs + [r])
  {
    forall i | 0 <= i < |rs| ensures !SameRoute(rs[i], r) {
      assert !SameRoute(r, rs[i]);
    }
  }

  lemma {:induction false} RunInv(cfg: Config, run: seq<Daemon>, i: nat)
    requires IsRun(cfg, run) && i < |run|
    ensures Inv(cfg, run[i])
  {
    hide SlotsInv;
    hide RoutesInv;
    hide Enabled;
    hide Apply;
    if i == 0 {
      InitialInv(cfg);
    } else {
      RunInv(cfg, run, i - 1);
      assert Next(cfg, run[i - 1], run[i - 1 + 1]);
      var e :| Enabled(run[i - 1], e) && run[i] == Apply(cfg, run[i - 1], e).daemon;
      StepSlots(cfg, run[i - 1], e);
      StepRoutes(cfg, run[i - 1], e);
    }
  }

  /** The daemon is in some run. */
  ghost predicate Reached(cfg: Config, d: Daemon) {
    exists run :: IsRun(cfg, run) && run[|run| - 1] == d
  }

  /** Events played in a reachable state lead to a reachable state, so everything proved of runs
      holds there. */
  lemma {:induction false} PlayedIsReached(cfg: Config, d: Daemon, events: seq<Event>)
    requires Reached(cfg, d) && Playable(cfg, d, events)
    ensures Reached(cfg, Play(cfg, d, events).daemon) && Inv(cfg, Play(cfg, d, events).daemon)
    decreases |events|
  {
    hide Enabled;
    hide Apply;
    hide Inv;
    if events == [] {
      var run :| IsRun(cfg, run) && run[|run| - 1] == d;
      RunInv(cfg, run, |run| - 1);
    } else {
      ReachedNext(cfg, d, events[0]);
      PlayedIsReached(cfg, Apply(cfg, d, events[0]).daemon, events[1..]);
    }
  }

  /** The reads of the tun loop as events, each with the record and the buffer that it finds. */
  function TunEvents(cfg: Config, packets: seq<Packet>, junk: Junk): seq<Event>
    decreases |packets|
  {
    if packets == [] then []
    else [Tun(packets[0], junk)] + TunEvents(cfg, packets[1..], JunkAfter(cfg, packets[0], junk))
  }

  /** The reading loop is one tun/tap read for each packet, in order, and nothing else. */
  lemma {:induction false} TunLoopIsPlayed(cfg: Config, d: Daemon, packets: seq<Packet>, junk: Junk)
    requires forall k :: 0 <= k < |packets| ==> 0 < |packets[k]| <= 2048
    ensures var events := TunEvents(cfg, packets, junk);
      && |events| == |packets|
      && (forall k :: 0 <= k < |events| ==> events[k].Tun? && events[k].packet == packets[k])
      && Playable(cfg, d, events) && Play(cfg, d, events) == TunLoop(cfg, d, packets, junk)
    decreases |packets|
  {
    hide TunRead;
    hide JunkAfter;
    if packets != [] {
      var junk' := JunkAfter(cfg, packets[0], junk);
      var d' := TunRead(cfg, d, packets[0], junk).daemon;
      TunLoopIsPlayed(cfg, d', packets[1..], junk');
      PlayFirst(cfg, d, Tun(packets[0], junk), TunEvents(cfg, packets[1..], junk'));
    }
  }

  lemma ReachedNext(cfg: Config, d: Daemon, e: Event)
    requires Reached(cfg, d) && Enabled(d, e)
    ensures Reached(cfg, Apply(cfg, d, e).daemon)
  {
    hide Enabled;
    hide Apply;
    var run :| IsRun(cfg, run) && run[|run| - 1] == d;
    var longer := run + [Apply(cfg, d, e).daemon];
    forall i | 0 <= i < |longer| - 1 ensures Next(cfg, longer[i], longer[i + 1]) {
      assert i < |run| - 1 ==> Next(cfg, run[i], run[i + 1]);
    }
    assert IsRun(cfg, longer);
  }

  lemma InitialInv(cfg: Config)
    ensures Inv(cfg, INITIAL_DAEMON)
  {
  }

  // ---------------------------------------------------------------- authentication

  /** In every reachable state an authenticated peer has a public key that passed the trust
      check in the current connection, and both of its cipher contexts were made from one key
      and IV in the current connection. */
  lemma AuthenticatedMeansVettedAndKeyed(cfg: Config, run: seq<Daemon>, i: nat, j: nat)
    requires IsRun(cfg, run) && i < |run| && j < |run[i].slots| && run[i].slots[j].authenticated
    ensures Vetted(cfg, run[i].slots[j]) && Keyed(run[i].slots[j])
  {
    RunInv(cfg, run, i);
    assert SlotInv(cfg, run[i].slots[j]);
  }

  predicate RightSizes(k: SessionKey) {
    |k.key| == 32 && |k.iv| == 16
  }

  /** What a client holds of a session key has the right sizes; what a server holds has them if all keys
      it draws do. */
  predicate SizesInv(s: Slot, drawsWell: bool) {
    && (s.stage.AwaitKey? || s.stage.AwaitIv? ==> s.isClient)
    && (s.stage.SendKey? || s.stage.SendIv? ==> !s.isClient)
    && (s.stage.AwaitIv? ==> |s.stage.key| == 32)
    && (s.isClient || drawsWell ==>
          && (s.stage.SendKey? || s.stage.SendIv? || s.stage.Install? ==> RightSizes(s.stage.session))
          && (s.authenticated && s.encCtx.Some? ==> RightSizes(s.encCtx.value.value)))
  }

  /** Every key that is drawn in the run can have the right sizes. */
  ghost predicate DrawsWell(cfg: Config, run: seq<Daemon>) {
    forall i {:trigger run[i]} :: 0 <= i < |run| - 1 ==> StepDrawsWell(cfg, run[i], run[i + 1])
  }

  ghost predicate StepDrawsWell(cfg: Config, d: Daemon, d': Daemon) {
    exists e :: Enabled(d, e) && d' == Apply(cfg, d, e).daemon && (e.Deliver? ==> RightSizes(e.drawn))
  }

  lemma ActSizes(cfg: Config, s: Slot, seed: nat, drawsWell: bool)
    requires CanAct(s) && SizesInv(s, drawsWell)
    ensures SizesInv(Act(cfg, s, seed).slot, drawsWell)
  {
    hide RsaEncrypt;
  }

  lemma AuthenticateSizes(cfg: Config, s: Slot, f: Frame, drawn: SessionKey, drawsWell: bool)
    requires Awaiting(s) && SizesInv(s, drawsWell) && (drawsWell ==> RightSizes(drawn))
    ensures SizesInv(Authenticate(cfg, s, f, drawn), drawsWell)
  {
    hide RsaDecrypt;
  }

  lemma StepSizes(cfg: Config, d: Daemon, e: Event, drawsWell: bool)
    requires Enabled(d, e) && forall p :: 0 <= p < |d.slots| ==> SizesInv(d.slots[p], drawsWell)
    requires drawsWell && e.Deliver? ==> RightSizes(e.drawn)
    ensures var d' := Apply(cfg, d, e).daemon; forall p :: 0 <= p < |d'.slots| ==> SizesInv(d'.slots[p], drawsWell)
  {
    hide Act;
    hide Authenticate;
    hide ProcessFrame;
    hide TunRead;
    hide RightSizes;
    match e
    case Deliver(i, f, drawn, junk) =>
      assert SizesInv(d.slots[i], drawsWell);
      if d.slots[i].stage.Receiving? {
        ProcessFrameEffect(cfg, d, i, f, junk);
      } else {
        AuthenticateSizes(cfg, d.slots[i], f, drawn, drawsWell);
      }
    case Acts(i, seed) =>
      assert SizesInv(d.slots[i], drawsWell);
      ActSizes(cfg, d.slots[i], seed, drawsWell);
    case Lost(i) => assert SizesInv(d.slots[i], drawsWell);
    case Reap(i) => assert SizesInv(d.slots[i], drawsWell);
    case Accept(isClient) =>
    case Tun(packet, junk) => TunReadCarries(cfg, d, packet, junk);
  }

  lemma {:induction false} RunSizes(cfg: Config, run: seq<Daemon>, i: nat, p: nat, drawsWell: bool)
    requires IsRun(cfg, run) && i < |run| && p < |run[i].slots| && (drawsWell ==> DrawsWell(cfg, run))
    ensures SizesInv(run[i].slots[p], drawsWell)
  {
    hide SizesInv;
    hide Enabled;
    hide Apply;
    hide RightSizes;
    if i > 0 {
      var d := run[i - 1];
      forall q | 0 <= q < |d.slots| ensures SizesInv(d.slots[q], drawsWell) {
        RunSizes(cfg, run, i - 1, q, drawsWell);
      }
      assert Next(cfg, d, run[i - 1 + 1]);
      var e :| Enabled(d, e) && run[i] == Apply(cfg, d, e).daemon;
      if drawsWell {
        assert StepDrawsWell(cfg, d, run[i - 1 + 1]);
        e :| Enabled(d, e) && run[i] == Apply(cfg, d, e).daemon && (e.Deliver? ==> RightSizes(e.drawn));
      }
      StepSizes(cfg, d, e, drawsWell);
    }
  }

  /** In every reachable state, whatever the peers send, an authenticated client encrypts and decrypts with
      a key of 32 bytes and an IV of 16; so does an authenticated server, if it draws such keys. */
  lemma SessionKeysHaveRightSizes(cfg: Config, run: seq<Daemon>, i: nat, p: nat)
    requires IsRun(cfg, run) && i < |run| && p < |run[i].slots| && run[i].slots[p].authenticated
    requires run[i].slots[p].isClient || DrawsWell(cfg, run)
    ensures var s := run[i].slots[p];
      && s.encCtx.Some? && |s.encCtx.value.value.key| == 32 && |s.encCtx.value.value.iv| == 16
      && s.decCtx == s.encCtx
  {
    AuthenticatedMeansVettedAndKeyed(cfg, run, i, p);
    RunSizes(cfg, run, i, p, !run[i].slots[p].isClient);
  }

  /** How one peer element moves in one step: within a connection its routes and its
      authentication only grow and its decrypt context only appears together with its
      authentication; a new connection starts from scratch but keeps the decrypt context. */
  ghost predicate Evolves(s: Slot, s': Slot) {
    || (&& s'.epoch == s.epoch && s'.frees == s.frees
        && (s'.alive ==> s.alive)
        && s.routes <= s'.routes
        && (s.authenticated ==> s'.authenticated)
        && (s'.decCtx == s.decCtx || s'.authenticated)
        && (s'.authenticated == s.authenticated ==> s'.decCtx == s.decCtx))
    || (!s.alive && s' == SetPeerInfo(s, s'.isClient))
  }

  ghost predicate DaemonEvolves(d: Daemon, d': Daemon) {
    && d.local <= d'.local
    && |d.slots| <= |d'.slots|
    && forall p :: 0 <= p < |d.slots| ==> Evolves(d.slots[p], d'.slots[p])
  }

  lemma StepEvolves(cfg: Config, d: Daemon, e: Event)
    requires SlotsInv(cfg, d) && Enabled(d, e)
    ensures DaemonEvolves(d, Apply(cfg, d, e).daemon)
  {
    hide ProcessFrame;
    hide InRoutes;
    hide ParseAddr;
    hide Received;
    hide RsaEncrypt;
    match e
    case Deliver(i, f, drawn, junk) =>
      assert SlotInv(cfg, d.slots[i]);
      if d.slots[i].stage.Receiving? {
        ProcessFrameEffect(cfg, d, i, f, junk);
      } else {
        AuthenticateKeeps(cfg, d.slots[i], f, drawn);
      }
    case Acts(i, seed) =>
      assert SlotInv(cfg, d.slots[i]);
      ActKeeps(cfg, d.slots[i], seed);
    case Tun(packet, junk) => TunReadCarries(cfg, d, packet, junk);
    case _ =>
  }

  lemma RunStep(cfg: Config, run: seq<Daemon>, i: nat)
    requires IsRun(cfg, run) && i + 1 < |run|
    ensures Inv(cfg, run[i]) && Inv(cfg, run[i + 1]) && DaemonEvolves(run[i], run[i + 1])
    ensures Next(cfg, run[i], run[i + 1])
  {
    RunInv(cfg, run, i);
    RunInv(cfg, run, i + 1);
    var e :| Enabled(run[i], e) && run[i + 1] == Apply(cfg, run[i], e).daemon;
    StepEvolves(cfg, run[i], e);
  }

  /** An element that is not authenticated has a decrypt context exactly when an earlier
      connection of the same element got authenticated: a context alone says nothing about the
      current connection. */
  lemma {:induction false} DecryptContextIsHistory(cfg: Config, run: seq<Daemon>, j: nat, p: nat)
    requires IsRun(cfg, run) && j < |run| && p < |run[j].slots|
    ensures run[j].slots[p].decCtx.Some? <==>
            exists i :: 0 <= i <= j && p < |run[i].slots| && run[i].slots[p].authenticated
  {
    hide IsRun;
    hide Inv;
    DecryptContextStep(cfg, run, j, p);
    if j > 0 && p < |run[j - 1].slots| {
      DecryptContextIsHistory(cfg, run, j - 1, p);
    } else {
      forall i | 0 <= i < j && p < |run[i].slots| ensures false {
        TableGrows(cfg, run, i, j - 1);
      }
    }
  }

  // ---------------------------------------------------------------- what is freed

  /** The decrypt context has been freed, and its address left in place. */
  predicate Freed(s: Slot) {
    s.decCtx.Some? && Decrypting(s.decCtx.value.epoch) in s.frees
  }

  /** Everything freed dates from an earlier connection; so does, and has been freed, the decrypt
      context of an element that is not authenticated. */
  predicate FreesInv(s: Slot) {
    && (forall c :: c in s.frees ==> c.epoch < s.epoch)
    && (s.decCtx.Some? && !s.authenticated ==> Freed(s))
  }

  predicate HasTwice<T(==)>(xs: seq<T>) {
    exists a, b :: 0 <= a < b < |xs| && xs[a] == xs[b]
  }

  /** A step recycles the element. */
  predicate Recycled(s: Slot, s': Slot) {
    s.epoch < s'.epoch
  }

  lemma FreesStep(cfg: Config, s: Slot, s': Slot)
    requires SlotInv(cfg, s) && SlotInv(cfg, s') && Evolves(s, s') && FreesInv(s)
    ensures FreesInv(s')
    ensures HasTwice(s'.frees) <==> HasTwice(s.frees) || (Recycled(s, s') && Freed(s))
  {
    if Recycled(s, s') {
      var now := FreedNow(s);
      assert s'.frees == s.frees + now;
      assert s.decCtx.Some? ==> now[|now| - 1] == Decrypting(s.decCtx.value.epoch);
      TwiceGrows(s.frees, now);
      assert !HasTwice(now);
      assert Freed(s) <==> exists c :: c in s.frees && c in now;
    }
  }

  lemma TwiceGrows<T>(xs: seq<T>, ys: seq<T>)
    ensures HasTwice(xs + ys) <==> HasTwice(xs) || HasTwice(ys) || exists y :: y in xs && y in ys
  {
    var all := xs + ys;
    if HasTwice(xs) {
      var a, b :| 0 <= a < b < |xs| && xs[a] == xs[b];
      assert all[a] == all[b];
    }
    if HasTwice(ys) {
      var a, b :| 0 <= a < b < |ys| && ys[a] == ys[b];
      assert all[|xs| + a] == all[|xs| + b];
    }
    if y :| y in xs && y in ys {
      var a :| 0 <= a < |xs| && xs[a] == y;
      var b :| 0 <= b < |ys| && ys[b] == y;
      assert all[a] == all[|xs| + b];
    }
    if HasTwice(all) {
      var a, b :| 0 <= a < b < |all| && all[a] == all[b];
      if b < |xs| {
        assert xs[a] == xs[b];
      } else if a < |xs| {
        assert xs[a] in xs && ys[b - |xs|] in ys && xs[a] == ys[b - |xs|];
      } else {
        assert ys[a - |xs|] == ys[b - |xs|];
      }
    }
  }

  lemma {:induction false} RunFrees(cfg: Config, run: seq<Daemon>, j: nat, p: nat)
    requires IsRun(cfg, run) && j < |run| && p < |run[j].slots|
    ensures FreesInv(run[j].slots[p])
  {
    hide IsRun;
    hide FreesInv;
    RunStarts(cfg, run);
    if j > 0 {
      if p < |run[j - 1].slots| {
        RunFrees(cfg, run, j - 1, p);
        StepFrees(cfg, run, j - 1, p);
      } else {
        AppendedIsNew(cfg, run, j - 1, p);
        NewHasFreedNothing(run[j].slots[p].isClient);
      }
    }
  }

  lemma NewHasFreedNothing(isClient: bool)
    ensures var s := SetPeerInfo(INITIAL_SLOT, isClient); FreesInv(s) && s.frees == []
  {
  }

  lemma StepFrees(cfg: Config, run: seq<Daemon>, i: nat, p: nat)
    requires IsRun(cfg, run) && i + 1 < |run| && p < |run[i].slots| && FreesInv(run[i].slots[p])
    ensures p < |run[i + 1].slots| && FreesInv(run[i + 1].slots[p])
    ensures var s, s' := run[i].slots[p], run[i + 1].slots[p];
            HasTwice(s'.frees) <==> HasTwice(s.frees) || (Recycled(s, s') && Freed(s))
  {
    hide IsRun;
    hide FreesInv;
    hide HasTwice;
    hide Freed;
    RunStep(cfg, run, i);
    assert SlotInv(cfg, run[i].slots[p]) && SlotInv(cfg, run[i + 1].slots[p]);
    hide SlotInv;
    assert Evolves(run[i].slots[p], run[i + 1].slots[p]);
    hide Evolves;
    FreesStep(cfg, run[i].slots[p], run[i + 1].slots[p]);
  }

  /** The element holds a freed decrypt context exactly when some connection of it got
      authenticated and the latest one did not. So an authenticated peer never decrypts with a
      freed context. */
  lemma FreedIsHistory(cfg: Config, run: seq<Daemon>, j: nat, p: nat)
    requires IsRun(cfg, run) && j < |run| && p < |run[j].slots|
    ensures Freed(run[j].slots[p]) <==> LatestFailed(run, j, p)
  {
    hide IsRun;
    RunFrees(cfg, run, j, p);
    RunInv(cfg, run, j);
    assert SlotInv(cfg, run[j].slots[p]);
    hide Inv;
    DecryptContextIsHistory(cfg, run, j, p);
  }

  /** The element is not authenticated, and has been before. */
  ghost predicate LatestFailed(run: seq<Daemon>, j: nat, p: nat) {
    && j < |run| && p < |run[j].slots| && !run[j].slots[p].authenticated
    && exists i :: 0 <= i < j && p < |run[i].slots| && run[i].slots[p].authenticated
  }

  ghost predicate RecycledAfterFailure(run: seq<Daemon>, i: nat, p: nat) {
    && i + 1 < |run| && p < |run[i].slots| && p < |run[i + 1].slots|
    && Recycled(run[i].slots[p], run[i + 1].slots[p]) && LatestFailed(run, i, p)
  }

  /** Main result on memory: set_peer_info has freed some context of an element twice if and only if
      the element has been recycled when some connection of it had been authenticated and the latest
      one had not. */
  lemma {:induction false} FreedTwiceIff(cfg: Config, run: seq<Daemon>, j: nat, p: nat)
    requires IsRun(cfg, run) && j < |run| && p < |run[j].slots|
    ensures HasTwice(run[j].slots[p].frees) <==> exists i :: 0 <= i < j && RecycledAfterFailure(run, i, p)
  {
    hide IsRun;
    hide HasTwice;
    hide LatestFailed;
    hide Recycled;
    RunStarts(cfg, run);
    if j > 0 && p < |run[j - 1].slots| {
      FreedTwiceIff(cfg, run, j - 1, p);
      RunFrees(cfg, run, j - 1, p);
      StepFrees(cfg, run, j - 1, p);
      FreedIsHistory(cfg, run, j - 1, p);
      assert RecycledAfterFailure(run, j - 1, p)
        <==> Recycled(run[j - 1].slots[p], run[j - 1 + 1].slots[p]) && LatestFailed(run, j - 1, p);
    } else {
      if j > 0 {
        AppendedIsNew(cfg, run, j - 1, p);
        NewHasFreedNothing(run[j].slots[p].isClient);
        assert run[j].slots[p].frees == [];
      }
      NothingTwice<Context>();
      forall i | 0 <= i < j && RecycledAfterFailure(run, i, p) ensures false {
        TableGrows(cfg, run, i, j - 1);
      }
    }
  }

  lemma NothingTwice<T>()
    ensures !HasTwice<T>([])
  {
  }

  // ---------------------------------------------------------------- a run in which it happens

  /** A server that trusts one key. */
  const TRUSTING := Config(Host(true, true), IDENTITY_CIPHER, PLAIN_RSA, 0, {1})

  const HELLO := Frame(FRAME_HDR_AUTH, [1])
  const DRAWN := SessionKey(seq(AES_KEY_SIZE, _ => 0), seq(AES_IV_SIZE, _ => 0))

  lemma Extend(run: seq<Daemon>, s: Slot, e: Event, s': Slot) returns (longer: seq<Daemon>)
    requires IsRun(TRUSTING, run) && run[|run| - 1] == Daemon([s], [])
    requires Enabled(Daemon([s], []), e) && Apply(TRUSTING, Daemon([s], []), e).daemon == Daemon([s'], [])
    ensures IsRun(TRUSTING, longer) && longer == run + [Daemon([s'], [])]
  {
    hide Apply;
    hide Enabled;
    longer := run + [Daemon([s'], [])];
    forall i | 0 <= i < |longer| - 1 ensures Next(TRUSTING, longer[i], longer[i + 1]) {
      assert i < |run| - 1 ==> Next(TRUSTING, run[i], run[i + 1]);
    }
  }

  /** The states of the only element: a first connection that gets authenticated, then lost ... */
  const FIRST := SetPeerInfo(INITIAL_SLOT, false)
  const KNOWN := FIRST.(pubkey := Some(Stamped(1, 1)))
  const UP := KNOWN.(encCtx := Some(Stamped(DRAWN, 1)), decCtx := Some(Stamped(DRAWN, 1)), authenticated := true)

  lemma FirstConnection() returns (run: seq<Daemon>)
    ensures IsRun(TRUSTING, run)
    ensures run[|run| - 1] == Daemon([UP.(stage := Ended, alive := false)], [])
  {
    var first := Apply(TRUSTING, INITIAL_DAEMON, Accept(false)).daemon;
    assert Enabled(INITIAL_DAEMON, Accept(false)) && first == Daemon([FIRST], []);
    run := [INITIAL_DAEMON, first];
    assert Next(TRUSTING, run[0], run[1]);
    run := Extend(run, FIRST, Acts(0, 0), FIRST.(stage := AwaitPub));
    run := Extend(run, FIRST.(stage := AwaitPub), Deliver(0, HELLO, DRAWN, ZEROED), KNOWN.(stage := SendKey(DRAWN)));
    run := Extend(run, KNOWN.(stage := SendKey(DRAWN)), Acts(0, 0), KNOWN.(stage := SendIv(DRAWN)));
    run := Extend(run, KNOWN.(stage := SendIv(DRAWN)), Acts(0, 0), KNOWN.(stage := Install(DRAWN)));
    run := Extend(run, KNOWN.(stage := Install(DRAWN)), Acts(0, 0), UP.(stage := Receiving));
    run := Extend(run, UP.(stage := Receiving), Lost(0), UP.(stage := Ended));
    run := Extend(run, UP.(stage := Ended), Reap(0), UP.(stage := Ended, alive := false));
  }

  /** ... a second one in the same element that is lost before it is authenticated, and a third. */
  lemma DoubleFreeHappens() returns (run: seq<Daemon>)
    ensures IsRun(TRUSTING, run) && |run[|run| - 1].slots| == 1
    ensures run[|run| - 1].slots[0].frees == [Encrypting(1), Decrypting(1), Decrypting(1)]
  {
    run := FirstConnection();
    var dead := UP.(stage := Ended, alive := false);
    var second := SetPeerInfo(dead, false);
    run := Extend(run, dead, Accept(false), second);
    run := Extend(run, second, Acts(0, 0), second.(stage := AwaitPub));
    run := Extend(run, second.(stage := AwaitPub), Lost(0), second.(stage := Ended));
    run := Extend(run, second.(stage := Ended), Reap(0), second.(stage := Ended, alive := false));
    run := Extend(run, second.(stage := Ended, alive := false), Accept(false),
                  SetPeerInfo(second.(stage := Ended, alive := false), false));
  }

  /** In one step an element gets its decrypt context exactly when it is authenticated. */
  lemma DecryptContextStep(cfg: Config, run: seq<Daemon>, j: nat, p: nat)
    requires IsRun(cfg, run) && j < |run| && p < |run[j].slots|
    ensures run[j].slots[p].decCtx.Some? <==>
            || run[j].slots[p].authenticated
            || (j > 0 && p < |run[j - 1].slots| && run[j - 1].slots[p].decCtx.Some?)
  {
    hide IsRun;
    RunStarts(cfg, run);
    AuthenticatedHasContext(cfg, run, j, p);
    if j > 0 {
      RunStep(cfg, run, j - 1);
      if p < |run[j - 1].slots| {
        assert SlotInv(cfg, run[j - 1].slots[p]) && SlotInv(cfg, run[j].slots[p]);
        hide SlotInv;
        assert Evolves(run[j - 1].slots[p], run[j].slots[p]);
        hide Evolves;
        ContextEvolves(cfg, run[j - 1].slots[p], run[j].slots[p]);
      } else {
        hide Inv;
        AppendedIsNew(cfg, run, j - 1, p);
      }
    }
  }

  lemma ContextEvolves(cfg: Config, s: Slot, s': Slot)
    requires SlotInv(cfg, s) && SlotInv(cfg, s') && Evolves(s, s')
    ensures s'.decCtx.Some? <==> s'.authenticated || s.decCtx.Some?
  {
  }

  lemma AuthenticatedHasContext(cfg: Config, run: seq<Daemon>, j: nat, p: nat)
    requires IsRun(cfg, run) && j < |run| && p < |run[j].slots|
    ensures run[j].slots[p].authenticated ==> run[j].slots[p].decCtx.Some?
  {
    RunInv(cfg, run, j);
    assert SlotInv(cfg, run[j].slots[p]);
  }

  lemma RunStarts(cfg: Config, run: seq<Daemon>)
    requires IsRun(cfg, run)
    ensures run != [] && run[0] == INITIAL_DAEMON
  {
  }

  lemma AppendedIsNew(cfg: Config, run: seq<Daemon>, i: nat, p: nat)
    requires IsRun(cfg, run) && i + 1 < |run| && |run[i].slots| <= p < |run[i + 1].slots|
    ensures p == |run[i].slots| && run[i + 1].slots[p] == SetPeerInfo(INITIAL_SLOT, run[i + 1].slots[p].isClient)
    ensures forall q :: 0 <= q < p ==> run[i].slots[q].alive && run[i + 1].slots[q] == run[i].slots[q]
  {
    assert Next(cfg, run[i], run[i + 1]);
    var e :| Enabled(run[i], e) && run[i + 1] == Apply(cfg, run[i], e).daemon;
    if e.Deliver? && run[i].slots[e.i].stage.Receiving? {
      ProcessFrameEffect(cfg, run[i], e.i, e.frame, e.junk);
    }
    hide ProcessFrame;
    if e.Tun? {
      TunReadCarries(cfg, run[i], e.packet, e.junk);
    }
    assert e.Accept?;
  }

  lemma {:induction false} TableGrows(cfg: Config, run: seq<Daemon>, i: nat, j: nat)
    requires IsRun(cfg, run) && i <= j < |run|
    ensures |run[i].slots| <= |run[j].slots|
    decreases j
  {
    hide IsRun;
    hide Inv;
    if i < j {
      TableGrows(cfg, run, i, j - 1);
      RunStep(cfg, run, j - 1);
    }
  }

  // ---------------------------------------------------------------- ownership

  /** At most one alive peer has a route. */
  lemma OwnerIsUnique(d: Daemon, r: Route, k: nat)
    requires RoutesInv(d) && k < |d.slots|
    ensures Owner(d, r) == Some(k) <==> d.slots[k].alive && KeyOf(r) in Keys(d.slots[k].routes)
  {
    InRoutesIsInKeys(r, d.slots[k].routes);
  }

  /** get_peer_route with the list walked in some other order. */
  function ScanInOrder(slots: seq<Slot>, order: seq<nat>, r: Route): Option<nat> {
    if order == [] then None
    else if order[0] < |slots| && Owns(slots[order[0]], r) then Some(order[0])
    else ScanInOrder(slots, order[1..], r)
  }

  lemma {:induction false} ScanFinds(slots: seq<Slot>, order: seq<nat>, r: Route)
    ensures var o := ScanInOrder(slots, order, r);
      && (o.Some? ==> o.value < |slots| && Owns(slots[o.value], r))
      && (o.None? ==> forall k :: k in order && k < |slots| ==> !Owns(slots[k], r))
  {
    if order != [] {
      ScanFinds(slots, order[1..], r);
    }
  }

  /** Main result on lookups: in every reachable state the lookup is the lookup in a map from
      addresses to peers, and the order in which the list is walked does not matter. */
  lemma LookupIsAMap(cfg: Config, run: seq<Daemon>, i: nat, r: Route, order: seq<nat>)
    requires IsRun(cfg, run) && i < |run|
    requires forall k :: 0 <= k < |run[i].slots| ==> k in order
    ensures var d := run[i];
      && (forall k :: 0 <= k < |d.slots| ==>
            (Owner(d, r) == Some(k) <==> d.slots[k].alive && KeyOf(r) in Keys(d.slots[k].routes)))
      && ScanInOrder(d.slots, order, r) == Owner(d, r)
  {
    var d := run[i];
    RunInv(cfg, run, i);
    forall k | 0 <= k < |d.slots|
      ensures Owner(d, r) == Some(k) <==> d.slots[k].alive && KeyOf(r) in Keys(d.slots[k].routes)
      ensures Owns(d.slots[k], r) <==> d.slots[k].alive && KeyOf(r) in Keys(d.slots[k].routes)
    {
      OwnerIsUnique(d, r, k);
      InRoutesIsInKeys(r, d.slots[k].routes);
    }
    ScanFinds(d.slots, order, r);
  }

  /** Delivering a packet for a local destination changes the lookup of at most one address:
      the source, which becomes the sender's if it was no one's. */
  lemma LearningAddsOneOwner(cfg: Config, d: Daemon, i: nat, packet: Packet, junk: Junk, r: Route)
    requires RoutesInv(d) && i < |d.slots| && d.slots[i].alive
    requires InRoutes(ParseAddr(cfg.host, InBuffer(packet, junk.buf), junk.route, false), d.local)
    ensures var buf := InBuffer(packet, junk.buf);
            var src := ParseAddr(cfg.host, buf, ParseAddr(cfg.host, buf, junk.route, false), true);
            var st := RoutePacket(cfg, d, i, packet, junk);
      && st.outs == [ToTun(packet)]
      && Owner(st.daemon, r) == if SameRoute(r, src) && Owner(d, r).None? then Some(i) else Owner(d, r)
  {
    var buf := InBuffer(packet, junk.buf);
    var src := ParseAddr(cfg.host, buf, ParseAddr(cfg.host, buf, junk.route, false), true);
    hide ParseAddr;
    var d' := RoutePacket(cfg, d, i, packet, junk).daemon;
    if Owner(d, src).None? {
      LearnKeepsRoutes(d, i, src);
      InRoutesAppend(r, d.slots[i].routes, src);
      forall k | 0 <= k < |d.slots|
        ensures Owns(d'.slots[k], r) <==> Owns(d.slots[k], r) || (k == i && SameRoute(r, src))
      {
      }
      if SameRoute(r, src) {
        SameOwner(d, r, src);
        assert Owns(d'.slots[i], r);
        InRoutesIsInKeys(r, d'.slots[i].routes);
        OwnerIsUnique(d', r, i);
      }
    } else if SameRoute(r, src) {
      SameOwner(d, r, src);
    }
  }

  lemma SameOwner(d: Daemon, r: Route, q: Route)
    requires SameRoute(r, q)
    ensures Owner(d, r) == Owner(d, q)
  {
    forall k | 0 <= k < |d.slots| ensures Owns(d.slots[k], r) <==> Owns(d.slots[k], q) {
      InRoutesIsInKeys(r, d.slots[k].routes);
      InRoutesIsInKeys(q, d.slots[k].routes);
    }
  }

  lemma StepOfSlot(cfg: Config, run: seq<Daemon>, i: nat, p: nat) returns (s': Slot)
    requires IsRun(cfg, run) && i + 1 < |run| && p < |run[i].slots|
    ensures p < |run[i + 1].slots| && s' == run[i + 1].slots[p]
    ensures var s := run[i].slots[p];
      && s.epoch <= s'.epoch
      && (s'.epoch == s.epoch ==> (s'.alive ==> s.alive) && s.routes <= s'.routes)
      && (s.epoch < s'.epoch ==> StartsConnection(s', s'.epoch))
  {
    hide IsRun;
    RunStep(cfg, run, i);
    hide Inv;
    hide Next;
    s' := run[i + 1].slots[p];
    EvolvesStarts(run[i].slots[p], s');
  }

  lemma EvolvesStarts(s: Slot, s': Slot)
    requires Evolves(s, s')
    ensures s.epoch <= s'.epoch
    ensures s'.epoch == s.epoch ==> (s'.alive ==> s.alive) && s.routes <= s'.routes
    ensures s.epoch < s'.epoch ==> StartsConnection(s', s'.epoch)
  {
  }

  /** From one state to a later one, an element either is still in the same connection, with
      all it had learned, or has started a new connection in between with an empty list. */
  lemma {:induction false} ConnectionHistory(cfg: Config, run: seq<Daemon>, i: nat, j: nat, p: nat)
    requires IsRun(cfg, run) && i <= j < |run| && p < |run[i].slots|
    ensures p < |run[j].slots| && run[i].slots[p].epoch <= run[j].slots[p].epoch
    ensures run[j].slots[p].epoch == run[i].slots[p].epoch ==>
      && (run[j].slots[p].alive ==> run[i].slots[p].alive)
      && run[i].slots[p].routes <= run[j].slots[p].routes
    ensures run[i].slots[p].epoch < run[j].slots[p].epoch ==>
      exists k :: i < k <= j && p < |run[k].slots| && StartsConnection(run[k].slots[p], run[j].slots[p].epoch)
    decreases j
  {
    hide IsRun;
    hide Inv;
    if i < j {
      ConnectionHistory(cfg, run, i, j - 1, p);
      var s := run[j - 1].slots[p];
      var s' := StepOfSlot(cfg, run, j - 1, p);
      hide StartsConnection;
      if s'.epoch > s.epoch {
        assert StartsConnection(run[j].slots[p], s'.epoch);
      }
    }
  }

  predicate StartsConnection(s: Slot, epoch: nat) {
    s.epoch == epoch && s.alive && s.routes == [] && !s.authenticated
  }

  /** Ownership is sticky: as long as the connection of the owner lasts, lookups of the address
      keep returning that peer. */
  lemma OwnershipIsSticky(cfg: Config, run: seq<Daemon>, i: nat, j: nat, p: nat, r: Route)
    requires IsRun(cfg, run) && i <= j < |run| && Owner(run[i], r) == Some(p)
    requires p < |run[j].slots| ==> run[j].slots[p].alive && run[j].slots[p].epoch == run[i].slots[p].epoch
    ensures Owner(run[j], r) == Some(p)
  {
    ConnectionHistory(cfg, run, i, j, p);
    RunInv(cfg, run, j);
    var a :| 0 <= a < |run[i].slots[p].routes| && SameRoute(r, run[i].slots[p].routes[a]);
    assert run[j].slots[p].routes[a] == run[i].slots[p].routes[a];
    assert InRoutes(r, run[j].slots[p].routes);
    InRoutesIsInKeys(r, run[j].slots[p].routes);
    OwnerIsUnique(run[j], r, p);
  }

  /** No connection inherits an address: whatever a later connection of the same element
      owns, it did not own when it started. */
  lemma NothingIsInherited(cfg: Config, run: seq<Daemon>, i: nat, j: nat, p: nat)
    requires IsRun(cfg, run) && i <= j < |run| && p < |run[i].slots| && p < |run[j].slots|
    requires run[i].slots[p].epoch < run[j].slots[p].epoch
    ensures exists k :: i < k <= j && p < |run[k].slots| && run[k].slots[p].epoch == run[j].slots[p].epoch
                        && forall r :: Owner(run[k], r) != Some(p)
  {
    ConnectionHistory(cfg, run, i, j, p);
    var k :| i < k <= j && p < |run[k].slots| && StartsConnection(run[k].slots[p], run[j].slots[p].epoch);
    forall r ensures Owner(run[k], r) != Some(p) {
      assert !Owns(run[k].slots[p], r);
    }
  }

  /** Receiving the frame `f` from peer `p` teaches `r`: the frame holds a packet whose destination is
      local and whose source is `r`, as parsed. */
  predicate Teaches(cfg: Config, d: Daemon, p: nat, f: Frame, junk: Junk, r: Route) {
    && p < |d.slots| && d.slots[p].alive && d.slots[p].authenticated && f.kind == FRAME_HDR_NETPACKET
    && var o := Opened(cfg, d.slots[p], f.payload);
       o.Some? && var buf := InBuffer(o.value, junk.buf);
                  var dst := ParseAddr(cfg.host, buf, junk.route, false);
                  InRoutes(dst, d.local) && r == ParseAddr(cfg.host, buf, dst, true)
  }

  /** Step `i` of the run is the arrival of a frame from peer `p` that teaches `r`. */
  ghost predicate TaughtAt(cfg: Config, run: seq<Daemon>, i: nat, p: nat, r: Route) {
    && i + 1 < |run|
    && exists f, drawn, junk ::
         && Enabled(run[i], Deliver(p, f, drawn, junk)) && Teaches(cfg, run[i], p, f, junk, r)
         && run[i + 1] == Apply(cfg, run[i], Deliver(p, f, drawn, junk)).daemon
  }

  lemma ProcessFrameTeaches(cfg: Config, d: Daemon, i: nat, f: Frame, junk: Junk, p: nat, r: Route)
    requires i < |d.slots| && d.slots[i].alive && p < |d.slots| && r !in d.slots[p].routes
    ensures var d' := ProcessFrame(cfg, d, i, f, junk).daemon;
            p < |d'.slots| && (r in d'.slots[p].routes ==> i == p && Teaches(cfg, d, p, f, junk, r))
  {
    hide ParseAddr;
    hide InRoutes;
    hide Owner;
    hide AesDecrypt;
    hide Broadcast;
  }

  lemma StepTeaches(cfg: Config, d: Daemon, e: Event, p: nat, r: Route)
    requires SlotsInv(cfg, d) && Enabled(d, e) && p < |d.slots| && r !in d.slots[p].routes
    ensures var d' := Apply(cfg, d, e).daemon;
      && p < |d'.slots|
      && (r in d'.slots[p].routes ==> e.Deliver? && e.i == p && Teaches(cfg, d, p, e.frame, e.junk, r))
  {
    hide Act;
    hide Authenticate;
    hide ProcessFrame;
    hide Teaches;
    match e
    case Deliver(i, f, drawn, junk) =>
      assert SlotInv(cfg, d.slots[i]);
      if d.slots[i].stage.Receiving? {
        ProcessFrameTeaches(cfg, d, i, f, junk, p, r);
      } else {
        AuthenticateKeeps(cfg, d.slots[i], f, drawn);
      }
    case Acts(i, seed) =>
      assert SlotInv(cfg, d.slots[i]);
      ActKeeps(cfg, d.slots[i], seed);
    case Tun(packet, junk) => TunReadCarries(cfg, d, packet, junk);
    case _ =>
  }

  /** Main result on learning: every route in the list of a peer came, in the current connection of
      that peer, with a packet that this peer delivered and whose destination was local then. */
  lemma {:induction false} RoutesWereTaught(cfg: Config, run: seq<Daemon>, j: nat, p: nat, r: Route)
    requires IsRun(cfg, run) && j < |run| && p < |run[j].slots| && r in run[j].slots[p].routes
    ensures exists i ::
      && 0 <= i < j && p < |run[i].slots| && run[i].slots[p].epoch == run[j].slots[p].epoch
      && TaughtAt(cfg, run, i, p, r)
  {
    hide SlotsInv;
    hide Teaches;
    RunStarts(cfg, run);
    var i := j - 1;
    RunStep(cfg, run, i);
    if p >= |run[i].slots| {
      AppendedIsNew(cfg, run, i, p);
    } else {
      hide Enabled;
      hide Apply;
      assert Evolves(run[i].slots[p], run[j].slots[p]);
      if r in run[i].slots[p].routes {
        RoutesWereTaught(cfg, run, i, p, r);
      } else {
        var e :| Enabled(run[i], e) && run[i + 1] == Apply(cfg, run[i], e).daemon;
        StepTeaches(cfg, run[i], e, p, r);
        assert TaughtAt(cfg, run, i, p, r);
      }
    }
  }

  /** For a complete packet that means what the packet itself says. */
  lemma TaughtBySource(cfg: Config, d: Daemon, p: nat, f: Frame, junk: Junk, r: Route)
    requires Teaches(cfg, d, p, f, junk, r) && Parseable(cfg.host, Opened(cfg, d.slots[p], f.payload).value)
    ensures var packet := Opened(cfg, d.slots[p], f.payload).value;
            KeyOf(r) == SourceKey(cfg.host, packet) && DestinationKey(cfg.host, packet) in Keys(d.local)
  {
    var packet := Opened(cfg, d.slots[p], f.payload).value;
    var dst := ParseAddr(cfg.host, InBuffer(packet, junk.buf), junk.route, false);
    ParsedKey(cfg.host, packet, junk.buf, junk.route, false);
    ParsedKey(cfg.host, packet, junk.buf, dst, true);
    InRoutesIsInKeys(dst, d.local);
  }

  /** The local routes never contain a duplicate and only grow. */
  lemma {:induction false} LocalRoutesOnlyGrow(cfg: Config, run: seq<Daemon>, i: nat, j: nat)
    requires IsRun(cfg, run) && i <= j < |run|
    ensures NoDuplicates(run[j].local) && run[i].local <= run[j].local
    decreases j
  {
    hide IsRun;
    hide SlotsInv;
    hide Evolves;
    RunInv(cfg, run, j);
    if i < j {
      LocalRoutesOnlyGrow(cfg, run, i, j - 1);
      RunStep(cfg, run, j - 1);
    }
  }

  /** A unicast is never dropped by the authentication check: whoever owns a route gets
      exactly one frame, which it can decrypt, which is not empty, and which it accepts exactly
      when the packet is shorter than the largest payload. */
  lemma UnicastIsSent(cfg: Config, run: seq<Daemon>, i: nat, r: Route, packet: Packet)
    requires IsRun(cfg, run) && i < |run| && Owner(run[i], r).Some? && SoundCipher(cfg.cipher)
    ensures var p := Owner(run[i], r).value;
            var outs := SendTo(cfg, run[i].slots, p, packet);
      && |outs| == 1 && outs[0].ToPeer? && outs[0].slot == p
      && outs[0].frame.kind == FRAME_HDR_NETPACKET && outs[0].frame.payload != []
      && (Sendable(outs[0].frame) <==> |packet| < FRAME_PAYLOAD_MAXSIZE)
      && Opened(cfg, run[i].slots[p], outs[0].frame.payload) == Some(packet)
  {
    var p := Owner(run[i], r).value;
    RunInv(cfg, run, i);
    assert SlotInv(cfg, run[i].slots[p]);
    AesRoundTrip(cfg.cipher, run[i].slots[p].encCtx.value.value, packet);
  }

  // ---------------------------------------------------------------- the size of the list

  function Alive(d: Daemon): set<nat> {
    set p: nat | p < |d.slots| && d.slots[p].alive
  }

  /** The largest number of connections alive at once. */
  function Peak(run: seq<Daemon>): nat {
    if run == [] then 0
    else
      var before, now := Peak(run[..|run| - 1]), |Alive(run[|run| - 1])|;
      if before < now then now else before
  }

  function FirstNats(n: nat): (all: set<nat>)
    ensures |all| == n
    ensures forall p: nat :: p in all <==> p < n
  {
    if n == 0 then {}
    else
      var below := FirstNats(n - 1);
      assert |below + {n - 1}| == |below| + 1;
      below + {n - 1}
  }

  lemma AliveAtMostAll(d: Daemon)
    ensures |Alive(d)| <= |d.slots|
    ensures (forall p :: 0 <= p < |d.slots| ==> d.slots[p].alive) ==> |Alive(d)| == |d.slots|
  {
    SubsetSize(Alive(d), FirstNats(|d.slots|));
    if forall p :: 0 <= p < |d.slots| ==> d.slots[p].alive {
      assert Alive(d) == FirstNats(|d.slots|);
    }
  }

  lemma {:induction false} SubsetSize<T>(a: set<T>, b: set<T>)
    requires a <= b
    ensures |a| <= |b|
  {
    if a != {} {
      var x :| x in a;
      SubsetSize(a - {x}, b - {x});
    }
  }

  /** add_peer makes exactly one more peer alive, hands out a clean element, and leaves every
      other element as it was; the list grows only when no element is dead. */
  lemma AddPeerAddsOne(d: Daemon, isClient: bool)
    ensures var i := FirstDead(d.slots);
            var d' := AddPeer(d, isClient);
      && |Alive(d')| == |Alive(d)| + 1
      && i < |d'.slots| && StartsConnection(d'.slots[i], d'.slots[i].epoch) && d'.slots[i].isClient == isClient
      && d'.slots[i].stage == SendPub && d'.slots[i].pubkey == None && d'.slots[i].encCtx == None
      && d'.slots[i].decCtx == (if i < |d.slots| then d.slots[i].decCtx else None)
      && (forall p :: 0 <= p < i ==> d.slots[p].alive) && (i < |d.slots| ==> !d.slots[i].alive)
      && (forall p :: 0 <= p < |d.slots| && p != i ==> d'.slots[p] == d.slots[p])
      && |d'.slots| == (if i < |d.slots| then |d.slots| else |d.slots| + 1)
      && d'.local == d.local
  {
    assert Alive(AddPeer(d, isClient)) == Alive(d) + {FirstDead(d.slots)};
  }

  /** The list is exactly as long as the largest number of connections alive at once. */
  lemma {:induction false} ListLengthIsPeak(cfg: Config, run: seq<Daemon>, i: nat)
    requires IsRun(cfg, run) && i < |run|
    ensures |run[i].slots| == Peak(run[..i + 1])
  {
    hide Inv;
    hide Evolves;
    var upto := run[..i + 1];
    assert upto[|upto| - 1] == run[i] && upto[..|upto| - 1] == run[..i];
    AliveAtMostAll(run[i]);
    if i == 0 {
      assert Alive(run[0]) == {};
    } else {
      ListLengthIsPeak(cfg, run, i - 1);
      RunStep(cfg, run, i - 1);
      assert run[..i - 1 + 1] == run[..i];
      if |run[i - 1].slots| < |run[i].slots| {
        AppendedIsNew(cfg, run, i - 1, |run[i].slots| - 1);
      }
    }
  }
}
