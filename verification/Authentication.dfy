/** The outcome of authenticate_peer in closed form: what it sends, what it takes and what it leaves
    behind, for every sequence of arriving frames, honest or not. */
module Authentication {
  import opened Protocol
  import opened Framing
  import opened Cipher
  import opened Router
  import opened Wrappers

  /** The first frame each side sends: its public key. */
  function Hello(cfg: Config): Frame {
    Frame(1, cfg.rsa.pem(cfg.own))
  }

  /** The frame is an AUTH frame with something in it. */
  predicate IsAuth(f: Frame) {
    f.kind == 1 && f.payload != []
  }

  /** The key of a frame passes if it loads and is one of the trusted ones. */
  predicate Trusts(cfg: Config, f: Frame) {
    IsAuth(f) && var k := cfg.rsa.load(f.payload); k.Some? && k.value in cfg.trusted
  }

  /** The frame holds a secret of exactly `size` bytes for this daemon. */
  predicate HoldsSecret(cfg: Config, f: Frame, size: nat) {
    && IsAuth(f) && |f.payload| <= cfg.rsa.size(cfg.own)
    && var m := cfg.rsa.open(cfg.own, f.payload); m.Some? && |m.value| == size
  }

  function SecretOf(cfg: Config, f: Frame): seq<byte> {
    var m := cfg.rsa.open(cfg.own, f.payload);
    if m.Some? then m.value else []
  }

  /** The element after its peer's key has arrived, whether it passes or not. */
  function WithKey(cfg: Config, s: Slot, f: Frame): Slot {
    if !IsAuth(f) then s
    else
      var k := cfg.rsa.load(f.payload);
      s.(pubkey := if k.Some? then Some(Stamped(k.value, s.epoch)) else None)
  }

  /** The element with a session. */
  function Keyed(s: Slot, session: SessionKey): Slot {
    s.(encCtx := Some(Stamped(session, s.epoch)), decCtx := Some(Stamped(session, s.epoch)),
       authenticated := true, stage := Receiving)
  }

  /** A peer that has just been connected. */
  predicate JustConnected(s: Slot) {
    s.alive && !s.authenticated && s.stage == SendPub
  }

  /** A server sends its key and takes one frame. If the key in it is trusted it encrypts the session key
      and the IV with it, sends them one after the other, and installs them. */
  function ServerOutcome(cfg: Config, s: Slot, incoming: seq<Frame>, drawn: SessionKey, pads: (nat, nat)): AuthResult {
    var hello := [Hello(cfg)];
    if incoming == [] then AuthResult(s.(stage := Ended), hello, 0)
    else
      var s' := WithKey(cfg, s, incoming[0]);
      var failed := s'.(stage := Ended);
      if !Trusts(cfg, incoming[0]) then AuthResult(failed, hello, 1)
      else
        var k := cfg.rsa.load(incoming[0].payload).value;
        var key, iv := RsaEncrypt(cfg.rsa, k, drawn.key, pads.0), RsaEncrypt(cfg.rsa, k, drawn.iv, pads.1);
        if key.None? then AuthResult(failed, hello, 1)
        else if iv.None? then AuthResult(failed, hello + [Frame(1, key.value)], 1)
        else AuthResult(Keyed(s', drawn), hello + [Frame(1, key.value), Frame(1, iv.value)], 1)
  }

  /** A client sends its key and takes three frames: a trusted key, a session key of 32 bytes and an IV of
      16. It gives up at the first that is anything else, or missing. */
  function ClientOutcome(cfg: Config, s: Slot, incoming: seq<Frame>): AuthResult {
    var hello := [Hello(cfg)];
    if incoming == [] then AuthResult(s.(stage := Ended), hello, 0)
    else
      var s' := WithKey(cfg, s, incoming[0]);
      var failed := s'.(stage := Ended);
      if !Trusts(cfg, incoming[0]) || |incoming| == 1 then AuthResult(failed, hello, 1)
      else if !HoldsSecret(cfg, incoming[1], 32) || |incoming| == 2 then AuthResult(failed, hello, 2)
      else if !HoldsSecret(cfg, incoming[2], 16) then AuthResult(failed, hello, 3)
      else AuthResult(Keyed(s', SessionKey(SecretOf(cfg, incoming[1]), SecretOf(cfg, incoming[2]))), hello, 3)
  }

  /** Main result for servers. */
  lemma ServerAuthenticates(cfg: Config, s: Slot, incoming: seq<Frame>, drawn: SessionKey, pads: (nat, nat))
    requires JustConnected(s) && !s.isClient
    ensures RunAuth(cfg, s, incoming, drawn, pads) == ServerOutcome(cfg, s, incoming, drawn, pads)
  {
    hide RunAuth;
    hide RsaEncrypt;
    var result := RunAuth(cfg, s, incoming, drawn, pads);
    var hello := [Hello(cfg)];
    var s1 := s.(stage := AwaitPub);
    assert incoming[0..] == incoming && [] + hello == hello;
    assert result == After([], 0, result);
    RunAuthStep(cfg, s, incoming, drawn, pads, [], 0);
    RunAuthStep(cfg, s1, incoming, drawn, pads, hello, 0);
    if incoming != [] {
      var s2 := WithKey(cfg, s1, incoming[0]).(stage := if Trusts(cfg, incoming[0]) then SendKey(drawn) else Ended);
      assert s2 == Authenticate(cfg, s1, incoming[0], drawn);
      RunAuthStep(cfg, s2, incoming, drawn, pads, hello, 1);
      if Trusts(cfg, incoming[0]) {
        ServerSends(cfg, s2, incoming, drawn, pads, hello);
      }
    }
  }

  /** The part after the trust check. */
  lemma ServerSends(cfg: Config, s: Slot, incoming: seq<Frame>, drawn: SessionKey, pads: (nat, nat), hello: seq<Frame>)
    requires s.alive && s.stage == SendKey(drawn) && s.pubkey.Some? && incoming != []
    ensures var key := RsaEncrypt(cfg.rsa, s.pubkey.value.value, drawn.key, pads.0);
            var iv := RsaEncrypt(cfg.rsa, s.pubkey.value.value, drawn.iv, pads.1);
            After(hello, 1, RunAuth(cfg, s, incoming[1..], drawn, pads))
            == if key.None? then AuthResult(s.(stage := Ended), hello, 1)
               else if iv.None? then AuthResult(s.(stage := Ended), hello + [Frame(1, key.value)], 1)
               else AuthResult(Keyed(s, drawn), hello + [Frame(1, key.value), Frame(1, iv.value)], 1)
  {
    hide RunAuth;
    hide RsaEncrypt;
    var key := RsaEncrypt(cfg.rsa, s.pubkey.value.value, drawn.key, pads.0);
    var iv := RsaEncrypt(cfg.rsa, s.pubkey.value.value, drawn.iv, pads.1);
    RunAuthStep(cfg, s, incoming, drawn, pads, hello, 1);
    RunAuthStep(cfg, s.(stage := Ended), incoming, drawn, pads, hello, 1);
    assert hello + [] == hello;
    if key.Some? {
      var sent := hello + [Frame(1, key.value)];
      var s2 := s.(stage := SendIv(drawn));
      RunAuthStep(cfg, s2, incoming, drawn, pads, sent, 1);
      RunAuthStep(cfg, s.(stage := Ended), incoming, drawn, pads, sent, 1);
      assert sent + [] == sent;
      if iv.Some? {
        var all := hello + [Frame(1, key.value), Frame(1, iv.value)];
        assert sent + [Frame(1, iv.value)] == all && all + [] == all;
        var s3 := s.(stage := Install(drawn));
        RunAuthStep(cfg, s3, incoming, drawn, pads, all, 1);
        RunAuthStep(cfg, Keyed(s, drawn), incoming, drawn, pads, all, 1);
      }
    }
  }

  /** Main result for clients. */
  lemma ClientAuthenticates(cfg: Config, s: Slot, incoming: seq<Frame>, drawn: SessionKey, pads: (nat, nat))
    requires JustConnected(s) && s.isClient
    ensures RunAuth(cfg, s, incoming, drawn, pads) == ClientOutcome(cfg, s, incoming)
  {
    hide RunAuth;
    var result := RunAuth(cfg, s, incoming, drawn, pads);
    var hello := [Hello(cfg)];
    var s1 := s.(stage := AwaitPub);
    assert incoming[0..] == incoming && [] + hello == hello;
    assert result == After([], 0, result);
    RunAuthStep(cfg, s, incoming, drawn, pads, [], 0);
    RunAuthStep(cfg, s1, incoming, drawn, pads, hello, 0);
    if incoming != [] {
      var s2 := WithKey(cfg, s1, incoming[0]).(stage := if Trusts(cfg, incoming[0]) then AwaitKey else Ended);
      assert s2 == Authenticate(cfg, s1, incoming[0], drawn);
      RunAuthStep(cfg, s2, incoming, drawn, pads, hello, 1);
      if Trusts(cfg, incoming[0]) && |incoming| > 1 {
        ClientTakes(cfg, s2, incoming, drawn, pads, hello);
      }
    }
  }

  lemma ReceivedIff(cfg: Config, f: Frame, size: nat)
    requires IsAuth(f)
    ensures Received(cfg, f.payload, size) == if HoldsSecret(cfg, f, size) then Some(SecretOf(cfg, f)) else None
  {
  }

  lemma ClientTakes(cfg: Config, s: Slot, incoming: seq<Frame>, drawn: SessionKey, pads: (nat, nat), hello: seq<Frame>)
    requires s.alive && s.stage == AwaitKey && |incoming| > 1
    ensures After(hello, 1, RunAuth(cfg, s, incoming[1..], drawn, pads))
            == if !HoldsSecret(cfg, incoming[1], 32) || |incoming| == 2 then AuthResult(s.(stage := Ended), hello, 2)
               else if !HoldsSecret(cfg, incoming[2], 16) then AuthResult(s.(stage := Ended), hello, 3)
               else AuthResult(Keyed(s, SessionKey(SecretOf(cfg, incoming[1]), SecretOf(cfg, incoming[2]))), hello, 3)
  {
    hide RunAuth;
    var failed := s.(stage := Ended);
    if IsAuth(incoming[1]) { ReceivedIff(cfg, incoming[1], 32); }
    RunAuthStep(cfg, s, incoming, drawn, pads, hello, 1);
    RunAuthStep(cfg, failed, incoming, drawn, pads, hello, 2);
    if HoldsSecret(cfg, incoming[1], 32) {
      var key := SecretOf(cfg, incoming[1]);
      var s2 := s.(stage := AwaitIv(key));
      assert s2 == Authenticate(cfg, s, incoming[1], drawn);
      hide Received;
      RunAuthStep(cfg, s2, incoming, drawn, pads, hello, 2);
      if |incoming| > 2 {
        ClientTakesIv(cfg, s2, incoming, drawn, pads, hello, key);
      }
    }
  }

  lemma ClientTakesIv(cfg: Config, s: Slot, incoming: seq<Frame>, drawn: SessionKey, pads: (nat, nat),
                      hello: seq<Frame>, key: seq<byte>)
    requires s.alive && s.stage == AwaitIv(key) && |incoming| > 2
    ensures After(hello, 2, RunAuth(cfg, s, incoming[2..], drawn, pads))
            == if !HoldsSecret(cfg, incoming[2], 16) then AuthResult(s.(stage := Ended), hello, 3)
               else AuthResult(Keyed(s, SessionKey(key, SecretOf(cfg, incoming[2]))), hello, 3)
  {
    hide RunAuth;
    var failed := s.(stage := Ended);
    if IsAuth(incoming[2]) { ReceivedIff(cfg, incoming[2], 16); }
    RunAuthStep(cfg, s, incoming, drawn, pads, hello, 2);
    RunAuthStep(cfg, failed, incoming, drawn, pads, hello, 3);
    if HoldsSecret(cfg, incoming[2], 16) {
      var session := SessionKey(key, SecretOf(cfg, incoming[2]));
      var s2 := s.(stage := Install(session));
      assert s2 == Authenticate(cfg, s, incoming[2], drawn);
      assert hello + [] == hello;
      RunAuthStep(cfg, s2, incoming, drawn, pads, hello, 3);
      RunAuthStep(cfg, Keyed(s, session), incoming, drawn, pads, hello, 3);
    }
  }
}
