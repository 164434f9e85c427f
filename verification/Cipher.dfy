/** The two ciphers as src/peer_net.c sees them. The arithmetic of AES and RSA is a parameter;
    the padding of AES-CBC is PKCS#7 (section 6.3 of RFC 5652). Every frame is encrypted from
    the same key and IV, so a cipher carries no state from one frame to the next. */
module Cipher {
  import opened Protocol
  import opened Wrappers

  const AES_BLOCK_SIZE: nat := 16
  const AES_KEY_SIZE: nat := 32
  const AES_IV_SIZE: nat := 16

  datatype SessionKey = SessionKey(key: seq<byte>, iv: seq<byte>)

  /** AES-256-CBC on whole blocks. */
  datatype BlockCipher = BlockCipher(
    seal: (SessionKey, seq<byte>) -> seq<byte>,
    open: (SessionKey, seq<byte>) -> seq<byte>)

  ghost predicate SoundCipher(c: BlockCipher) {
    && (forall k, x :: |x| % AES_BLOCK_SIZE == 0 ==> |c.seal(k, x)| == |x| && c.open(k, c.seal(k, x)) == x)
    && (forall k, x :: |c.open(k, x)| == |x|)
  }

  function PadLength(n: nat): nat {
    AES_BLOCK_SIZE - n % AES_BLOCK_SIZE
  }

  function Pad(m: seq<byte>): (x: seq<byte>)
    ensures |x| % AES_BLOCK_SIZE == 0 && |m| < |x|
  {
    m + seq(PadLength(|m|), _ => PadLength(|m|) as byte)
  }

  function Unpad(x: seq<byte>): Option<seq<byte>> {
    if x == [] then None
    else
      var n := x[|x| - 1] as nat;
      if 0 < n <= AES_BLOCK_SIZE && n <= |x| && forall i | |x| - n <= i < |x| :: x[i] as nat == n
      then Some(x[..|x| - n]) else None
  }

  function AesEncrypt(c: BlockCipher, k: SessionKey, m: seq<byte>): seq<byte> {
    c.seal(k, Pad(m))
  }

  function AesDecrypt(c: BlockCipher, k: SessionKey, x: seq<byte>): Option<seq<byte>> {
    if x == [] || |x| % AES_BLOCK_SIZE != 0 then None else Unpad(c.open(k, x))
  }

  /** The padding of section 6.3 of RFC 5652 for blocks of 16 bytes: up to the next multiple of 16, and
      each of the bytes says how many there are. */
  lemma PadIsPkcs7(m: seq<byte>)
    ensures var x := Pad(m);
      && |x| == (|m| / 16 + 1) * 16 && x[..|m|] == m
      && forall i :: |m| <= i < |x| ==> x[i] as int == |x| - |m|
  {
  }

  lemma UnpadIff(x: seq<byte>, m: seq<byte>)
    requires |x| % 16 == 0
    ensures Unpad(x) == Some(m) <==> x == Pad(m)
  {
    if x == Pad(m) {
      PadIsPkcs7(m);
    }
  }

  /** A payload decrypts to a packet exactly when it is a whole number of blocks, at least one, and they
      open to that packet with its padding. */
  lemma AesDecryptIff(c: BlockCipher, k: SessionKey, x: seq<byte>, m: seq<byte>)
    requires |c.open(k, x)| == |x|
    ensures AesDecrypt(c, k, x) == Some(m) <==> x != [] && |x| % 16 == 0 && c.open(k, x) == Pad(m)
  {
    if |x| % 16 == 0 {
      UnpadIff(c.open(k, x), m);
    }
  }

  /** Decryption inverts encryption, the ciphertext is never empty, and it fits in a frame
      exactly when the packet is shorter than the largest payload. */
  lemma AesRoundTrip(c: BlockCipher, k: SessionKey, m: seq<byte>)
    requires SoundCipher(c)
    ensures AesDecrypt(c, k, AesEncrypt(c, k, m)) == Some(m)
    ensures AesEncrypt(c, k, m) != []
    ensures |AesEncrypt(c, k, m)| <= 2048 <==> |m| <= 2047
  {
    var x := Pad(m);
    assert |c.seal(k, x)| == |x| && c.open(k, c.seal(k, x)) == x;
    assert x[..|m|] == m;
  }

  /** A name for an RSA key pair. */
  type RsaKey = nat

  /** RSA with OAEP padding and the PEM text of public keys. `seed` stands for the random
      bytes of the padding. `size` is the modulus size in bytes. */
  datatype Rsa = Rsa(
    pem: RsaKey -> seq<byte>,
    load: seq<byte> -> Option<RsaKey>,
    size: RsaKey -> nat,
    seal: (RsaKey, seq<byte>, nat) -> Option<seq<byte>>,
    open: (RsaKey, seq<byte>) -> Option<seq<byte>>)

  /** What OAEP with SHA-1 can encrypt (section 7.1.1 of RFC 8017): the padding takes 42 bytes. */
  predicate RsaFits(rsa: Rsa, k: RsaKey, len: nat) {
    len + 42 <= rsa.size(k)
  }

  /** The check of rsa_encrypt before it calls OpenSSL: the length against RSA_MAXSIZE, the
      modulus size less 41, both as unsigned numbers. */
  predicate PassesSizeCheck(rsa: Rsa, k: RsaKey, len: nat) {
    len <= (rsa.size(k) - 41) % 0x1_0000_0000
  }

  /** What can be relied on for the keys in `keys`. */
  ghost predicate SoundRsa(rsa: Rsa, keys: set<RsaKey>) {
    && (forall k :: k in keys ==> 0 < |rsa.pem(k)| <= FRAME_PAYLOAD_MAXSIZE && rsa.load(rsa.pem(k)) == Some(k))
    && (forall k :: k in keys ==> rsa.size(k) <= FRAME_PAYLOAD_MAXSIZE)
    && (forall k, m: seq<byte>, seed: nat :: k in keys ==> SealsAndOpens(rsa, k, m, seed))
  }

  /** Encryption succeeds exactly on what fits; decryption inverts it. */
  predicate SealsAndOpens(rsa: Rsa, k: RsaKey, m: seq<byte>, seed: nat) {
    var x := rsa.seal(k, m, seed);
    && (x.Some? <==> RsaFits(rsa, k, |m|))
    && (x.Some? ==> |x.value| == rsa.size(k) && rsa.open(k, x.value) == Some(m))
  }

  /** rsa_encrypt */
  function RsaEncrypt(rsa: Rsa, k: RsaKey, m: seq<byte>, seed: nat): Option<seq<byte>> {
    if PassesSizeCheck(rsa, k, |m|) then rsa.seal(k, m, seed) else None
  }

  /** rsa_decrypt */
  function RsaDecrypt(rsa: Rsa, k: RsaKey, x: seq<byte>): Option<seq<byte>> {
    if |x| > rsa.size(k) then None else rsa.open(k, x)
  }

  /** rsa_encrypt succeeds exactly when the message fits. Its own check lets through one length
      too many, and every length when the modulus is shorter than 41 bytes. */
  lemma RsaEncryptIffFits(rsa: Rsa, keys: set<RsaKey>, k: RsaKey, m: seq<byte>, seed: nat)
    requires SoundRsa(rsa, keys) && k in keys && |m| <= FRAME_PAYLOAD_MAXSIZE
    ensures RsaEncrypt(rsa, k, m, seed).Some? <==> |m| + 42 <= rsa.size(k)
    ensures PassesSizeCheck(rsa, k, |m|) && !RsaFits(rsa, k, |m|) <==> rsa.size(k) == |m| + 41 || rsa.size(k) < 41
  {
    assert SealsAndOpens(rsa, k, m, seed);
  }

  // ---------------------------------------------------------------- the contracts can be met

  /** The identity on whole blocks. */
  const IDENTITY_CIPHER := BlockCipher((k, x) => x, (k, x) => x)

  lemma SoundCipherExists()
    ensures SoundCipher(IDENTITY_CIPHER)
  {
  }

  /** Keys are written as one byte, and a message goes behind its length. */
  const PLAIN_RSA := Rsa(
    (k: RsaKey) => [(k % 256) as byte],
    (text: seq<byte>) => if |text| == 1 then Some(text[0] as RsaKey) else None,
    (k: RsaKey) => 256,
    (k: RsaKey, m: seq<byte>, seed: nat) => if |m| + 42 <= 256 then Some(Behind(m)) else None,
    (k: RsaKey, x: seq<byte>) => InFront(x))

  function Behind(m: seq<byte>): (x: seq<byte>)
    requires |m| + 42 <= 256
    ensures |x| == 256
  {
    [|m| as byte] + m + seq(255 - |m|, _ => 0)
  }

  function InFront(x: seq<byte>): Option<seq<byte>> {
    if x == [] || |x| <= x[0] as nat then None else Some(x[1..1 + x[0] as nat])
  }

  lemma SoundRsaExists(keys: set<RsaKey>)
    requires forall k :: k in keys ==> k < 256
    ensures SoundRsa(PLAIN_RSA, keys)
  {
    forall k, m: seq<byte>, seed: nat | k in keys ensures SealsAndOpens(PLAIN_RSA, k, m, seed) {
      if |m| + 42 <= 256 {
        assert Behind(m)[1..1 + |m|] == m;
      }
    }
  }
}
