/** The frame header codec of src/protocol.c.

    A header is one type byte followed by a 32-bit payload length. The length is
    stored the way the host stores it in memory, so the codec takes the host's byte
    order as a parameter. Shifts and masks are written as division and remainder, and
    the OR of bytes that occupy disjoint positions as a sum.
  */
module Protocol {

  newtype byte = x: int | 0 <= x < 256
  type uint32 = x: nat | x < 0x1_0000_0000

  const FRAME_HEADER_SIZE: nat := 5
  const FRAME_PAYLOAD_MAXSIZE: nat := 2048
  const FRAME_MAXSIZE: nat := FRAME_HEADER_SIZE + FRAME_PAYLOAD_MAXSIZE

  const FRAME_HDR_AUTH: byte := 1
  const FRAME_HDR_CLOSE: byte := 2
  const FRAME_HDR_RESERVED: byte := 4
  const FRAME_HDR_NETPACKET: byte := 8

  function Reversed4(b: seq<byte>): seq<byte>
    requires |b| == 4
  {
    [b[3], b[2], b[1], b[0]]
  }

  /** The four bytes of `v`, most significant first. */
  function BigEndianBytes(v: uint32): seq<byte> {
    [(v / 0x100_0000) as byte, (v / 0x1_0000 % 256) as byte, (v / 0x100 % 256) as byte, (v % 256) as byte]
  }

  /** How a host of the given byte order stores `v` in memory. */
  function WordBytes(littleEndian: bool, v: uint32): (b: seq<byte>)
    ensures |b| == 4
  {
    if littleEndian then Reversed4(BigEndianBytes(v)) else BigEndianBytes(v)
  }

  /** The number a host of the given byte order loads from four bytes of memory. */
  function WordOf(littleEndian: bool, b: seq<byte>): uint32
    requires |b| == 4
  {
    var m := if littleEndian then Reversed4(b) else b;
    m[0] as nat * 0x100_0000 + m[1] as nat * 0x1_0000 + m[2] as nat * 0x100 + m[3] as nat
  }

  /** `v` with its four bytes in the opposite order. */
  function ByteReversal(v: uint32): uint32 {
    v % 256 * 0x100_0000 + v / 0x100 % 256 * 0x1_0000 + v / 0x1_0000 % 256 * 0x100 + v / 0x100_0000
  }

  predicate BytePalindrome(v: uint32) {
    v / 0x100_0000 == v % 256 && v / 0x1_0000 % 256 == v / 0x100 % 256
  }

  lemma WordRoundTrip(littleEndian: bool, v: uint32)
    ensures WordOf(littleEndian, WordBytes(littleEndian, v)) == v
  {
    var b := WordBytes(littleEndian, v);
    assert v == v / 0x100_0000 * 0x100_0000 + v / 0x1_0000 % 256 * 0x1_0000 + v / 0x100 % 256 * 0x100 + v % 256;
  }

  lemma WordBytesOfWord(littleEndian: bool, b: seq<byte>)
    requires |b| == 4
    ensures WordBytes(littleEndian, WordOf(littleEndian, b)) == b
  {
    var m := if littleEndian then Reversed4(b) else b;
    var v := WordOf(littleEndian, b);
    assert v / 0x100_0000 == m[0] as nat;
    assert v / 0x1_0000 == m[0] as nat * 256 + m[1] as nat;
    assert v / 0x100 == m[0] as nat * 0x1_0000 + m[1] as nat * 256 + m[2] as nat;
    assert BigEndianBytes(v) == m;
  }

  /** A word stored by one host and loaded by a host of the other byte order is byte
      reversed, so the two agree on the byte palindromes and on nothing else. */
  lemma WordAcrossHosts(littleEndian: bool, v: uint32)
    ensures WordOf(!littleEndian, WordBytes(littleEndian, v)) == ByteReversal(v)
    ensures WordOf(!littleEndian, WordBytes(littleEndian, v)) == v <==> BytePalindrome(v)
  {
    WordRoundTrip(littleEndian, v);
    var b3, b2, b1, b0 := v / 0x100_0000, v / 0x1_0000 % 256, v / 0x100 % 256, v % 256;
    assert v == b3 * 0x100_0000 + b2 * 0x1_0000 + b1 * 0x100 + b0;
  }

  function HeaderBytes(littleEndian: bool, kind: byte, dataLen: uint32): (h: seq<byte>)
    ensures |h| == FRAME_HEADER_SIZE
  {
    [kind] + WordBytes(littleEndian, dataLen)
  }

  function HeaderKind(h: seq<byte>): byte
    requires |h| == FRAME_HEADER_SIZE
  {
    h[0]
  }

  function HeaderLength(littleEndian: bool, h: seq<byte>): uint32
    requires |h| == FRAME_HEADER_SIZE
  {
    WordOf(littleEndian, h[1..])
  }

  lemma HeaderRoundTrip(littleEndian: bool, kind: byte, dataLen: uint32)
    ensures var h := HeaderBytes(littleEndian, kind, dataLen);
            HeaderKind(h) == kind && HeaderLength(littleEndian, h) == dataLen
  {
    assert HeaderBytes(littleEndian, kind, dataLen)[1..] == WordBytes(littleEndian, dataLen);
    WordRoundTrip(littleEndian, dataLen);
  }

  /** Every five bytes are the header of what they decode to: the codec is a bijection. */
  lemma HeaderBytesOfHeader(littleEndian: bool, h: seq<byte>)
    requires |h| == FRAME_HEADER_SIZE
    ensures HeaderBytes(littleEndian, HeaderKind(h), HeaderLength(littleEndian, h)) == h
  {
    WordBytesOfWord(littleEndian, h[1..]);
  }

  lemma HeaderAcrossHosts(littleEndian: bool, kind: byte, dataLen: uint32)
    ensures var h := HeaderBytes(littleEndian, kind, dataLen);
            && HeaderKind(h) == kind
            && HeaderLength(!littleEndian, h) == ByteReversal(dataLen)
            && (HeaderLength(!littleEndian, h) == dataLen <==> BytePalindrome(dataLen))
  {
    assert HeaderBytes(littleEndian, kind, dataLen)[1..] == WordBytes(littleEndian, dataLen);
    WordAcrossHosts(littleEndian, dataLen);
  }

  /** include/protocol.h documents a big-endian length. A big-endian host always writes
      one; a little-endian host does so exactly for the byte palindromes. */
  lemma DocumentedLengthFormat(littleEndian: bool, kind: byte, dataLen: uint32)
    ensures HeaderBytes(littleEndian, kind, dataLen) == [kind] + BigEndianBytes(dataLen)
            <==> !littleEndian || BytePalindrome(dataLen)
  {
    var h := HeaderBytes(littleEndian, kind, dataLen);
    var documented := [kind] + BigEndianBytes(dataLen);
    if littleEndian {
      assert h[1] == documented[4] && h[2] == documented[3] && h[3] == documented[2] && h[4] == documented[1];
      if BytePalindrome(dataLen) {
        assert h == documented;
      } else {
        assert h[1] != documented[1] || h[2] != documented[2];
      }
    }
  }

  /** read_uint32: accumulate the four bytes at `buf[off]`. */
  method ReadUint32(littleEndian: bool, buf: array<byte>, off: nat) returns (dataLen: uint32)
    requires off + 4 <= buf.Length
    ensures dataLen == WordOf(littleEndian, buf[off..off + 4])
  {
    var acc: nat := 0;
    if littleEndian {
      acc := acc + buf[off + 3] as nat * 0x100_0000;
      acc := acc + buf[off + 2] as nat * 0x1_0000;
      acc := acc + buf[off + 1] as nat * 0x100;
      acc := acc + buf[off] as nat;
    } else {
      acc := acc + buf[off] as nat * 0x100_0000;
      acc := acc + buf[off + 1] as nat * 0x1_0000;
      acc := acc + buf[off + 2] as nat * 0x100;
      acc := acc + buf[off + 3] as nat;
    }
    dataLen := acc;
  }

  /** write_uint32: store the four bytes of `size` at `buf[off]`. */
  method WriteUint32(littleEndian: bool, buf: array<byte>, off: nat, size: uint32)
    requires off + 4 <= buf.Length
    modifies buf
    ensures buf[off..off + 4] == WordBytes(littleEndian, size)
    ensures buf[..off] == old(buf[..off]) && buf[off + 4..] == old(buf[off + 4..])
  {
    if littleEndian {
      buf[off + 3] := (size / 0x100_0000 % 256) as byte;
      buf[off + 2] := (size / 0x1_0000 % 256) as byte;
      buf[off + 1] := (size / 0x100 % 256) as byte;
      buf[off] := (size % 256) as byte;
    } else {
      buf[off] := (size / 0x100_0000 % 256) as byte;
      buf[off + 1] := (size / 0x1_0000 % 256) as byte;
      buf[off + 2] := (size / 0x100 % 256) as byte;
      buf[off + 3] := (size % 256) as byte;
    }
  }

  method EncodeFrameHeader(littleEndian: bool, buf: array<byte>, kind: byte, dataLen: uint32)
    requires FRAME_HEADER_SIZE <= buf.Length
    modifies buf
    ensures buf[..FRAME_HEADER_SIZE] == HeaderBytes(littleEndian, kind, dataLen)
    ensures buf[FRAME_HEADER_SIZE..] == old(buf[FRAME_HEADER_SIZE..])
  {
    buf[0] := kind;
    WriteUint32(littleEndian, buf, 1, dataLen);
    assert buf[..1] == [kind];
    assert buf[..5] == buf[..1] + buf[1..5];
  }

  method DecodeFrameHeader(littleEndian: bool, buf: array<byte>) returns (kind: byte, dataLen: uint32)
    requires FRAME_HEADER_SIZE <= buf.Length
    ensures kind == HeaderKind(buf[..FRAME_HEADER_SIZE])
    ensures dataLen == HeaderLength(littleEndian, buf[..FRAME_HEADER_SIZE])
  {
    kind := buf[0];
    dataLen := ReadUint32(littleEndian, buf, 1);
    assert buf[..5][1..] == buf[1..5];
  }
}
