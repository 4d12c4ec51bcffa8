/**
 Byte strings, hexadecimal digests and length-prefixed framing: the vocabulary the audit
 chain, the Merkle tree and the bandit digest share. Go strings are byte strings, so a
 string field is a `Text` here.
 */
module Framing {
  import opened Collections

  type Byte = b: int | 0 <= b < 256

  type Bytes = seq<Byte>

  /** A Go string or slice: its length is an `int`, so it always fits the 8-byte prefix. */
  type Text = s: Bytes | |s| < 0x8000_0000_0000_0000

  /** The output of SHA-256. */
  type Digest = d: Bytes | |d| == 32 witness seq(32, _ => 0)

  type HashFn = Bytes -> Digest

  /** Two different strings out of `hashed` have the same digest. */
  ghost predicate Collision(h: HashFn, hashed: set<Bytes>) {
    exists x, y :: x in hashed && y in hashed && x != y && h(x) == h(y)
  }

  lemma CollisionMonotone(h: HashFn, small: set<Bytes>, large: set<Bytes>)
    requires Collision(h, small)
    requires small <= large
    ensures Collision(h, large)
  {
    var x, y :| x in small && y in small && x != y && h(x) == h(y);
    assert x in large && y in large;
  }

  // --------------------------------------------------------------------------
  // Hexadecimal
  // --------------------------------------------------------------------------

  function HexDigit(n: nat): Byte
    requires n < 16
  {
    if n < 10 then 48 + n else 87 + n
  }

  /** Decoding accepts both cases; encoding emits lower case only. */
  function HexValue(c: Byte): Option<nat> {
    if 48 <= c <= 57 then Some(c - 48)
    else if 97 <= c <= 102 then Some(c - 87)
    else if 65 <= c <= 70 then Some(c - 55)
    else None
  }

  function HexEncode(b: Bytes): (s: Bytes)
    ensures |s| == 2 * |b|
  {
    if b == [] then [] else [HexDigit(b[0] / 16), HexDigit(b[0] % 16)] + HexEncode(b[1..])
  }

  function HexDecode(s: Bytes): Option<Bytes> {
    if s == [] then Some([])
    else if |s| == 1 then None
    else
      match (HexValue(s[0]), HexValue(s[1]), HexDecode(s[2..]))
      case (Some(hi), Some(lo), Some(rest)) =>
        if hi < 16 && lo < 16 then Some([hi * 16 + lo] + rest) else None
      case _ => None
  }

  lemma {:induction false} HexRoundTrip(b: Bytes)
    ensures HexDecode(HexEncode(b)) == Some(b)
  {
    if b == [] {
    } else {
      var s := HexEncode(b);
      assert s[2..] == HexEncode(b[1..]);
      HexRoundTrip(b[1..]);
      assert b == [b[0]] + b[1..];
    }
  }

  lemma HexInjective(a: Bytes, b: Bytes)
    requires HexEncode(a) == HexEncode(b)
    ensures a == b
  {
    HexRoundTrip(a);
    HexRoundTrip(b);
  }

  // --------------------------------------------------------------------------
  // Big-endian integers
  // --------------------------------------------------------------------------

  const UINT64_RANGE: nat := 0x1_0000_0000_0000_0000

  /** Go's `uint64(x)` on an `int64`: two's complement wrap-around. */
  function AsUint64(x: int): (v: nat)
    ensures v < UINT64_RANGE
  {
    x % UINT64_RANGE
  }

  predicate IsInt64(x: int) {
    -0x8000_0000_0000_0000 <= x < 0x8000_0000_0000_0000
  }

  function BigEndian(v: nat, width: nat): (s: Bytes)
    ensures |s| == width
  {
    if width == 0 then [] else BigEndian(v / 256, width - 1) + [v % 256]
  }

  function ByteRange(width: nat): nat {
    if width == 0 then 1 else 256 * ByteRange(width - 1)
  }

  lemma {:induction false} BigEndianInjective(u: nat, v: nat, width: nat)
    requires u < ByteRange(width) && v < ByteRange(width)
    requires BigEndian(u, width) == BigEndian(v, width)
    ensures u == v
  {
    if width == 0 {
    } else {
      var a, b := BigEndian(u, width), BigEndian(v, width);
      assert a[..width - 1] == BigEndian(u / 256, width - 1);
      assert b[..width - 1] == BigEndian(v / 256, width - 1);
      assert a[width - 1] == u % 256 && b[width - 1] == v % 256;
      BigEndianInjective(u / 256, v / 256, width - 1);
    }
  }

  lemma EightBytesHoldUint64()
    ensures ByteRange(8) == UINT64_RANGE
  {
    assert ByteRange(4) == 0x1_0000_0000;
    assert ByteRange(6) == 0x1_0000_0000_0000;
  }

  // --------------------------------------------------------------------------
  // Length-prefixed fields
  // --------------------------------------------------------------------------

  /** One absorbed field: an 8-byte big-endian length, then the bytes. */
  function Frame(s: Text): Bytes {
    BigEndian(|s|, 8) + s
  }

  /** A whole preimage: the fields absorbed one after another. */
  function Absorb(fields: seq<Text>): Bytes {
    if fields == [] then [] else Frame(fields[0]) + Absorb(fields[1..])
  }

  /** A frame can be peeled off the front of any stream in only one way. */
  lemma FrameIsPrefixFree(a: Text, b: Text, x: Bytes, y: Bytes)
    requires Frame(a) + x == Frame(b) + y
    ensures a == b && x == y
  {
    var s, t := Frame(a) + x, Frame(b) + y;
    assert s[..8] == BigEndian(|a|, 8);
    assert t[..8] == BigEndian(|b|, 8);
    EightBytesHoldUint64();
    BigEndianInjective(|a|, |b|, 8);
    assert a == s[8..8 + |a|] == t[8..8 + |b|] == b;
    assert x == s[8 + |a|..] == t[8 + |b|..] == y;
  }

  /** No choice of field contents shifts a boundary: the stream determines the fields. */
  lemma {:induction false} AbsorbInjective(a: seq<Text>, b: seq<Text>)
    requires Absorb(a) == Absorb(b)
    ensures a == b
    decreases |a|
  {
    if a == [] {
    } else if b == [] {
    } else {
      FrameIsPrefixFree(a[0], b[0], Absorb(a[1..]), Absorb(b[1..]));
      AbsorbInjective(a[1..], b[1..]);
      assert a == [a[0]] + a[1..] && b == [b[0]] + b[1..];
    }
  }
}
