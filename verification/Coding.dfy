/**
 Wire primitives (src/coding.rs, src/varint.rs): big-endian fixed-width integers and the
 variable-length integers of section 16 of RFC 9000.
 */
module Coding {
  import opened Prelude

  const VARINT_LIMIT := 0x4000_0000_0000_0000

  /** The outcome of a decoder that takes its input off the front of a buffer. */
  datatype Read<+T> = Got(value: T, rest: seq<byte>) | Short

  function Pow256(n: nat): nat {
    if n == 0 then 1 else 256 * Pow256(n - 1)
  }

  // ----- fixed-width integers -----

  /** The low `n` octets of `x`, most significant first. */
  function BigEndian(x: nat, n: nat): (b: seq<byte>)
    ensures |b| == n
  {
    if n == 0 then [] else BigEndian(x / 256, n - 1) + [x % 256]
  }

  function Value(b: seq<byte>): nat {
    if b == [] then 0 else Value(b[..|b| - 1]) * 256 + b[|b| - 1]
  }

  lemma {:induction false} ValueOfBigEndian(x: nat, n: nat)
    requires x < Pow256(n)
    ensures Value(BigEndian(x, n)) == x
  {
    if n > 0 {
      ValueOfBigEndian(x / 256, n - 1);
      var b := BigEndian(x, n);
      assert b[..n - 1] == BigEndian(x / 256, n - 1);
    }
  }

  lemma {:induction false} BigEndianOfValue(b: seq<byte>)
    ensures Value(b) < Pow256(|b|)
    ensures BigEndian(Value(b), |b|) == b
  {
    if b != [] {
      BigEndianOfValue(b[..|b| - 1]);
      assert b == b[..|b| - 1] + [b[|b| - 1]];
    }
  }

  lemma {:induction false} ValueSplit(b: seq<byte>)
    requires b != []
    ensures Value(b) == b[0] * Pow256(|b| - 1) + Value(b[1..])
  {
    if |b| > 1 {
      var front := b[..|b| - 1];
      ValueSplit(front);
      assert front[1..] == b[1..][..|b| - 2];
      assert front[0] * Pow256(|b| - 2) * 256 == b[0] * Pow256(|b| - 1) by {
        assert Pow256(|b| - 1) == 256 * Pow256(|b| - 2);
      }
    }
  }

  /** Reads an `n`-octet unsigned integer. */
  function ReadFixed(b: seq<byte>, n: nat): Read<nat> {
    if |b| < n then Short else Got(Value(b[..n]), b[n..])
  }

  /** Reads `n` octets as they are. */
  function ReadBytes(b: seq<byte>, n: nat): Read<seq<byte>> {
    if |b| < n then Short else Got(b[..n], b[n..])
  }

  lemma ReadFixedBack(x: nat, n: nat, rest: seq<byte>)
    requires x < Pow256(n)
    ensures ReadFixed(BigEndian(x, n) + rest, n) == Got(x, rest)
  {
    ValueOfBigEndian(x, n);
    assert (BigEndian(x, n) + rest)[..n] == BigEndian(x, n);
  }

  lemma ReadBytesBack(s: seq<byte>, rest: seq<byte>)
    ensures ReadBytes(s + rest, |s|) == Got(s, rest)
  {
    assert (s + rest)[..|s|] == s;
  }

  lemma Powers()
    ensures Pow256(1) == 0x100 && Pow256(2) == 0x1_0000 && Pow256(3) == 0x100_0000
    ensures Pow256(4) == 0x1_0000_0000 && Pow256(7) == 0x100_0000_0000_0000
    ensures Pow256(8) == 0x1_0000_0000_0000_0000
  {
    assert Pow256(3) == 256 * Pow256(2);
    assert Pow256(5) == 256 * Pow256(4);
    assert Pow256(7) == 256 * Pow256(6);
  }

  // ----- variable-length integers -----

  /** Appends `x`, tagged with its width in the two top bits; fails on values of 2^62 and more. */
  function EncodeVar(x: nat): Option<seq<byte>> {
    if x < 0x40 then Some(BigEndian(x, 1))
    else if x < 0x4000 then Some(BigEndian(0x4000 + x, 2))
    else if x < 0x4000_0000 then Some(BigEndian(0x8000_0000 + x, 4))
    else if x < 0x4000_0000_0000_0000 then Some(BigEndian(0xC000_0000_0000_0000 + x, 8))
    else None
  }

  /** The encoding of a value known to be in range. */
  function Var(x: nat): (b: seq<byte>)
    requires x < VARINT_LIMIT
    ensures |b| in {1, 2, 4, 8}
  {
    EncodeVar(x).value
  }

  /** Octets `EncodeVar` needs for `x`. */
  function VarSize(x: nat): nat {
    if x < 0x40 then 1 else if x < 0x4000 then 2 else if x < 0x4000_0000 then 4 else 8
  }

  /** Octets announced by the tag in the first octet. */
  function TaggedLength(first: byte): nat {
    match first / 64
    case 0 => 1
    case 1 => 2
    case 2 => 4
    case _ => 8
  }

  function ReadVar(b: seq<byte>): Read<nat> {
    if b == [] then Short
    else
      var n := TaggedLength(b[0]);
      if |b| < n then Short else Got(Value([b[0] % 64] + b[1..n]), b[n..])
  }

  lemma LessTimes(a: int, b: int, unit: int)
    requires unit > 0
    ensures a < b <==> a * unit < b * unit
  {
    assert (b - a) * unit == b * unit - a * unit;
    if b - a > 0 {
      assert (b - a) * unit > 0;
    } else {
      assert (b - a) * unit <= 0;
    }
  }

  lemma TopByte(first: int, low: int, tag: int, x: int, unit: int)
    requires unit > 0 && 0 <= low < unit && 0 <= x < 64 * unit
    requires first * unit + low == tag * 64 * unit + x
    ensures first / 64 == tag && (first % 64) * unit + low == x
  {
    var d := first - tag * 64;
    assert d * unit == x - low;
    LessTimes(-1, d, unit);
    LessTimes(d, 64, unit);
  }

  /** A tagged big-endian number gives its tag in the first octet's top bits, its value below. */
  lemma StripTag(w: seq<byte>, tag: nat, x: nat, unit: nat)
    requires w != [] && unit == Pow256(|w| - 1) && unit > 0 && x < 64 * unit
    requires Value(w) == tag * 64 * unit + x
    ensures w[0] / 64 == tag && Value([w[0] % 64] + w[1..]) == x
  {
    ValueSplit(w);
    BigEndianOfValue(w[1..]);
    TopByte(w[0], Value(w[1..]), tag, x, unit);
    var stripped := [w[0] % 64] + w[1..];
    ValueSplit(stripped);
    assert stripped[1..] == w[1..];
  }

  lemma TaggedReadBack(x: nat, tag: nat, n: nat, unit: nat, y: nat, rest: seq<byte>)
    requires tag < 4 && n == TaggedLength(tag * 64)
    requires unit == Pow256(n - 1) && unit > 0 && x < 64 * unit
    requires y == tag * 64 * unit + x && y < Pow256(n)
    ensures ReadVar(BigEndian(y, n) + rest) == Got(x, rest)
  {
    var w := BigEndian(y, n);
    ValueOfBigEndian(y, n);
    StripTag(w, tag, x, unit);
    assert TaggedLength(w[0]) == n;
    assert (w + rest)[1..n] == w[1..];
    assert (w + rest)[n..] == rest;
  }

  /** Decoding undoes encoding, whatever follows. */
  lemma ReadVarBack(x: nat, rest: seq<byte>)
    requires x < VARINT_LIMIT
    ensures |Var(x)| == VarSize(x)
    ensures ReadVar(Var(x) + rest) == Got(x, rest)
  {
    Powers();
    if x < 0x40 {
      TaggedReadBack(x, 0, 1, 1, x, rest);
    } else if x < 0x4000 {
      TaggedReadBack(x, 1, 2, 0x100, 0x4000 + x, rest);
    } else if x < 0x4000_0000 {
      TaggedReadBack(x, 2, 4, 0x100_0000, 0x8000_0000 + x, rest);
    } else {
      TaggedReadBack(x, 3, 8, 0x100_0000_0000_0000, 0xC000_0000_0000_0000 + x, rest);
    }
  }

  /** Whatever is decoded fits in 62 bits and used up one to eight octets of the front. */
  lemma ReadVarBounds(b: seq<byte>)
    requires ReadVar(b).Got?
    ensures ReadVar(b).value < VARINT_LIMIT
    ensures ReadVar(b).rest == b[TaggedLength(b[0])..]
    ensures TaggedLength(b[0]) <= |b| && b == b[..TaggedLength(b[0])] + ReadVar(b).rest
  {
    var n := TaggedLength(b[0]);
    var stripped := [b[0] % 64] + b[1..n];
    ValueSplit(stripped);
    BigEndianOfValue(stripped[1..]);
    Powers();
  }

  lemma ReadVarShrinks(b: seq<byte>)
    requires ReadVar(b).Got?
    ensures |ReadVar(b).rest| < |b|
  {
  }

  /** Reading is decided by the octets it uses: what follows them does not matter. */
  lemma ReadVarLocal(b: seq<byte>, more: seq<byte>)
    requires ReadVar(b).Got?
    ensures ReadVar(b + more) == Got(ReadVar(b).value, ReadVar(b).rest + more)
  {
    var n := TaggedLength(b[0]);
    assert (b + more)[1..n] == b[1..n];
    assert (b + more)[n..] == b[n..] + more;
  }
}
