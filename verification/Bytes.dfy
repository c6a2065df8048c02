// Bytes, big-endian integers, length-prefixed fields and byte-wise XOR.
module Bytes {
  import opened Base

  type byte = b: int | 0 <= b < 256 witness 0
  type Bytes = seq<byte>

  const U64_LIMIT := 0x1_0000_0000_0000_0000

  // ----- big-endian integers ---------------------------------------------------------

  function Pow256(w: nat): (p: nat)
    ensures p > 0
  {
    if w == 0 then 1 else 256 * Pow256(w - 1)
  }

  lemma Pow256Values()
    ensures Pow256(1) == 256 && Pow256(4) == U32_LIMIT && Pow256(8) == U64_LIMIT
  {
    assert Pow256(1) == 256 && Pow256(2) == 0x1_0000 && Pow256(3) == 0x100_0000 && Pow256(4) == U32_LIMIT;
    assert Pow256(5) == 0x100_0000_0000 && Pow256(6) == 0x1_0000_0000_0000 && Pow256(7) == 0x100_0000_0000_0000;
  }

  // The low `w` bytes of `x`, most significant first.
  function BigEndian(w: nat, x: nat): (b: Bytes)
    ensures |b| == w
  {
    if w == 0 then [] else BigEndian(w - 1, x / 256) + [x % 256]
  }

  function FromBigEndian(b: Bytes): nat {
    if b == [] then 0 else 256 * FromBigEndian(b[..|b| - 1]) + b[|b| - 1]
  }

  lemma {:induction false} BigEndianRoundTrip(w: nat, x: nat)
    requires x < Pow256(w)
    ensures FromBigEndian(BigEndian(w, x)) == x
  {
    if w > 0 {
      BigEndianRoundTrip(w - 1, x / 256);
      var b := BigEndian(w, x);
      assert b[..|b| - 1] == BigEndian(w - 1, x / 256);
    }
  }

  lemma {:induction false} BigEndianOfBytes(b: Bytes)
    ensures FromBigEndian(b) < Pow256(|b|)
    ensures BigEndian(|b|, FromBigEndian(b)) == b
  {
    if b != [] {
      BigEndianOfBytes(b[..|b| - 1]);
      var hi, lo := FromBigEndian(b[..|b| - 1]), b[|b| - 1];
      assert (256 * hi + lo) / 256 == hi && (256 * hi + lo) % 256 == lo;
    }
  }

  lemma BigEndianInjective(w: nat, x: nat, y: nat)
    requires x < Pow256(w) && y < Pow256(w)
    requires BigEndian(w, x) == BigEndian(w, y)
    ensures x == y
  {
    BigEndianRoundTrip(w, x);
    BigEndianRoundTrip(w, y);
  }

  // `n as u32` written big-endian: lengths at or past 2^32 wrap around.
  function U32(n: nat): (b: Bytes)
    ensures |b| == 4
  {
    BigEndian(4, n % U32_LIMIT)
  }

  lemma U32RoundTrip(n: nat)
    ensures FromBigEndian(U32(n)) == n % U32_LIMIT
  {
    Pow256Values();
    BigEndianRoundTrip(4, n % U32_LIMIT);
  }

  // ----- length-prefixed fields ------------------------------------------------------

  function LenPrefixed(b: Bytes): Bytes {
    U32(|b|) + b
  }

  ghost predicate Short(b: Bytes) {
    |b| < U32_LIMIT
  }

  lemma SameLength(a: Bytes, x: Bytes, b: Bytes, y: Bytes)
    requires Short(a) && Short(b)
    requires LenPrefixed(a) + x == LenPrefixed(b) + y
    ensures |a| == |b|
  {
    assert (LenPrefixed(a) + x)[..4] == U32(|a|) && (LenPrefixed(b) + y)[..4] == U32(|b|);
    U32RoundTrip(|a|);
    U32RoundTrip(|b|);
  }

  lemma LenPrefixedPrefixFree(a: Bytes, x: Bytes, b: Bytes, y: Bytes)
    requires Short(a) && Short(b)
    requires LenPrefixed(a) + x == LenPrefixed(b) + y
    ensures a == b && x == y
  {
    var l, r, n := LenPrefixed(a) + x, LenPrefixed(b) + y, 4 + |a|;
    SameLength(a, x, b, y);
    assert l[4..n] == a && r[4..n] == b && l[n..] == x && r[n..] == y;
  }

  function Fields(fs: seq<Bytes>): Bytes {
    if fs == [] then [] else LenPrefixed(fs[0]) + Fields(fs[1..])
  }

  ghost predicate AllShort(fs: seq<Bytes>) {
    forall i :: 0 <= i < |fs| ==> Short(fs[i])
  }

  lemma {:induction false} FieldsInjective(fs: seq<Bytes>, gs: seq<Bytes>)
    requires |fs| == |gs| && AllShort(fs) && AllShort(gs)
    requires Fields(fs) == Fields(gs)
    ensures fs == gs
  {
    if fs != [] {
      LenPrefixedPrefixFree(fs[0], Fields(fs[1..]), gs[0], Fields(gs[1..]));
      FieldsInjective(fs[1..], gs[1..]);
      assert fs == [fs[0]] + fs[1..] && gs == [gs[0]] + gs[1..];
    }
  }

  // ----- XOR -------------------------------------------------------------------------

  // The exclusive-or of the low `w` bits of `a` and `b`.
  function XorBits(w: nat, a: nat, b: nat): nat {
    if w == 0 then 0 else 2 * XorBits(w - 1, a / 2, b / 2) + XorBit(a % 2 == 1, b % 2 == 1)
  }

  function Pow2(w: nat): nat {
    if w == 0 then 1 else 2 * Pow2(w - 1)
  }

  function XorBit(p: bool, q: bool): nat {
    if p == q then 0 else 1
  }

  lemma {:induction false} XorBitsCancels(w: nat, a: nat, b: nat)
    requires a < Pow2(w)
    ensures XorBits(w, a, b) < Pow2(w)
    ensures XorBits(w, XorBits(w, a, b), b) == a
    ensures XorBits(w, a, b) == XorBits(w, b, a)
  {
    if w > 0 {
      XorBitsCancels(w - 1, a / 2, b / 2);
      var h, r := XorBits(w - 1, a / 2, b / 2), XorBit(a % 2 == 1, b % 2 == 1);
      var x := XorBits(w, a, b);
      assert x == 2 * h + r;
      assert x / 2 == h && x % 2 == r;
      assert XorBits(w, x, b) == 2 * (a / 2) + XorBit(r == 1, b % 2 == 1);
    }
  }

  function XorByte(a: byte, b: byte): byte {
    Pow2Is256();
    XorBitsCancels(8, a, b);
    XorBits(8, a, b)
  }

  lemma Pow2Is256()
    ensures Pow2(8) == 256
  {
    assert Pow2(4) == 16;
  }

  function Xor(a: Bytes, b: Bytes): (c: Bytes)
    requires |a| == |b|
    ensures |c| == |a|
  {
    seq(|a|, i requires 0 <= i < |a| => XorByte(a[i], b[i]))
  }

  lemma XorCancels(a: Bytes, b: Bytes)
    requires |a| == |b|
    ensures Xor(Xor(a, b), b) == a
    ensures Xor(a, b) == Xor(b, a)
  {
    Pow2Is256();
    forall i | 0 <= i < |a|
      ensures Xor(Xor(a, b), b)[i] == a[i]
      ensures Xor(a, b)[i] == Xor(b, a)[i]
    {
      XorBitsCancels(8, a[i], b[i]);
    }
  }
}
