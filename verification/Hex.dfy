// Lowercase hexadecimal text, decoded in either case.
module Hex {
  import opened Base
  import opened Bytes
  import opened Crypto

  const DIGITS := "0123456789abcdef"

  function Nibble(b: Bytes, i: nat): (n: nat)
    requires i < 2 * |b|
    ensures n < 16
  {
    if i % 2 == 0 then b[i / 2] / 16 else b[i / 2] % 16
  }

  function HexEncode(b: Bytes): (s: string)
    ensures |s| == 2 * |b|
  {
    seq(2 * |b|, i requires 0 <= i < 2 * |b| => DIGITS[Nibble(b, i)])
  }

  function DigitValue(c: char): (v: Option<nat>)
    ensures v.Some? ==> v.value < 16
  {
    if '0' <= c <= '9' then Some((c - '0') as nat)
    else if 'a' <= c <= 'f' then Some((c - 'a') as nat + 10)
    else if 'A' <= c <= 'F' then Some((c - 'A') as nat + 10)
    else None
  }

  predicate IsHex(s: string) {
    |s| % 2 == 0 && forall i :: 0 <= i < |s| ==> DigitValue(s[i]).Some?
  }

  function HexDecode(s: string): Option<Bytes> {
    if IsHex(s)
    then Some(seq(|s| / 2, i requires 0 <= i < |s| / 2 =>
                    16 * DigitValue(s[2 * i]).value + DigitValue(s[2 * i + 1]).value))
    else None
  }

  // Exactly 32 bytes of hex.
  function Hex32(s: string): Option<Digest> {
    match HexDecode(s)
    case None => None
    case Some(b) => if |b| == 32 then Some(b) else None
  }

  lemma DigitsDecode(n: nat)
    requires n < 16
    ensures DigitValue(DIGITS[n]) == Some(n)
  {
  }

  lemma HexRoundTrip(b: Bytes)
    ensures HexDecode(HexEncode(b)) == Some(b)
  {
    var s := HexEncode(b);
    forall i | 0 <= i < |s|
      ensures DigitValue(s[i]) == Some(Nibble(b, i))
    {
      DigitsDecode(Nibble(b, i));
    }
    var d := HexDecode(s).value;
    forall i | 0 <= i < |b|
      ensures d[i] == b[i]
    {
      assert (2 * i) % 2 == 0 && (2 * i) / 2 == i && (2 * i + 1) % 2 == 1 && (2 * i + 1) / 2 == i;
    }
    assert d == b;
  }

  lemma HexInjective(a: Bytes, b: Bytes)
    requires HexEncode(a) == HexEncode(b)
    ensures a == b
  {
    HexRoundTrip(a);
    HexRoundTrip(b);
  }

  lemma Hex32RoundTrip(d: Digest)
    ensures Hex32(HexEncode(d)) == Some(d)
  {
    HexRoundTrip(d);
  }
}
