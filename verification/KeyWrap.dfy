// The iterated key wrap: a 32-byte secret wrapped round after round, each round under a key
// derived for it alone.
module KeyWrap {
  import opened Arith
  import opened Base
  import opened Bytes
  import opened Crypto

  // "key-wrap/v1"
  const DOMAIN: Bytes := [107, 101, 121, 45, 119, 114, 97, 112, 47, 118, 49]

  datatype WrapSuite = WrapSuite(
    wrap: (Key, Bytes) -> Option<Bytes>,
    unwrap: (Key, Bytes) -> Option<Bytes>,
    derive: (Bytes, Bytes) -> Key)   // seed, salt

  predicate Wrappable(b: Bytes) {
    |b| >= 16 && |b| % 8 == 0
  }

  // Key wrap (section 2.2 of RFC 3394) takes whole 64-bit blocks, at least two, and adds one.
  ghost predicate Wraps(s: WrapSuite) {
    forall k: Key, b: Bytes {:trigger s.wrap(k, b)} :: Wrappable(b) ==>
      && s.wrap(k, b).Some? && |s.wrap(k, b).value| == |b| + 8
      && s.unwrap(k, s.wrap(k, b).value) == Some(b)
  }

  datatype WrappedKey = WrappedKey(wrapped: Bytes, seed: Bytes, iterations: nat)

  datatype WrapError = NotThirtyTwoBytes | WrapFailed(round: nat) | BlobTooShort | UnwrapFailed(round: nat)

  // ----- round counters --------------------------------------------------------------

  function BitLength(i: nat): nat {
    if i == 0 then 0 else 1 + BitLength(i / 2)
  }

  function InfoLength(i: nat): nat {
    if i == 0 then 1 else BitLength(i) / 8 + 1
  }

  // The counter's bytes, most significant first.
  function RoundInfo(i: nat): Bytes {
    if i == 0 then [0] else seq(InfoLength(i), k requires 0 <= k < InfoLength(i) => (i / Pow256(InfoLength(i) - 1 - k)) % 256)
  }

  lemma {:induction false} BigEndianDigits(w: nat, x: nat, k: nat)
    requires k < w
    ensures BigEndian(w, x)[k] == (x / Pow256(w - 1 - k)) % 256
  {
    if k < w - 1 {
      BigEndianDigits(w - 1, x / 256, k);
      DivideTwice(x, 256, Pow256(w - 2 - k));
    }
  }

  lemma RoundInfoIsBigEndian(i: nat)
    ensures RoundInfo(i) == BigEndian(InfoLength(i), i)
  {
    var n := InfoLength(i);
    if i == 0 {
      assert BigEndian(1, 0) == [0];
    } else {
      forall k | 0 <= k < n
        ensures RoundInfo(i)[k] == BigEndian(n, i)[k]
      {
        BigEndianDigits(n, i, k);
      }
    }
  }

  lemma {:induction false} BitLengthBounds(i: nat)
    ensures i < Pow2(BitLength(i))
    ensures i > 0 ==> Pow2(BitLength(i) - 1) <= i
  {
    if i > 0 {
      BitLengthBounds(i / 2);
    }
  }

  lemma {:induction false} Pow2Grows(m: nat, n: nat)
    requires m <= n
    ensures Pow2(m) <= Pow2(n)
  {
    if m < n {
      Pow2Grows(m, n - 1);
    }
  }

  lemma {:induction false} Pow2OfBytes(w: nat)
    ensures Pow2(8 * w) == Pow256(w)
  {
    if w > 0 {
      Pow2OfBytes(w - 1);
      Pow2Adds(8 * w - 8);
    }
  }

  lemma Pow2Adds(n: nat)
    ensures Pow2(n + 8) == 256 * Pow2(n)
  {
    assert Pow2(n + 2) == 4 * Pow2(n) && Pow2(n + 4) == 4 * Pow2(n + 2);
    assert Pow2(n + 6) == 4 * Pow2(n + 4) && Pow2(n + 8) == 4 * Pow2(n + 6);
  }

  // The counter read back big-endian is the round, so no two rounds share their salt.
  lemma RoundInfoDecodes(i: nat)
    ensures FromBigEndian(RoundInfo(i)) == i
  {
    var n := InfoLength(i);
    BitLengthBounds(i);
    Pow2Grows(BitLength(i), 8 * n);
    Pow2OfBytes(n);
    BigEndianRoundTrip(n, i);
    RoundInfoIsBigEndian(i);
  }

  lemma LeadingDigit(i: nat, p: nat)
    requires p > 0 && i < 256 * p
    ensures (i / p) % 256 != 0 <==> i >= p
  {
    if i < p {
      DivideUnique(i, p, 0, i);
    } else {
      DivideMonotone(p, i, p);
      DivideUnique(p, p, 1, 0);
      var q := i / p;
      if q >= 256 {
        MultiplyMonotone(256, q, p);
      }
    }
  }

  // Which powers of two a number with `bits` bits lies between.
  lemma BitLengthBetween(i: nat, m: nat, n: nat)
    requires i > 0
    ensures BitLength(i) <= n ==> i < Pow2(n)
    ensures i >= Pow2(m) <==> BitLength(i) > m
  {
    var bits := BitLength(i);
    BitLengthBounds(i);
    if bits <= n {
      Pow2Grows(bits, n);
    }
    if bits > m {
      Pow2Grows(m, bits - 1);
    } else {
      Pow2Grows(bits, m);
    }
  }

  lemma LeadingBits(i: nat)
    requires i > 0
    ensures i < 256 * Pow256(InfoLength(i) - 1)
    ensures i >= Pow256(InfoLength(i) - 1) <==> BitLength(i) % 8 != 0
  {
    var n := InfoLength(i);
    Pow2OfBytes(n - 1);
    Pow2OfBytes(n);
    BitLengthBetween(i, 8 * (n - 1), 8 * n);
  }

  lemma FirstByte(i: nat)
    requires i > 0
    ensures RoundInfo(i)[0] == (i / Pow256(InfoLength(i) - 1)) % 256
  {
    var n := InfoLength(i);
    var k := 0;
    assert RoundInfo(i)[k] == (i / Pow256(n - 1 - k)) % 256;
  }

  // No shorter non-empty string reads back as the round.
  ghost predicate Shortest(b: Bytes, i: nat) {
    forall other: Bytes :: other != [] && FromBigEndian(other) == i ==> |b| <= |other|
  }

  lemma {:induction false} Pow256Grows(m: nat, n: nat)
    requires m <= n
    ensures Pow256(m) <= Pow256(n)
  {
    if m < n {
      Pow256Grows(m, n - 1);
    }
  }

  lemma {:induction false} LeadingZero(b: Bytes)
    requires b != [] && b[0] == 0
    ensures FromBigEndian(b[1..]) == FromBigEndian(b)
  {
    if |b| > 1 {
      var init := b[..|b| - 1];
      LeadingZero(init);
      assert b[1..][..|b| - 2] == init[1..] && b[1..][|b| - 2] == b[|b| - 1];
    }
  }

  // The counter's form is the shortest exactly when the bit length is not a positive multiple of
  // eight; where it is, the first byte is a zero too many.
  lemma RoundInfoIsShortestExactly(i: nat)
    ensures Shortest(RoundInfo(i), i) <==> i == 0 || BitLength(i) % 8 != 0
  {
    var b, n := RoundInfo(i), InfoLength(i);
    if i > 0 {
      LeadingBits(i);
      LeadingDigit(i, Pow256(n - 1));
      FirstByte(i);
      if BitLength(i) % 8 == 0 {
        LeadingZero(b);
        RoundInfoDecodes(i);
        assert |b[1..]| < |b|;
      } else {
        forall other: Bytes | other != [] && FromBigEndian(other) == i
          ensures n <= |other|
        {
          BigEndianOfBytes(other);
          if |other| < n {
            Pow256Grows(|other|, n - 1);
          }
        }
      }
    }
  }

  function RoundKey(s: WrapSuite, seed: Bytes, i: nat): Key {
    s.derive(seed, DOMAIN + RoundInfo(i))
  }

  lemma RoundSaltsDiffer(i: nat, j: nat)
    requires DOMAIN + RoundInfo(i) == DOMAIN + RoundInfo(j)
    ensures i == j
  {
    RoundInfoDecodes(i);
    RoundInfoDecodes(j);
    assert (DOMAIN + RoundInfo(i))[|DOMAIN|..] == RoundInfo(i) && (DOMAIN + RoundInfo(j))[|DOMAIN|..] == RoundInfo(j);
  }

  // ----- wrapping and unwrapping -----------------------------------------------------

  function RoundKeys(s: WrapSuite, seed: Bytes): nat -> Key {
    (i: nat) => RoundKey(s, seed, i)
  }

  // Rounds 0 to n - 1, in that order, each under its own key.
  function WrapRounds(s: WrapSuite, keys: nat -> Key, secret: Bytes, n: nat): Result<Bytes, WrapError> {
    if n == 0 then Ok(secret)
    else
      match WrapRounds(s, keys, secret, n - 1)
      case Err(e) => Err(e)
      case Ok(buf) =>
        match s.wrap(keys(n - 1), buf)
        case None => Err(WrapFailed(n - 1))
        case Some(next) => Ok(next)
  }

  // Rounds n - 1 down to 0.
  function UnwrapRounds(s: WrapSuite, keys: nat -> Key, buf: Bytes, n: nat): Result<Bytes, WrapError>
    decreases n
  {
    if n == 0 then Ok(buf)
    else if |buf| < 8 then Err(BlobTooShort)
    else
      match s.unwrap(keys(n - 1), buf)
      case None => Err(UnwrapFailed(n - 1))
      case Some(next) => UnwrapRounds(s, keys, next, n - 1)
  }

  method WrapBytes(s: WrapSuite, seed: Bytes, secret: Bytes, iterations: nat) returns (r: Result<WrappedKey, WrapError>)
    ensures |secret| != KEY_LEN ==> r == Err(NotThirtyTwoBytes)
    ensures |secret| == KEY_LEN && r.Ok? ==>
              && WrapRounds(s, RoundKeys(s, seed), secret, iterations) == Ok(r.value.wrapped)
              && r.value == WrappedKey(r.value.wrapped, seed, iterations)
    ensures |secret| == KEY_LEN && r.Err? ==> WrapRounds(s, RoundKeys(s, seed), secret, iterations) == Err(r.error)
    ensures |secret| == KEY_LEN && Wraps(s) ==> r.Ok? && |r.value.wrapped| == KEY_LEN + 8 * iterations
  {
    if |secret| != KEY_LEN {
      return Err(NotThirtyTwoBytes);
    }
    ghost var keys := RoundKeys(s, seed);
    RoundsSucceed(s, keys, secret, iterations);
    var buf := secret;
    var i := 0;
    while i < iterations
      invariant 0 <= i <= iterations
      invariant WrapRounds(s, keys, secret, i) == Ok(buf)
    {
      var next := s.wrap(RoundKey(s, seed, i), buf);
      if next.None? {
        RoundFails(s, keys, secret, i, buf, iterations);
        return Err(WrapFailed(i));
      }
      buf := next.value;
      i := i + 1;
    }
    return Ok(WrappedKey(buf, seed, iterations));
  }

  method Unwrap(s: WrapSuite, w: WrappedKey) returns (r: Result<Bytes, WrapError>)
    ensures r == UnwrapRounds(s, RoundKeys(s, w.seed), w.wrapped, w.iterations)
  {
    ghost var keys := RoundKeys(s, w.seed);
    var buf := w.wrapped;
    var i := w.iterations;
    while i > 0
      invariant 0 <= i <= w.iterations
      invariant UnwrapRounds(s, keys, buf, i) == UnwrapRounds(s, keys, w.wrapped, w.iterations)
    {
      i := i - 1;
      if |buf| < 8 {
        return Err(BlobTooShort);
      }
      var next := s.unwrap(RoundKey(s, w.seed, i), buf);
      if next.None? {
        return Err(UnwrapFailed(i));
      }
      buf := next.value;
    }
    return Ok(buf);
  }

  lemma {:induction false} ErrorPersists(s: WrapSuite, keys: nat -> Key, secret: Bytes, m: nat, n: nat)
    requires m <= n && WrapRounds(s, keys, secret, m).Err?
    ensures WrapRounds(s, keys, secret, n) == WrapRounds(s, keys, secret, m)
  {
    if m < n {
      ErrorPersists(s, keys, secret, m, n - 1);
    }
  }

  lemma RoundFails(s: WrapSuite, keys: nat -> Key, secret: Bytes, i: nat, buf: Bytes, n: nat)
    requires i < n && WrapRounds(s, keys, secret, i) == Ok(buf) && s.wrap(keys(i), buf).None?
    ensures WrapRounds(s, keys, secret, n) == Err(WrapFailed(i))
  {
    var m := i + 1;
    assert WrapRounds(s, keys, secret, m) == Err(WrapFailed(i));
    ErrorPersists(s, keys, secret, m, n);
  }

  lemma OneRoundInverts(s: WrapSuite, keys: nat -> Key, buf: Bytes, n: nat)
    requires Wraps(s) && Wrappable(buf) && n > 0
    ensures var next := s.wrap(keys(n - 1), buf);
            && next.Some? && |next.value| == |buf| + 8
            && UnwrapRounds(s, keys, next.value, n) == UnwrapRounds(s, keys, buf, n - 1)
  {
    assert s.unwrap(keys(n - 1), s.wrap(keys(n - 1), buf).value) == Some(buf);
  }

  // For any number of rounds under any keys: wrapping succeeds, adds eight bytes a round, and
  // unwrapping as many rounds gives the secret back, never meeting a short blob.
  lemma {:induction false} RoundsInvert(s: WrapSuite, keys: nat -> Key, secret: Bytes, n: nat)
    requires Wraps(s) && |secret| == KEY_LEN
    ensures WrapRounds(s, keys, secret, n).Ok?
    ensures |WrapRounds(s, keys, secret, n).value| == KEY_LEN + 8 * n
    ensures UnwrapRounds(s, keys, WrapRounds(s, keys, secret, n).value, n) == Ok(secret)
  {
    if n > 0 {
      RoundsInvert(s, keys, secret, n - 1);
      OneRoundInverts(s, keys, WrapRounds(s, keys, secret, n - 1).value, n);
    }
  }

  lemma RoundsSucceed(s: WrapSuite, keys: nat -> Key, secret: Bytes, n: nat)
    ensures Wraps(s) && |secret| == KEY_LEN ==>
              WrapRounds(s, keys, secret, n).Ok? && |WrapRounds(s, keys, secret, n).value| == KEY_LEN + 8 * n
  {
    if Wraps(s) && |secret| == KEY_LEN {
      RoundsInvert(s, keys, secret, n);
    }
  }

  // ----- what unwraps ----------------------------------------------------------------

  // Two rounds with one key would be two salts with one derived key.
  lemma RoundKeysDiffer(s: WrapSuite, seed: Bytes, i: nat, j: nat)
    requires i != j && RoundKey(s, seed, i) == RoundKey(s, seed, j)
    ensures DOMAIN + RoundInfo(i) != DOMAIN + RoundInfo(j)
    ensures s.derive(seed, DOMAIN + RoundInfo(i)) == s.derive(seed, DOMAIN + RoundInfo(j))
  {
    if DOMAIN + RoundInfo(i) == DOMAIN + RoundInfo(j) {
      RoundSaltsDiffer(i, j);
    }
  }

  // Key wrap is deterministic: only what wrapping makes unwraps.
  ghost predicate UnwrapsOnlyWraps(s: WrapSuite) {
    forall k: Key, x: Bytes {:trigger s.unwrap(k, x)} :: s.unwrap(k, x).Some? ==> s.wrap(k, s.unwrap(k, x).value) == Some(x)
  }

  // A blob that unwraps is the wrapping of what it unwraps to, round for round: any other is
  // refused.
  lemma {:induction false} UnwrapIsExact(s: WrapSuite, keys: nat -> Key, blob: Bytes, n: nat, secret: Bytes)
    requires UnwrapsOnlyWraps(s) && UnwrapRounds(s, keys, blob, n) == Ok(secret)
    ensures WrapRounds(s, keys, secret, n) == Ok(blob)
    decreases n
  {
    if n > 0 {
      UnwrapIsExact(s, keys, s.unwrap(keys(n - 1), blob).value, n - 1, secret);
    }
  }
}
