// What a cipher does with a key other than the one used: a cipher that tells two keys apart, and
// why none tells all of them apart.
module KeyBinding {
  import opened Base
  import opened Bytes
  import opened Crypto

  // A ciphertext made under one key opens, to something, under another.
  ghost predicate WrongKeyOpens(c: Aead, made: Key, other: Key, n: Nonce, aad: Bytes, p: Bytes) {
    && made != other && c.encrypt(made, n, aad, p).Some?
    && c.decrypt(other, n, aad, c.encrypt(made, n, aad, p).value).Some?
  }

  // A ciphertext opens with other associated data than it was made with.
  ghost predicate WrongAadOpens(c: Aead, k: Key, n: Nonce, aad: Bytes, other: Bytes, p: Bytes) {
    && aad != other && c.encrypt(k, n, aad, p).Some?
    && c.decrypt(k, n, other, c.encrypt(k, n, aad, p).value).Some?
  }

  // ----- a cipher whose tag is the key's first half ----------------------------------

  function HalfKeyCipher(): Aead {
    Aead(
      (k: Key, n: Nonce, aad: Bytes, p: Bytes) => Some(p + k[..TAG_LEN]),
      (k: Key, n: Nonce, aad: Bytes, e: Bytes) =>
        if |e| >= TAG_LEN && e[|e| - TAG_LEN..] == k[..TAG_LEN] then Some(e[..|e| - TAG_LEN]) else None)
  }

  // It keeps the law, and opens under no key with another first half.
  lemma HalfKeyCipherIsLawful()
    ensures Lawful(HalfKeyCipher())
    ensures forall made: Key, other: Key, n: Nonce, aad: Bytes, p: Bytes ::
              WrongKeyOpens(HalfKeyCipher(), made, other, n, aad, p) ==> made[..TAG_LEN] == other[..TAG_LEN]
  {
    forall k: Key, p: Bytes
      ensures (p + k[..TAG_LEN])[..|p|] == p && (p + k[..TAG_LEN])[|p|..] == k[..TAG_LEN]
    {
    }
  }

  // ----- no cipher binds every key ---------------------------------------------------

  ghost predicate AllOfLength(all: set<Bytes>, n: nat) {
    forall x: Bytes {:trigger x in all} :: x in all <==> |x| == n
  }

  lemma {:induction false} StringsOfLength(n: nat) returns (all: set<Bytes>)
    ensures AllOfLength(all, n)
  {
    if n == 0 {
      all := {[]};
    } else {
      var shorter := StringsOfLength(n - 1);
      all := set x: Bytes, b: byte | x in shorter && 0 <= b < 256 :: x + [b];
      forall x: Bytes {:trigger x in all}
        ensures x in all <==> |x| == n
      {
        if |x| == n {
          assert x == x[..n - 1] + [x[n - 1]] && x[..n - 1] in shorter;
        }
      }
    }
  }

  // A map that sends different members of `a` to different members of `b` needs room.
  lemma {:induction false} InjectionNeedsRoom(a: set<Bytes>, b: set<Bytes>, f: Bytes -> Bytes)
    requires forall x :: x in a ==> f(x) in b
    requires forall x, y :: x in a && y in a && f(x) == f(y) ==> x == y
    ensures |a| <= |b|
  {
    if a != {} {
      var x :| x in a;
      InjectionNeedsRoom(a - {x}, b - {f(x)}, f);
    }
  }

  lemma FewerShortStrings(longer: set<Bytes>, m: nat, shorter: set<Bytes>, n: nat)
    requires n < m && AllOfLength(longer, m) && AllOfLength(shorter, n)
    ensures |shorter| < |longer|
  {
    var zeros: Bytes, ones: Bytes := seq(m - n, _ => 0), seq(m, _ => 1);
    var pad := (x: Bytes) => x + zeros;
    var rest := longer - {ones};
    forall x | x in shorter
      ensures pad(x) in rest
    {
      assert pad(x)[m - 1] == 0;
    }
    forall x, y | x in shorter && y in shorter && pad(x) == pad(y)
      ensures x == y
    {
      assert x == pad(x)[..n] && y == pad(y)[..n];
    }
    InjectionNeedsRoom(shorter, rest, pad);
    assert ones in longer;
    assert |rest| == |longer| - 1;
  }

  lemma TwoWithOneImage(f: Bytes -> Bytes, m: nat, n: nat) returns (x: Bytes, y: Bytes)
    requires n < m && forall x: Bytes :: |x| == m ==> |f(x)| == n
    ensures |x| == |y| == m && x != y && f(x) == f(y)
  {
    var longer := StringsOfLength(m);
    var shorter := StringsOfLength(n);
    FewerShortStrings(longer, m, shorter, n);
    if forall x, y :: x in longer && y in longer && f(x) == f(y) ==> x == y {
      InjectionNeedsRoom(longer, shorter, f);
      assert false;
    }
    x, y :| x in longer && y in longer && f(x) == f(y) && x != y;
  }

  // Keys are longer than tags, so of the plaintexts of any one length some ciphertext opens under
  // a key it was not made with.
  lemma NoCipherBindsEveryKey(c: Aead, n: Nonce, aad: Bytes, len: nat)
    requires Lawful(c) && forall k: Key, p: Bytes :: |p| == len ==> c.encrypt(k, n, aad, p).Some?
    ensures exists made: Key, other: Key, p: Bytes :: |p| == len && WrongKeyOpens(c, made, other, n, aad, p)
  {
    var f := (x: Bytes) => if |x| == KEY_LEN + len then Ciphertext(c, x[..KEY_LEN], n, aad, x[KEY_LEN..]) else [];
    forall x: Bytes | |x| == KEY_LEN + len
      ensures |f(x)| == len + TAG_LEN
    {
      assert c.encrypt(x[..KEY_LEN], n, aad, x[KEY_LEN..]).Some?;
    }
    var x, y := TwoWithOneImage(f, KEY_LEN + len, len + TAG_LEN);
    var k: Key, k': Key := x[..KEY_LEN], y[..KEY_LEN];
    var p, p' := x[KEY_LEN..], y[KEY_LEN..];
    assert x == k + p && y == k' + p';
    assert c.encrypt(k, n, aad, p).Some? && c.encrypt(k', n, aad, p').Some?;
    assert WrongKeyOpens(c, k, k', n, aad, p);
  }

  function Ciphertext(c: Aead, k: Key, n: Nonce, aad: Bytes, p: Bytes): Bytes {
    match c.encrypt(k, n, aad, p)
    case None => []
    case Some(ct) => ct
  }
}
