// Archives of the audit log and their verification, independent of the database.
module AuditArchive {
  import opened Base
  import opened Bytes
  import opened Crypto
  import opened Hex
  import opened RowChain
  import opened AuditChain

  datatype Archive = Archive(
    count: nat,
    firstId: int,
    lastId: int,
    genesisPrev: string,
    finalRowHash: string,
    rows: seq<Row>)

  datatype Reason = GenesisNotHex | PrevHashBroken | RowHashMismatch | FinalMismatch

  datatype Verification = Verification(
    ok: bool,
    count: nat,
    verified: nat,
    firstId: int,
    lastId: int,
    firstBadId: Option<int>,
    reason: Option<Reason>)

  predicate EndsAt(f: RowHasher, p: Digest, a: Archive) {
    Chained(f, p, a.rows) && HexEncode(ChainEnd(f, p, a.rows)) == a.finalRowHash
  }

  // The archive's rows chain from its genesis value to its final one.
  predicate Sound(f: RowHasher, a: Archive) {
    Hex32(a.genesisPrev).Some? && EndsAt(f, Hex32(a.genesisPrev).value, a)
  }

  function Bail(a: Archive, verified: nat, id: int, why: Reason): Verification {
    Verification(false, a.count, verified, a.firstId, a.lastId, Some(id), Some(why))
  }

  // The first `n` rows chain, and the row after them, if any, does not link.
  ghost predicate LongestChained(f: RowHasher, p: Digest, rows: seq<Row>, n: nat) {
    && n <= |rows| && Chained(f, p, rows[..n])
    && (n < |rows| ==> !Chained(f, p, rows[..n + 1]))
  }

  function FaultIn(f: RowHasher, prev: Digest, r: Row): Reason {
    if r.prevHash != HexEncode(prev) then PrevHashBroken else RowHashMismatch
  }

  // Verifying from genesis value `p`: acceptance means soundness; a refusal names the longest
  // valid prefix, the row after it, and what is wrong there.
  ghost predicate Reports(f: RowHasher, p: Digest, a: Archive, v: Verification) {
    && LongestChained(f, p, a.rows, v.verified)
    && (v.ok <==> EndsAt(f, p, a))
    && (v.verified < |a.rows| ==>
          && v.firstBadId == Some(a.rows[v.verified].id)
          && v.reason == Some(FaultIn(f, ChainEnd(f, p, a.rows[..v.verified]), a.rows[v.verified])))
    && (v.verified == |a.rows| ==>
          if v.ok then v.firstBadId == None && v.reason == None
          else v.firstBadId == Some(a.lastId) && v.reason == Some(FinalMismatch))
  }

  method VerifyArchive(h: Hash, key: Bytes, a: Archive) returns (v: Verification)
    ensures v.ok <==> Sound(Hasher(h, key), a)
    ensures v.count == a.count && v.firstId == a.firstId && v.lastId == a.lastId
    ensures match Hex32(a.genesisPrev) {
              case None => v == Bail(a, 0, a.firstId, GenesisNotHex)
              case Some(p) => Reports(Hasher(h, key), p, a, v)
            }
  {
    var f := Hasher(h, key);
    var genesis := Hex32(a.genesisPrev);
    if genesis.None? {
      return Bail(a, 0, a.firstId, GenesisNotHex);
    }
    var prev := genesis.value;
    var i := 0;
    while i < |a.rows|
      invariant 0 <= i <= |a.rows|
      invariant Chained(f, genesis.value, a.rows[..i])
      invariant prev == ChainEnd(f, genesis.value, a.rows[..i])
    {
      var r := a.rows[i];
      if r.prevHash != HexEncode(prev) {
        BrokenLinkReported(f, genesis.value, a, i);
        return Bail(a, i, r.id, PrevHashBroken);
      }
      var computed := f(prev, r.content);
      if HexEncode(computed) != r.rowHash {
        BrokenLinkReported(f, genesis.value, a, i);
        return Bail(a, i, r.id, RowHashMismatch);
      }
      ChainStep(f, genesis.value, a.rows, i);
      prev := computed;
      i := i + 1;
    }
    assert a.rows[..i] == a.rows;
    if HexEncode(prev) != a.finalRowHash {
      return Bail(a, |a.rows|, a.lastId, FinalMismatch);
    }
    return Verification(true, a.count, |a.rows|, a.firstId, a.lastId, None, None);
  }

  lemma BrokenLinkReported(f: RowHasher, p: Digest, a: Archive, i: nat)
    requires i < |a.rows| && Chained(f, p, a.rows[..i])
    requires !Links(f, ChainEnd(f, p, a.rows[..i]), a.rows[i])
    ensures !Chained(f, p, a.rows)
    ensures Reports(f, p, a, Bail(a, i, a.rows[i].id, FaultIn(f, ChainEnd(f, p, a.rows[..i]), a.rows[i])))
  {
    ChainStep(f, p, a.rows, i);
    if Chained(f, p, a.rows) {
      assert a.rows[..|a.rows|] == a.rows;
      PrefixesAreChained(f, p, a.rows, i + 1, |a.rows|);
    }
  }

  // LongestChained means what it says: the chained prefixes are those of length up to `n`.
  lemma LongestIsExact(f: RowHasher, p: Digest, rows: seq<Row>, n: nat, m: nat)
    requires LongestChained(f, p, rows, n) && m <= |rows|
    ensures Chained(f, p, rows[..m]) <==> m <= n
  {
    if m <= n {
      PrefixesAreChained(f, p, rows, m, n);
    } else if Chained(f, p, rows[..m]) {
      PrefixesAreChained(f, p, rows, n + 1, m);
    }
  }

  // ----- main results ----------------------------------------------------------------

  lemma SlicesAreChained(f: RowHasher, p: Digest, rows: seq<Row>, lo: nat, hi: nat)
    requires lo <= hi <= |rows| && Chained(f, p, rows[..hi])
    ensures Chained(f, ChainEnd(f, p, rows[..lo]), rows[lo..hi])
    ensures ChainEnd(f, ChainEnd(f, p, rows[..lo]), rows[lo..hi]) == ChainEnd(f, p, rows[..hi])
  {
    assert rows[..hi] == rows[..lo] + rows[lo..hi];
    ChainsConcatenate(f, p, rows[..lo], rows[lo..hi]);
  }

  // Any contiguous, non-empty slice of what the log writes is a sound archive between the
  // hashes its own first and last rows carry.
  lemma WrittenSlicesAreSound(f: RowHasher, writes: seq<(int, Content)>, lo: nat, hi: nat, a: Archive)
    requires lo < hi <= |writes| == |Written(f, writes)|
    requires a.rows == Written(f, writes)[lo..hi]
    requires a.genesisPrev == Written(f, writes)[lo].prevHash
    requires a.finalRowHash == Written(f, writes)[hi - 1].rowHash
    ensures Sound(f, a)
  {
    WrittenIsChained(f, writes);
    SlicesAreSound(f, Zeros(), Written(f, writes), lo, hi, a);
  }

  lemma SlicesAreSound(f: RowHasher, p: Digest, rows: seq<Row>, lo: nat, hi: nat, a: Archive)
    requires Chained(f, p, rows) && lo < hi <= |rows| && a.rows == rows[lo..hi]
    requires a.genesisPrev == rows[lo].prevHash && a.finalRowHash == rows[hi - 1].rowHash
    ensures Sound(f, a)
  {
    assert rows[..|rows|] == rows;
    PrefixesAreChained(f, p, rows, hi, |rows|);
    PrefixesAreChained(f, p, rows, lo + 1, |rows|);
    SlicesAreChained(f, p, rows, lo, hi);
    ChainStep(f, p, rows, lo);
    ChainStep(f, p, rows, hi - 1);
    Hex32RoundTrip(ChainEnd(f, p, rows[..lo]));
  }

  // Two archives that meet join into a sound one exactly when both are sound.
  lemma SoundArchivesCompose(f: RowHasher, a: Archive, b: Archive)
    requires Sound(f, a) && a.finalRowHash == b.genesisPrev
    ensures Sound(f, b) <==> Sound(f, a.(rows := a.rows + b.rows, finalRowHash := b.finalRowHash))
  {
    var p := Hex32(a.genesisPrev).value;
    ChainsConcatenate(f, p, a.rows, b.rows);
    Hex32RoundTrip(ChainEnd(f, p, a.rows));
  }

  ghost predicate AllEncodable(rows: seq<Row>) {
    forall i :: 0 <= i < |rows| ==> Encodable(rows[i].content)
  }

  // A hash collision between the bytes of a's row and b's row that lie `n` rows from the end.
  ghost predicate CollidesAt(h: Hash, key: Bytes, p: Digest, a: seq<Row>, b: seq<Row>, n: nat) {
    && n < |a| && n < |b|
    && var x := RowBytes(key, ChainEnd(Hasher(h, key), p, DropLast(a, n + 1)), a[|a| - 1 - n].content);
       var y := RowBytes(key, ChainEnd(Hasher(h, key), p, DropLast(b, n + 1)), b[|b| - 1 - n].content);
       x != y && h(x) == h(y)
  }

  // Different inputs with one row hash are different bytes with one hash.
  lemma HashesCollide(h: Hash, key: Bytes, s: Digest, c: Content, t: Digest, d: Content)
    requires Encodable(c) && Encodable(d) && (s, c) != (t, d)
    requires Hasher(h, key)(s, c) == Hasher(h, key)(t, d)
    ensures RowBytes(key, s, c) != RowBytes(key, t, d) && h(RowBytes(key, s, c)) == h(RowBytes(key, t, d))
  {
    if RowBytes(key, s, c) == RowBytes(key, t, d) {
      SameKeyInjective(key, s, c, t, d);
    }
  }

  lemma LastOfChain(f: RowHasher, p: Digest, rows: seq<Row>, n: nat)
    requires n < |rows|
    ensures DropLast(DropLast(rows, n), 1) == DropLast(rows, n + 1)
    ensures DropLast(rows, n)[..|rows| - n - 1] == DropLast(rows, n + 1)
    ensures ChainEnd(f, p, DropLast(rows, n)) == f(ChainEnd(f, p, DropLast(rows, n + 1)), rows[|rows| - 1 - n].content)
  {
    assert DropLast(rows, n) == DropLast(rows, n + 1) + [rows[|rows| - 1 - n]];
    ChainSnoc(f, p, DropLast(rows, n + 1), rows[|rows| - 1 - n]);
  }

  lemma CollisionInBytes(h: Hash, key: Bytes, p: Digest, a: seq<Row>, b: seq<Row>, n: nat)
    requires AllEncodable(a) && AllEncodable(b) && n <= |a| && n <= |b|
    requires LastRowsCollide(Hasher(h, key), p, DropLast(a, n), DropLast(b, n))
    ensures CollidesAt(h, key, p, a, b, n)
  {
    var f := Hasher(h, key);
    LastOfChain(f, p, a, n);
    LastOfChain(f, p, b, n);
    HashesCollide(h, key, ChainEnd(f, p, DropLast(a, n + 1)), a[|a| - 1 - n].content,
                  ChainEnd(f, p, DropLast(b, n + 1)), b[|b| - 1 - n].content);
  }

  // Two sound archives with the same anchors and the same number of rows hold the same hashed
  // fields in the same order, or this exhibits two of their own rows whose hashes collide.
  lemma SameAnchorsSameRows(h: Hash, key: Bytes, a: Archive, b: Archive)
    requires Sound(Hasher(h, key), a) && Sound(Hasher(h, key), b)
    requires a.genesisPrev == b.genesisPrev && a.finalRowHash == b.finalRowHash && |a.rows| == |b.rows|
    requires AllEncodable(a.rows) && AllEncodable(b.rows)
    ensures SameContents(a.rows, b.rows)
            || exists n: nat :: CollidesAt(h, key, Hex32(a.genesisPrev).value, a.rows, b.rows, n)
  {
    var f, p := Hasher(h, key), Hex32(a.genesisPrev).value;
    HexInjective(ChainEnd(f, p, a.rows), ChainEnd(f, p, b.rows));
    var n := EqualEnds(f, p, a.rows, b.rows);
    if n < |a.rows| {
      CollisionInBytes(h, key, p, a.rows, b.rows, n);
    } else {
      assert TakeLast(a.rows, n) == a.rows && TakeLast(b.rows, n) == b.rows;
    }
  }

  // Without the row count: a shorter archive can only stand in for a longer one between the same
  // anchors if two rows collide or the genesis value is itself a chain value inside the longer
  // one, the shorter being exactly what follows it.
  lemma DroppingRowsNeedsABreak(h: Hash, key: Bytes, a: Archive, b: Archive)
    requires Sound(Hasher(h, key), a) && Sound(Hasher(h, key), b)
    requires a.genesisPrev == b.genesisPrev && a.finalRowHash == b.finalRowHash && |a.rows| < |b.rows|
    requires AllEncodable(a.rows) && AllEncodable(b.rows)
    ensures var p := Hex32(a.genesisPrev).value;
            || (exists n: nat :: CollidesAt(h, key, p, a.rows, b.rows, n))
            || (ChainEnd(Hasher(h, key), p, DropLast(b.rows, |a.rows|)) == p
                && SameContents(a.rows, TakeLast(b.rows, |a.rows|)))
  {
    var f, p := Hasher(h, key), Hex32(a.genesisPrev).value;
    HexInjective(ChainEnd(f, p, a.rows), ChainEnd(f, p, b.rows));
    var n := EqualEnds(f, p, a.rows, b.rows);
    if n == |a.rows| {
      assert TakeLast(a.rows, n) == a.rows;
    } else {
      CollisionInBytes(h, key, p, a.rows, b.rows, n);
    }
  }

  // ----- the key ---------------------------------------------------------------------

  // Only the key an archive was written under verifies it: if another does too, its first row's
  // hash is a collision between the bytes under the one and under the other.
  lemma AnotherKeyNeedsACollision(h: Hash, k: Bytes, l: Bytes, a: Archive)
    requires Short(k) && Short(l) && k != l && a.rows != []
    requires Sound(Hasher(h, k), a) && Sound(Hasher(h, l), a)
    ensures var p, c := Hex32(a.genesisPrev).value, a.rows[0].content;
            RowBytes(k, p, c) != RowBytes(l, p, c) && h(RowBytes(k, p, c)) == h(RowBytes(l, p, c))
  {
    var p, c := Hex32(a.genesisPrev).value, a.rows[0].content;
    FirstRowHash(Hasher(h, k), p, a.rows);
    FirstRowHash(Hasher(h, l), p, a.rows);
    HexInjective(Hasher(h, k)(p, c), Hasher(h, l)(p, c));
    if RowBytes(k, p, c) == RowBytes(l, p, c) {
      RowBytesNameTheKey(k, p, c, l, p, c);
    }
  }

  lemma FirstRowHash(f: RowHasher, p: Digest, rows: seq<Row>)
    requires rows != [] && Chained(f, p, rows)
    ensures rows[0].rowHash == HexEncode(f(p, rows[0].content))
  {
    assert rows[..|rows|] == rows && rows[..0] == [];
    PrefixesAreChained(f, p, rows, 1, |rows|);
    ChainStep(f, p, rows, 0);
  }
}
