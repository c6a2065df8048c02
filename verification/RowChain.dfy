// Rows linked by a hash of the previous value and the row's contents, whatever that hash is.
module RowChain {
  import opened Base
  import opened Bytes
  import opened Crypto
  import opened Hex

  type i64 = x: int | -0x8000_0000_0000_0000 <= x < 0x8000_0000_0000_0000

  // The hashed fields of a row, text as its UTF-8 bytes.
  datatype Content = Content(
    tsMicros: i64,
    clientId: Option<Bytes>,
    action: Bytes,
    resource: Option<Bytes>,
    status: Bytes,
    message: Option<Bytes>)

  datatype Row = Row(id: int, content: Content, prevHash: string, rowHash: string)

  type RowHasher = (Digest, Content) -> Digest

  // ----- chains ----------------------------------------------------------------------

  // The chain value after `rows`, recomputed from their contents.
  function ChainEnd(f: RowHasher, genesis: Digest, rows: seq<Row>): Digest {
    if rows == [] then genesis
    else f(ChainEnd(f, genesis, rows[..|rows| - 1]), rows[|rows| - 1].content)
  }

  predicate Links(f: RowHasher, prev: Digest, r: Row) {
    r.prevHash == HexEncode(prev) && r.rowHash == HexEncode(f(prev, r.content))
  }

  // Every row names the chain value before it and carries the one after it.
  predicate Chained(f: RowHasher, genesis: Digest, rows: seq<Row>) {
    if rows == [] then true
    else
      && Chained(f, genesis, rows[..|rows| - 1])
      && Links(f, ChainEnd(f, genesis, rows[..|rows| - 1]), rows[|rows| - 1])
  }

  lemma ChainSnoc(f: RowHasher, genesis: Digest, rows: seq<Row>, r: Row)
    ensures ChainEnd(f, genesis, rows + [r]) == f(ChainEnd(f, genesis, rows), r.content)
    ensures Chained(f, genesis, rows + [r])
            <==> Chained(f, genesis, rows) && Links(f, ChainEnd(f, genesis, rows), r)
  {
    assert (rows + [r])[..|rows|] == rows;
  }

  lemma SnocOf<T>(a: seq<T>, b: seq<T>)
    requires b != []
    ensures a + b == (a + b[..|b| - 1]) + [b[|b| - 1]]
    ensures b == b[..|b| - 1] + [b[|b| - 1]]
  {
  }

  lemma {:induction false} EndsConcatenate(f: RowHasher, genesis: Digest, a: seq<Row>, b: seq<Row>)
    ensures ChainEnd(f, genesis, a + b) == ChainEnd(f, ChainEnd(f, genesis, a), b)
  {
    if b == [] {
      assert a + b == a;
    } else {
      SnocOf(a, b);
      EndsConcatenate(f, genesis, a, b[..|b| - 1]);
      ChainSnoc(f, genesis, a + b[..|b| - 1], b[|b| - 1]);
    }
  }

  lemma {:induction false} ChainsConcatenate(f: RowHasher, genesis: Digest, a: seq<Row>, b: seq<Row>)
    ensures ChainEnd(f, genesis, a + b) == ChainEnd(f, ChainEnd(f, genesis, a), b)
    ensures Chained(f, genesis, a + b)
            <==> Chained(f, genesis, a) && Chained(f, ChainEnd(f, genesis, a), b)
  {
    EndsConcatenate(f, genesis, a, b);
    if b == [] {
      assert a + b == a;
    } else {
      var init, last := b[..|b| - 1], b[|b| - 1];
      SnocOf(a, b);
      EndsConcatenate(f, genesis, a, init);
      ChainsConcatenate(f, genesis, a, init);
      ChainSnoc(f, genesis, a + init, last);
    }
  }

  lemma ChainStep(f: RowHasher, genesis: Digest, rows: seq<Row>, i: nat)
    requires i < |rows|
    ensures ChainEnd(f, genesis, rows[..i + 1]) == f(ChainEnd(f, genesis, rows[..i]), rows[i].content)
    ensures Chained(f, genesis, rows[..i + 1])
            <==> Chained(f, genesis, rows[..i]) && Links(f, ChainEnd(f, genesis, rows[..i]), rows[i])
  {
    assert rows[..i + 1] == rows[..i] + [rows[i]];
    ChainSnoc(f, genesis, rows[..i], rows[i]);
  }

  lemma {:induction false} PrefixesAreChained(f: RowHasher, genesis: Digest, rows: seq<Row>, n: nat, m: nat)
    requires n <= m <= |rows| && Chained(f, genesis, rows[..m])
    ensures Chained(f, genesis, rows[..n])
    decreases m - n
  {
    if n < m {
      ChainStep(f, genesis, rows, m - 1);
      PrefixesAreChained(f, genesis, rows, n, m - 1);
    }
  }

  // ----- two chains with one end -----------------------------------------------------

  // The last rows of the two chains are hashed from different inputs to one value.
  ghost predicate LastRowsCollide(f: RowHasher, p: Digest, a: seq<Row>, b: seq<Row>) {
    && a != [] && b != []
    && (ChainEnd(f, p, a[..|a| - 1]), a[|a| - 1].content) != (ChainEnd(f, p, b[..|b| - 1]), b[|b| - 1].content)
    && ChainEnd(f, p, a) == ChainEnd(f, p, b)
  }

  ghost predicate SameContents(a: seq<Row>, b: seq<Row>) {
    |a| == |b| && forall i :: 0 <= i < |a| ==> a[i].content == b[i].content
  }

  function DropLast<T>(xs: seq<T>, n: nat): seq<T>
    requires n <= |xs|
  {
    xs[..|xs| - n]
  }

  function TakeLast<T>(xs: seq<T>, n: nat): seq<T>
    requires n <= |xs|
  {
    xs[|xs| - n..]
  }

  lemma SharedTailGrows(a: seq<Row>, b: seq<Row>, n: nat)
    requires n < |a| && n < |b|
    requires SameContents(TakeLast(DropLast(a, 1), n), TakeLast(DropLast(b, 1), n))
    requires a[|a| - 1].content == b[|b| - 1].content
    ensures SameContents(TakeLast(a, n + 1), TakeLast(b, n + 1))
    ensures DropLast(DropLast(a, 1), n) == DropLast(a, n + 1) && DropLast(DropLast(b, 1), n) == DropLast(b, n + 1)
  {
    var x, y := TakeLast(a, n + 1), TakeLast(b, n + 1);
    forall i | 0 <= i < n + 1
      ensures x[i].content == y[i].content
    {
      if i < n {
        assert x[i] == TakeLast(DropLast(a, 1), n)[i];
        assert y[i] == TakeLast(DropLast(b, 1), n)[i];
      }
    }
  }

  // Two chains from one genesis value with one end share their last `n` rows' contents, and
  // before those: nothing is left of either, two rows collide, or one chain has run out and the
  // other passes through the genesis value again.
  lemma {:induction false} EqualEnds(f: RowHasher, p: Digest, a: seq<Row>, b: seq<Row>) returns (n: nat)
    requires ChainEnd(f, p, a) == ChainEnd(f, p, b)
    ensures n <= |a| && n <= |b| && SameContents(TakeLast(a, n), TakeLast(b, n))
    ensures || (n == |a| == |b|)
            || LastRowsCollide(f, p, DropLast(a, n), DropLast(b, n))
            || (n == |a| < |b| && ChainEnd(f, p, DropLast(b, n)) == p)
            || (n == |b| < |a| && ChainEnd(f, p, DropLast(a, n)) == p)
  {
    n := 0;
    assert DropLast(a, 0) == a && DropLast(b, 0) == b;
    if a != [] && b != [] && !LastRowsCollide(f, p, a, b) {
      var m := EqualEnds(f, p, DropLast(a, 1), DropLast(b, 1));
      SharedTailGrows(a, b, m);
      n := m + 1;
    }
  }
}
