// The tamper-evident audit log: keyed row hashes over length-prefixed fields, and the writer
// that chains them.
module AuditChain {
  import opened Base
  import opened Bytes
  import opened Crypto
  import opened Hex
  import opened RowChain
  import opened Utf8

  type Hash = Bytes -> Digest

  // ----- the hashed bytes ------------------------------------------------------------

  // "blackbook-audit-row/v1" and a zero byte
  const TAG: Bytes := [98, 108, 97, 99, 107, 98, 111, 111, 107, 45, 97, 117, 100, 105, 116, 45, 114, 111, 119, 47, 118, 49, 0]

  // Two's complement, big-endian.
  function I64Bytes(x: i64): Bytes {
    BigEndian(8, if x < 0 then x + U64_LIMIT else x)
  }

  function WriteReq(s: Bytes): Bytes {
    LenPrefixed(s)
  }

  // None is written as the length 2^32 - 1 with nothing after it.
  function WriteOpt(s: Option<Bytes>): Bytes {
    match s
    case None => BigEndian(4, U32_LIMIT - 1)
    case Some(b) => WriteReq(b)
  }

  function FieldBytes(c: Content): Bytes {
    WriteOpt(c.clientId) + (WriteReq(c.action) + (WriteOpt(c.resource) + (WriteReq(c.status) + WriteOpt(c.message))))
  }

  function RowBytes(key: Bytes, prev: Digest, c: Content): Bytes {
    TAG + U32(|key|) + key + prev + I64Bytes(c.tsMicros) + FieldBytes(c)
  }

  function RowHash(h: Hash, key: Bytes, prev: Digest, c: Content): Digest {
    h(RowBytes(key, prev, c))
  }

  ghost predicate OptEncodable(s: Option<Bytes>) {
    s.Some? ==> |s.value| < U32_LIMIT - 1
  }

  // Fields whose length fits its 32-bit prefix and is not the mark for None.
  ghost predicate Encodable(c: Content) {
    && OptEncodable(c.clientId) && Short(c.action) && OptEncodable(c.resource)
    && Short(c.status) && OptEncodable(c.message)
  }

  lemma I64Injective(x: i64, y: i64)
    requires I64Bytes(x) == I64Bytes(y)
    ensures x == y
  {
    Pow256Values();
    BigEndianInjective(8, if x < 0 then x + U64_LIMIT else x, if y < 0 then y + U64_LIMIT else y);
  }

  // The length an optional field is written with.
  function OptLength(s: Option<Bytes>): nat {
    if s.None? then U32_LIMIT - 1 else |s.value|
  }

  lemma OptStartsWithLength(s: Option<Bytes>, x: Bytes)
    requires OptEncodable(s)
    ensures |WriteOpt(s)| >= 4 && (WriteOpt(s) + x)[..4] == BigEndian(4, OptLength(s))
    ensures OptLength(s) < Pow256(4)
  {
    Pow256Values();
    assert (WriteOpt(s) + x)[..4] == WriteOpt(s)[..4];
  }

  lemma OptPrefixFree(a: Option<Bytes>, x: Bytes, b: Option<Bytes>, y: Bytes)
    requires OptEncodable(a) && OptEncodable(b)
    requires WriteOpt(a) + x == WriteOpt(b) + y
    ensures a == b && x == y
  {
    OptStartsWithLength(a, x);
    OptStartsWithLength(b, y);
    BigEndianInjective(4, OptLength(a), OptLength(b));
    if a.Some? {
      LenPrefixedPrefixFree(a.value, x, b.value, y);
    } else {
      var mark := WriteOpt(None);
      assert (mark + x)[|mark|..] == x && (mark + y)[|mark|..] == y;
    }
  }

  lemma FieldsOfContentInjective(c: Content, d: Content)
    requires Encodable(c) && Encodable(d) && FieldBytes(c) == FieldBytes(d)
    ensures c == d.(tsMicros := c.tsMicros)
  {
    OptPrefixFree(c.clientId, WriteReq(c.action) + (WriteOpt(c.resource) + (WriteReq(c.status) + WriteOpt(c.message))),
                  d.clientId, WriteReq(d.action) + (WriteOpt(d.resource) + (WriteReq(d.status) + WriteOpt(d.message))));
    LenPrefixedPrefixFree(c.action, WriteOpt(c.resource) + (WriteReq(c.status) + WriteOpt(c.message)),
                          d.action, WriteOpt(d.resource) + (WriteReq(d.status) + WriteOpt(d.message)));
    OptPrefixFree(c.resource, WriteReq(c.status) + WriteOpt(c.message), d.resource, WriteReq(d.status) + WriteOpt(d.message));
    LenPrefixedPrefixFree(c.status, WriteOpt(c.message), d.status, WriteOpt(d.message));
    assert WriteOpt(c.message) + [] == WriteOpt(c.message) && WriteOpt(d.message) + [] == WriteOpt(d.message);
    OptPrefixFree(c.message, [], d.message, []);
  }

  // The hashed bytes carry the key: whatever else they are, rows under different keys have
  // different bytes.
  lemma RowBytesNameTheKey(k: Bytes, p: Digest, c: Content, l: Bytes, q: Digest, d: Content)
    requires Short(k) && Short(l) && RowBytes(k, p, c) == RowBytes(l, q, d)
    ensures k == l && p + I64Bytes(c.tsMicros) + FieldBytes(c) == q + I64Bytes(d.tsMicros) + FieldBytes(d)
  {
    var x, y := p + I64Bytes(c.tsMicros) + FieldBytes(c), q + I64Bytes(d.tsMicros) + FieldBytes(d);
    assert RowBytes(k, p, c)[|TAG|..] == LenPrefixed(k) + x && RowBytes(l, q, d)[|TAG|..] == LenPrefixed(l) + y;
    LenPrefixedPrefixFree(k, x, l, y);
  }

  // They start with a label of their own, so bytes made for another purpose are not a row's.
  lemma RowsAreLabelled(key: Bytes, prev: Digest, c: Content, other: Bytes)
    requires !(TAG <= other)
    ensures RowBytes(key, prev, c) != other
  {
    assert RowBytes(key, prev, c)[..|TAG|] == TAG;
  }

  // Distinct triples of key, previous hash and fields are hashed as distinct bytes.
  lemma RowBytesInjective(k: Bytes, p: Digest, c: Content, l: Bytes, q: Digest, d: Content)
    requires Short(k) && Short(l) && Encodable(c) && Encodable(d)
    requires RowBytes(k, p, c) == RowBytes(l, q, d)
    ensures k == l && p == q && c == d
  {
    RowBytesNameTheKey(k, p, c, l, q, d);
    var x, y := p + I64Bytes(c.tsMicros) + FieldBytes(c), q + I64Bytes(d.tsMicros) + FieldBytes(d);
    assert x[..32] == p && y[..32] == q;
    assert x[32..40] == I64Bytes(c.tsMicros) && y[32..40] == I64Bytes(d.tsMicros);
    assert x[40..] == FieldBytes(c) && y[40..] == FieldBytes(d);
    I64Injective(c.tsMicros, d.tsMicros);
    FieldsOfContentInjective(c, d);
  }

  // Under one key its length does not matter.
  lemma SameKeyInjective(key: Bytes, p: Digest, c: Content, q: Digest, d: Content)
    requires Encodable(c) && Encodable(d) && RowBytes(key, p, c) == RowBytes(key, q, d)
    ensures p == q && c == d
  {
    var n := |TAG + U32(|key|) + key|;
    var l, r := RowBytes(key, p, c), RowBytes(key, q, d);
    assert l[n..n + 32] == p && r[n..n + 32] == q;
    assert l[n + 32..n + 40] == I64Bytes(c.tsMicros) && r[n + 32..n + 40] == I64Bytes(d.tsMicros);
    assert l[n + 40..] == FieldBytes(c) && r[n + 40..] == FieldBytes(d);
    I64Injective(c.tsMicros, d.tsMicros);
    FieldsOfContentInjective(c, d);
  }

  // The bound is needed: a field of 2^32 bytes is written with length zero, and two different
  // rows then have the same bytes under every key.
  lemma OversizedFieldsAreAmbiguous(key: Bytes, prev: Digest, ts: i64)
    ensures var z: Bytes := seq(U32_LIMIT, _ => 0);
            var c := Content(ts, None, [], Some(z), [], None);
            var d := Content(ts, None, z, Some([]), [], None);
            c != d && RowBytes(key, prev, c) == RowBytes(key, prev, d)
  {
    var z: Bytes := seq(U32_LIMIT, _ => 0);
    assert U32(0) == BigEndian(4, 0) == [0, 0, 0, 0] == U32(U32_LIMIT);
    var tail := WriteReq([]) + WriteOpt(None);
    assert WriteReq([]) + (WriteOpt(Some(z)) + tail) == WriteReq(z) + (WriteOpt(Some([])) + tail);
  }

  ghost predicate OptBelow(s: Option<Bytes>, limit: nat) {
    s.Some? ==> |s.value| < limit
  }

  ghost predicate FieldsBelow(c: Content, limit: nat) {
    && OptBelow(c.clientId, limit) && |c.action| < limit && OptBelow(c.resource, limit)
    && |c.status| < limit && OptBelow(c.message, limit)
  }

  ghost predicate OptAscii(s: Option<Bytes>) {
    s.Some? ==> Ascii(s.value)
  }

  ghost predicate AllAscii(c: Content) {
    OptAscii(c.clientId) && Ascii(c.action) && OptAscii(c.resource) && Ascii(c.status) && OptAscii(c.message)
  }

  ghost predicate OptText(s: Option<Bytes>) {
    s.Some? ==> IsUtf8(s.value)
  }

  // The rows there are: every field is a text.
  ghost predicate AllText(c: Content) {
    OptText(c.clientId) && IsUtf8(c.action) && OptText(c.resource) && IsUtf8(c.status) && OptText(c.message)
  }

  lemma AllAsciiIsText(c: Content)
    requires AllAscii(c)
    ensures AllText(c)
  {
    AsciiIsUtf8(c.action);
    AsciiIsUtf8(c.status);
    OptAsciiIsText(c.clientId);
    OptAsciiIsText(c.resource);
    OptAsciiIsText(c.message);
  }

  lemma OptAsciiIsText(s: Option<Bytes>)
    requires OptAscii(s)
    ensures OptText(s)
  {
    if s.Some? {
      AsciiIsUtf8(s.value);
    }
  }

  // ----- the longest unambiguous field -----------------------------------------------

  function NulBytes(n: nat): (b: Bytes)
    ensures |b| == n && Ascii(b)
  {
    seq(n, _ => 0)
  }

  // Two lengths whose four bytes are all ASCII; twice the first and the second make 2^32 - 1.
  const LONG := 0x7F7F_7F7F
  const REST := 0x0101_0101

  lemma AsciiLengths()
    ensures Ascii(U32(LONG)) && Ascii(U32(REST)) && Ascii(U32(0))
  {
    assert BigEndian(1, 0x7F) == [0x7F] && BigEndian(2, 0x7F7F) == BigEndian(1, 0x7F) + [0x7F];
    assert BigEndian(3, 0x7F7F7F) == BigEndian(2, 0x7F7F) + [0x7F];
    assert BigEndian(1, 1) == [1] && BigEndian(2, 0x101) == BigEndian(1, 1) + [1];
    assert BigEndian(3, 0x10101) == BigEndian(2, 0x101) + [1];
    assert U32(LONG) == BigEndian(3, 0x7F7F7F) + [0x7F] && U32(REST) == BigEndian(3, 0x10101) + [1];
  }

  // What ends the first row's bytes.
  function RowEnd(status: Bytes): Bytes {
    U32(0) + U32(0) + LenPrefixed(status) + U32(0)
  }

  // A client id that reads as the action, resource, status and half the message of the other row.
  function LongClientId(status: Bytes): Bytes
    requires |status| < 100
  {
    LenPrefixed(NulBytes(LONG)) + LenPrefixed(NulBytes(LONG)) + LenPrefixed(status) + U32(REST)
    + NulBytes(REST - |RowEnd(status)|)
  }

  function PresentRow(ts: i64, status: Bytes): Content
    requires |status| < 100
  {
    Content(ts, Some(LongClientId(status)), [], Some([]), status, Some([]))
  }

  function AbsentRow(ts: i64, status: Bytes): Content
    requires |status| < 100
  {
    Content(ts, None, NulBytes(LONG), Some(NulBytes(LONG)), status, Some(NulBytes(REST - |RowEnd(status)|) + RowEnd(status)))
  }

  lemma LongClientIdLength(status: Bytes)
    requires |status| < 100
    ensures |LongClientId(status)| == 2 * LONG + REST == U32_LIMIT - 1
  {
  }

  lemma EmptyField()
    ensures WriteReq([]) == U32(0) && WriteOpt(Some([])) == U32(0)
  {
  }

  lemma TailJoins(m: Bytes, x: Bytes, a: Bytes, b: Bytes, c: Bytes, d: Bytes)
    ensures (m + x) + (a + (b + (c + d))) == m + (x + (a + b + c + d))
  {
    assert a + (b + (c + d)) == a + b + c + d;
  }

  lemma PresentBytes(ts: i64, status: Bytes)
    requires |status| < 100
    ensures FieldBytes(PresentRow(ts, status)) == U32(U32_LIMIT - 1) + (LongClientId(status) + RowEnd(status))
  {
    LongClientIdLength(status);
    EmptyField();
    TailJoins(U32(U32_LIMIT - 1), LongClientId(status), U32(0), U32(0), LenPrefixed(status), U32(0));
  }

  lemma HeadJoins(a: Bytes, b: Bytes, c: Bytes, d: Bytes, h: Bytes, e: Bytes)
    ensures a + (b + (c + (d + (h + e)))) == (a + b + c + d + h) + e
  {
    assert a + (b + (c + (d + h))) == a + b + c + d + h;
    assert d + (h + e) == d + h + e;
    assert c + (d + h + e) == c + (d + h) + e;
    assert b + (c + (d + h) + e) == b + (c + (d + h)) + e;
    assert a + (b + (c + (d + h)) + e) == a + (b + (c + (d + h))) + e;
  }

  lemma MessageBytes(status: Bytes)
    requires |status| < 100
    ensures var half := NulBytes(REST - |RowEnd(status)|);
            WriteOpt(Some(half + RowEnd(status))) == U32(REST) + (half + RowEnd(status))
  {
  }

  lemma AbsentBytes(ts: i64, status: Bytes)
    requires |status| < 100
    ensures FieldBytes(AbsentRow(ts, status)) == U32(U32_LIMIT - 1) + (LongClientId(status) + RowEnd(status))
  {
    var z, half := LenPrefixed(NulBytes(LONG)), NulBytes(REST - |RowEnd(status)|);
    MessageBytes(status);
    NoneBytes();
    HeadJoins(z, z, LenPrefixed(status), U32(REST), half, RowEnd(status));
  }

  lemma NoneBytes()
    ensures WriteOpt(None) == U32(U32_LIMIT - 1)
  {
  }

  // One byte less is enough where a field may be absent: an optional field of 2^32 - 1 bytes is
  // written with the length that marks an absent one. Two ASCII rows, with any short status, have
  // the same bytes under every key.
  lemma LongestFieldIsAmbiguous(key: Bytes, prev: Digest, ts: i64, status: Bytes)
    requires |status| < 100 && Ascii(status)
    ensures var c, d := PresentRow(ts, status), AbsentRow(ts, status);
            && c != d && RowBytes(key, prev, c) == RowBytes(key, prev, d)
            && AllAscii(c) && AllAscii(d) && FieldsBelow(c, U32_LIMIT) && FieldsBelow(d, U32_LIMIT)
  {
    PresentBytes(ts, status);
    AbsentBytes(ts, status);
    PresentIsAscii(status);
    AbsentIsAscii(status);
  }

  lemma StatusLengthIsAscii(status: Bytes)
    requires |status| < 100
    ensures Ascii(U32(|status|))
  {
    assert BigEndian(4, |status|) == BigEndian(3, 0) + [|status|] == [0, 0, 0, |status|];
  }

  lemma PresentIsAscii(status: Bytes)
    requires |status| < 100 && Ascii(status)
    ensures Ascii(LongClientId(status))
  {
    AsciiLengths();
    StatusLengthIsAscii(status);
  }

  lemma AbsentIsAscii(status: Bytes)
    requires |status| < 100 && Ascii(status)
    ensures Ascii(NulBytes(REST - |RowEnd(status)|) + RowEnd(status))
  {
    AsciiLengths();
    StatusLengthIsAscii(status);
  }

  // Rows with all fields shorter than `limit`, and the keys they are hashed under, are determined
  // by the bytes hashed for them.
  ghost predicate DeterminedBelow(limit: nat) {
    forall k: Bytes, p: Digest, c: Content, l: Bytes, q: Digest, d: Content ::
      Short(k) && Short(l) && FieldsBelow(c, limit) && FieldsBelow(d, limit) && RowBytes(k, p, c) == RowBytes(l, q, d)
      ==> k == l && p == q && c == d
  }

  // The same of rows whose fields are texts.
  ghost predicate TextDeterminedBelow(limit: nat) {
    forall k: Bytes, p: Digest, c: Content, l: Bytes, q: Digest, d: Content ::
      Short(k) && Short(l) && FieldsBelow(c, limit) && FieldsBelow(d, limit) && AllText(c) && AllText(d)
      && RowBytes(k, p, c) == RowBytes(l, q, d)
      ==> k == l && p == q && c == d
  }

  // Both are so for exactly the limits up to 2^32 - 1.
  lemma DeterminedExactlyBelow(limit: nat)
    ensures DeterminedBelow(limit) <==> limit <= U32_LIMIT - 1
    ensures TextDeterminedBelow(limit) <==> limit <= U32_LIMIT - 1
  {
    if limit <= U32_LIMIT - 1 {
      forall k: Bytes, p: Digest, c: Content, l: Bytes, q: Digest, d: Content
        | Short(k) && Short(l) && FieldsBelow(c, limit) && FieldsBelow(d, limit) && RowBytes(k, p, c) == RowBytes(l, q, d)
        ensures k == l && p == q && c == d
      {
        RowBytesInjective(k, p, c, l, q, d);
      }
    } else {
      AmbiguousBelow(limit);
    }
  }

  lemma OnePairSuffices(limit: nat, p: Digest, c: Content, d: Content)
    requires c != d && RowBytes([], p, c) == RowBytes([], p, d) && AllText(c) && AllText(d)
    requires limit >= U32_LIMIT && FieldsBelow(c, U32_LIMIT) && FieldsBelow(d, U32_LIMIT)
    ensures !TextDeterminedBelow(limit) && !DeterminedBelow(limit)
  {
    assert FieldsBelow(c, limit) && FieldsBelow(d, limit);
  }

  // With the status of a successful action.
  lemma AmbiguousBelow(limit: nat)
    requires limit > U32_LIMIT - 1
    ensures !TextDeterminedBelow(limit) && !DeterminedBelow(limit)
  {
    var ok: Bytes := [111, 107];
    LongestFieldIsAmbiguous([], NulBytes(32), 0, ok);
    AllAsciiIsText(PresentRow(0, ok));
    AllAsciiIsText(AbsentRow(0, ok));
    OnePairSuffices(limit, NulBytes(32), PresentRow(0, ok), AbsentRow(0, ok));
  }

  // The row hash as a function of what varies from row to row.
  function Hasher(h: Hash, key: Bytes): RowHasher {
    (prev, c) => RowHash(h, key, prev, c)
  }

  // ----- the writer ------------------------------------------------------------------

  function Zeros(): Digest {
    seq(32, _ => 0)
  }

  // What the writer continues from: the last stored row hash, or zeros when there is none.
  function PrevOf(rows: seq<Row>): Digest {
    if rows == [] then Zeros()
    else match Hex32(rows[|rows| - 1].rowHash)
      case Some(d) => d
      case None => Zeros()
  }

  function NextRow(f: RowHasher, rows: seq<Row>, id: int, c: Content): Row {
    Row(id, c, HexEncode(PrevOf(rows)), HexEncode(f(PrevOf(rows), c)))
  }

  class AuditLog {
    const hash: Hash
    const macKey: Bytes
    var rows: seq<Row>

    constructor (hash: Hash, macKey: Bytes)
      ensures this.hash == hash && this.macKey == macKey && rows == []
    {
      this.hash, this.macKey, rows := hash, macKey, [];
    }

    // Appends one row, unless encrypting a field or the transaction fails: then nothing changes.
    method Audit(id: int, c: Content, encrypted: bool, committed: bool)
      modifies this`rows
      ensures rows == if encrypted && committed then old(rows) + [NextRow(Hasher(hash, macKey), old(rows), id, c)] else old(rows)
      ensures old(Chained(Hasher(hash, macKey), Zeros(), rows)) ==> Chained(Hasher(hash, macKey), Zeros(), rows)
    {
      if !encrypted {
        return;
      }
      var prev := Zeros();
      if rows != [] {
        var stored := Hex32(rows[|rows| - 1].rowHash);
        if stored.Some? {
          prev := stored.value;
        }
      }
      var row := Row(id, c, HexEncode(prev), HexEncode(Hasher(hash, macKey)(prev, c)));
      if committed {
        NextRowChains(Hasher(hash, macKey), rows, id, c);
        rows := rows + [row];
      }
    }
  }

  lemma PrevIsChainEnd(f: RowHasher, rows: seq<Row>)
    requires Chained(f, Zeros(), rows)
    ensures PrevOf(rows) == ChainEnd(f, Zeros(), rows)
  {
    if rows != [] {
      Hex32RoundTrip(ChainEnd(f, Zeros(), rows));
    }
  }

  lemma NextRowChains(f: RowHasher, rows: seq<Row>, id: int, c: Content)
    ensures Chained(f, Zeros(), rows) ==> Chained(f, Zeros(), rows + [NextRow(f, rows, id, c)])
  {
    if Chained(f, Zeros(), rows) {
      PrevIsChainEnd(f, rows);
      ChainSnoc(f, Zeros(), rows, NextRow(f, rows, id, c));
    }
  }

  function WriteOne(f: RowHasher, rows: seq<Row>, w: (int, Content)): seq<Row> {
    rows + [NextRow(f, rows, w.0, w.1)]
  }

  // The rows left by any sequence of writes, an id and its fields each, to an empty log.
  function Written(f: RowHasher, writes: seq<(int, Content)>): seq<Row> {
    if writes == [] then []
    else WriteOne(f, Written(f, writes[..|writes| - 1]), writes[|writes| - 1])
  }

  lemma {:induction false} WrittenIsChained(f: RowHasher, writes: seq<(int, Content)>)
    ensures Chained(f, Zeros(), Written(f, writes))
    ensures |Written(f, writes)| == |writes|
  {
    if writes != [] {
      var last := writes[|writes| - 1];
      WrittenIsChained(f, writes[..|writes| - 1]);
      NextRowChains(f, Written(f, writes[..|writes| - 1]), last.0, last.1);
    }
  }

  lemma WriteOneAppends(f: RowHasher, rows: seq<Row>, w: (int, Content))
    ensures WriteOne(f, rows, w)[..|rows|] == rows
    ensures |WriteOne(f, rows, w)| == |rows| + 1
    ensures WriteOne(f, rows, w)[|rows|].id == w.0 && WriteOne(f, rows, w)[|rows|].content == w.1
  {
  }

  // The rows hold what was written, in order.
  lemma {:induction false} WrittenHoldsTheWrites(f: RowHasher, writes: seq<(int, Content)>)
    ensures |Written(f, writes)| == |writes|
    ensures forall i :: 0 <= i < |writes| ==>
      Written(f, writes)[i].id == writes[i].0 && Written(f, writes)[i].content == writes[i].1
  {
    if writes != [] {
      var init, last := writes[..|writes| - 1], writes[|writes| - 1];
      var before, after := Written(f, init), Written(f, writes);
      WrittenHoldsTheWrites(f, init);
      WriteOneAppends(f, before, last);
      forall i | 0 <= i < |writes|
        ensures after[i].id == writes[i].0 && after[i].content == writes[i].1
      {
        if i < |init| {
          assert after[i] == after[..|before|][i] == before[i];
          assert writes[i] == init[i];
        }
      }
    }
  }
}
