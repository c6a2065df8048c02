// The client-side envelope's binary format, versions 1 and 2.
module Envelope {
  import opened Base
  import opened Bytes

  const V1: byte := 1
  const V2: byte := 2
  const MODE_CMK: byte := 0
  const MODE_ARGON2: byte := 1

  // Memory, time and parallelism.
  datatype Costs = Costs(m: u32, t: u32, p: u32)

  datatype ExtEnvelope = ExtEnvelope(
    version: byte,
    mode: byte,
    salt: Bytes,
    costs: Costs,
    wrappedDek: Bytes,
    ciphertext: Bytes)

  datatype DecodeError = Malformed

  function CostBytes(c: Costs): Bytes {
    BigEndian(4, c.m) + BigEndian(4, c.t) + BigEndian(4, c.p)
  }

  // Salt with a one-byte length, wrapped key with a four-byte length, then the ciphertext: both
  // lengths are cast down and wrap around.
  function Body(salt: Bytes, wrappedDek: Bytes, ciphertext: Bytes): Bytes {
    [|salt| % 256] + salt + U32(|wrappedDek|) + wrappedDek + ciphertext
  }

  function EncodedV2(mode: byte, salt: Bytes, costs: Costs, wrappedDek: Bytes, ciphertext: Bytes): Bytes {
    [V2, mode] + CostBytes(costs) + Body(salt, wrappedDek, ciphertext)
  }

  method ExtEncodeV2(mode: byte, salt: Bytes, costs: Costs, wrappedDek: Bytes, ciphertext: Bytes) returns (out: Bytes)
    ensures out == EncodedV2(mode, salt, costs, wrappedDek, ciphertext)
  {
    out := [];
    out := out + [V2];
    out := out + [mode];
    out := out + BigEndian(4, costs.m);
    out := out + BigEndian(4, costs.t);
    out := out + BigEndian(4, costs.p);
    assert out == [V2, mode] + CostBytes(costs);
    AppendingBody(out, salt, wrappedDek, ciphertext);
    out := out + [|salt| % 256];
    out := out + salt;
    out := out + U32(|wrappedDek|);
    out := out + wrappedDek;
    out := out + ciphertext;
  }

  lemma AppendingBody(head: Bytes, salt: Bytes, w: Bytes, ct: Bytes)
    ensures head + [|salt| % 256] + salt + U32(|w|) + w + ct == head + Body(salt, w, ct)
  {
    var body: Bytes := [|salt| % 256];
    assert head + (body + salt) == head + body + salt;
    body := body + salt;
    assert head + (body + U32(|w|)) == head + body + U32(|w|);
    body := body + U32(|w|);
    assert head + (body + w) == head + body + w;
    body := body + w;
    assert head + (body + ct) == head + body + ct;
  }

  // ----- decoding --------------------------------------------------------------------

  function U32At(buf: Bytes, p: nat): u32
    requires p + 4 <= |buf|
  {
    Pow256Values();
    BigEndianOfBytes(buf[p..p + 4]);
    FromBigEndian(buf[p..p + 4])
  }

  // The body that starts at `p`: salt, wrapped key, ciphertext.
  function BodyAt(buf: Bytes, p: nat): Option<(Bytes, Bytes, Bytes)>
    requires p < |buf|
  {
    var slen := buf[p];
    if |buf| < p + 1 + slen + 4 then None
    else
      var q := p + 1 + slen;
      var wlen := U32At(buf, q);
      if |buf| < q + 4 + wlen then None
      else Some((buf[p + 1..q], buf[q + 4..q + 4 + wlen], buf[q + 4 + wlen..]))
  }

  function Decoded(buf: Bytes): Result<ExtEnvelope, DecodeError> {
    if buf == [] then Err(Malformed)
    else if buf[0] == V1 && |buf| >= 2 then
      match BodyAt(buf, 1)
      case None => Err(Malformed)
      case Some((salt, w, ct)) => Ok(ExtEnvelope(V1, MODE_ARGON2, salt, Costs(0, 0, 0), w, ct))
    else if buf[0] == V2 && |buf| >= 15 then
      match BodyAt(buf, 14)
      case None => Err(Malformed)
      case Some((salt, w, ct)) =>
        Ok(ExtEnvelope(V2, buf[1], salt, Costs(U32At(buf, 2), U32At(buf, 6), U32At(buf, 10)), w, ct))
    else Err(Malformed)
  }

  // The cursor never leaves the buffer, whatever the bytes.
  method ExtDecode(buf: Bytes) returns (r: Result<ExtEnvelope, DecodeError>)
    ensures r == Decoded(buf)
  {
    if |buf| == 0 {
      return Err(Malformed);
    }
    var version, mode, costs := buf[0], MODE_ARGON2, Costs(0, 0, 0);
    var p: nat := 1;
    if version == V1 {
      if |buf| < 2 {
        return Err(Malformed);
      }
    } else if version == V2 {
      if |buf| < 2 + 12 + 1 {
        return Err(Malformed);
      }
      mode := buf[p];
      p := p + 1;
      var m := U32At(buf, p);
      p := p + 4;
      var t := U32At(buf, p);
      p := p + 4;
      var pc := U32At(buf, p);
      p := p + 4;
      costs := Costs(m, t, pc);
    } else {
      return Err(Malformed);
    }
    var slen: nat := buf[p];
    p := p + 1;
    if |buf| < p + slen + 4 {
      return Err(Malformed);
    }
    var salt := buf[p..p + slen];
    p := p + slen;
    var wlen := U32At(buf, p);
    p := p + 4;
    if |buf| < p + wlen {
      return Err(Malformed);
    }
    var wrapped := buf[p..p + wlen];
    p := p + wlen;
    return Ok(ExtEnvelope(version, mode, salt, costs, wrapped, buf[p..]));
  }

  // ----- encoder and decoder ---------------------------------------------------------

  lemma U32AtOf(pre: Bytes, n: nat, post: Bytes)
    ensures U32At(pre + U32(n) + post, |pre|) == n % U32_LIMIT
  {
    assert (pre + U32(n) + post)[|pre|..|pre| + 4] == U32(n);
    U32RoundTrip(n);
  }

  // A body reads back as written exactly when both lengths fit their prefixes.
  lemma BodyRoundTrip(pre: Bytes, salt: Bytes, w: Bytes, ct: Bytes)
    ensures BodyAt(pre + Body(salt, w, ct), |pre|) == Some((salt, w, ct)) <==> |salt| < 256 && |w| < U32_LIMIT
  {
    if |salt| < 256 {
      ShortSaltReadsBack(pre, salt, w, ct);
      if |w| < U32_LIMIT {
        assert (w + ct)[..|w|] == w && (w + ct)[|w|..] == ct;
      }
    } else {
      LongSaltIsCut(pre, salt, w, ct);
    }
  }

  lemma LongSaltIsCut(pre: Bytes, salt: Bytes, w: Bytes, ct: Bytes)
    requires |salt| >= 256
    ensures var r := BodyAt(pre + Body(salt, w, ct), |pre|);
            r.Some? ==> |r.value.0| < |salt|
  {
    assert (pre + Body(salt, w, ct))[|pre|] == |salt| % 256;
  }

  // The wrapped key as read, cut to its length modulo 2^32.
  lemma ShortSaltReadsBack(pre: Bytes, salt: Bytes, w: Bytes, ct: Bytes)
    requires |salt| < 256
    ensures var n := |w| % U32_LIMIT;
            BodyAt(pre + Body(salt, w, ct), |pre|) == Some((salt, (w + ct)[..n], (w + ct)[n..]))
  {
    var head, tail, n := pre + [|salt|] + salt, w + ct, |w| % U32_LIMIT;
    var buf := head + U32(|w|) + tail;
    assert pre + Body(salt, w, ct) == buf;
    assert buf[|pre|] == |salt| && buf[|pre| + 1..|head|] == salt;
    U32AtOf(head, |w|, tail);
    assert buf[|head| + 4..|head| + 4 + n] == tail[..n] && buf[|head| + 4 + n..] == tail[n..];
  }

  // The decoder inverts the encoder on exactly the salts under 256 bytes and wrapped keys
  // under 2^32 bytes.
  lemma RoundTripExactly(mode: byte, salt: Bytes, costs: Costs, w: Bytes, ct: Bytes)
    ensures Decoded(EncodedV2(mode, salt, costs, w, ct)) == Ok(ExtEnvelope(V2, mode, salt, costs, w, ct))
            <==> |salt| < 256 && |w| < U32_LIMIT
  {
    var pre := [V2, mode] + CostBytes(costs);
    var buf := EncodedV2(mode, salt, costs, w, ct);
    BodyRoundTrip(pre, salt, w, ct);
    Pow256Values();
    assert buf[2..6] == BigEndian(4, costs.m) && buf[6..10] == BigEndian(4, costs.t) && buf[10..14] == BigEndian(4, costs.p);
    BigEndianRoundTrip(4, costs.m);
    BigEndianRoundTrip(4, costs.t);
    BigEndianRoundTrip(4, costs.p);
  }

  lemma BodyIsExact(buf: Bytes, p: nat)
    requires p < |buf| && BodyAt(buf, p).Some?
    ensures var (salt, w, ct) := BodyAt(buf, p).value;
            buf == buf[..p] + Body(salt, w, ct) && |salt| < 256 && |w| < U32_LIMIT
  {
    var (salt, w, ct) := BodyAt(buf, p).value;
    var q := p + 1 + |salt|;
    LengthIsExact(buf, q);
    BodyOfPieces(buf, p, q, q + 4 + |w|);
  }

  lemma BodyOfPieces(buf: Bytes, p: nat, q: nat, r: nat)
    requires p < q && q + 4 <= r <= |buf|
    requires buf[p] == q - (p + 1) && buf[q..q + 4] == U32(r - (q + 4))
    ensures buf[..p] + Body(buf[p + 1..q], buf[q + 4..r], buf[r..]) == buf
  {
    AppendingBody(buf[..p], buf[p + 1..q], buf[q + 4..r], buf[r..]);
    Pieces(buf, p, q, r);
  }

  lemma LengthIsExact(buf: Bytes, q: nat)
    requires q + 4 <= |buf|
    ensures U32(U32At(buf, q)) == buf[q..q + 4]
  {
    BigEndianOfBytes(buf[q..q + 4]);
  }

  lemma Pieces(buf: Bytes, p: nat, q: nat, r: nat)
    requires p < q && q + 4 <= r <= |buf|
    ensures buf[..p] + [buf[p]] + buf[p + 1..q] + buf[q..q + 4] + buf[q + 4..r] + buf[r..] == buf
  {
    assert buf[..p] + [buf[p]] == buf[..p + 1];
    assert buf[..p + 1] + buf[p + 1..q] == buf[..q];
    assert buf[..q] + buf[q..q + 4] == buf[..q + 4];
    assert buf[..q + 4] + buf[q + 4..r] == buf[..r];
  }

  // Every accepted version 2 buffer is the encoding of what it was decoded to.
  lemma AcceptedReencodes(buf: Bytes)
    requires Decoded(buf).Ok? && buf[0] == V2
    ensures var e := Decoded(buf).value;
            e.version == V2 && EncodedV2(e.mode, e.salt, e.costs, e.wrappedDek, e.ciphertext) == buf
  {
    BodyIsExact(buf, 14);
    BigEndianOfBytes(buf[2..6]);
    BigEndianOfBytes(buf[6..10]);
    BigEndianOfBytes(buf[10..14]);
    assert buf[..14] == [V2, buf[1]] + (buf[2..6] + buf[6..10] + buf[10..14]);
  }

  // The older layout: no mode and no costs.
  lemma LegacyRoundTrip(salt: Bytes, w: Bytes, ct: Bytes)
    requires |salt| < 256 && |w| < U32_LIMIT
    ensures Decoded([V1] + Body(salt, w, ct)) == Ok(ExtEnvelope(V1, MODE_ARGON2, salt, Costs(0, 0, 0), w, ct))
  {
    BodyRoundTrip([V1], salt, w, ct);
  }

  // A header sealed with no ciphertext, followed by the ciphertext, is the whole envelope.
  lemma HeaderThenCiphertext(mode: byte, salt: Bytes, costs: Costs, w: Bytes, ct: Bytes)
    ensures EncodedV2(mode, salt, costs, w, []) + ct == EncodedV2(mode, salt, costs, w, ct)
  {
  }

  // Version 1 buffers too are accepted only as written, and no other version is.
  lemma DecodedExactly(buf: Bytes, e: ExtEnvelope)
    ensures Decoded(buf) == Ok(e)
            <==> && |e.salt| < 256 && |e.wrappedDek| < U32_LIMIT
                 && ((e.version == V2 && buf == EncodedV2(e.mode, e.salt, e.costs, e.wrappedDek, e.ciphertext))
                     || (e.version == V1 && e.mode == MODE_ARGON2 && e.costs == Costs(0, 0, 0)
                         && buf == [V1] + Body(e.salt, e.wrappedDek, e.ciphertext)))
  {
    if Decoded(buf) == Ok(e) {
      if buf[0] == V2 {
        AcceptedReencodes(buf);
        BodyIsExact(buf, 14);
      } else {
        BodyIsExact(buf, 1);
        assert buf[..1] == [V1];
      }
    }
    if |e.salt| < 256 && |e.wrappedDek| < U32_LIMIT {
      RoundTripExactly(e.mode, e.salt, e.costs, e.wrappedDek, e.ciphertext);
      LegacyRoundTrip(e.salt, e.wrappedDek, e.ciphertext);
    }
  }
}
