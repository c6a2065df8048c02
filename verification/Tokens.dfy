// Compact signed tokens: the claims a server puts in, the text it makes, and when that text is
// accepted (RFC 7515 compact form, RFC 7519 time claims).
module Tokens {
  import opened Base
  import opened Bytes
  import opened Text

  const MAX_TTL_SECS := 10 * 365 * 24 * 3600
  const LEEWAY_SECS := 60
  const I64_LIMIT := 0x8000_0000_0000_0000

  datatype Value = Null | Bool(b: bool) | Num(n: int) | Str(s: string) | Arr(items: seq<Value>) | Obj(fields: map<string, Value>)

  type Claims = map<string, Value>

  datatype Alg = EdDSA | HS256

  function AlgName(a: Alg): string {
    match a
    case EdDSA => "EdDSA"
    case HS256 => "HS256"
  }

  // JSON, unpadded URL-safe base64, and the two signature schemes.
  datatype Suite = Suite(
    show: Value -> Bytes,
    parse: Bytes -> Option<Value>,
    encode: Bytes -> string,
    decode: string -> Option<Bytes>,
    sign: (Alg, Bytes, string) -> Option<Bytes>,
    verify: (Alg, Bytes, string, Bytes) -> bool)

  // Neither a separator nor white space.
  predicate Plain(t: string) {
    forall i :: 0 <= i < |t| ==> t[i] != '.' && !IsSpace(t[i])
  }

  ghost predicate Faithful(s: Suite) {
    && (forall v: Value :: s.show(v) != [] && s.parse(s.show(v)) == Some(v))
    && (forall b: Bytes :: s.decode(s.encode(b)) == Some(b) && (s.encode(b) == "" <==> b == []))
    && (forall b: Bytes :: Plain(s.encode(b)))
  }

  ghost predicate KeyPair(s: Suite, alg: Alg, signKey: Bytes, verifyKey: Bytes) {
    forall m: string :: s.sign(alg, signKey, m).Some? ==> s.verify(alg, verifyKey, m, s.sign(alg, signKey, m).value)
  }

  // ----- claims ----------------------------------------------------------------------

  datatype Request = Request(
    claims: Claims,
    subject: Option<string>,
    audience: Option<string>,
    issuer: Option<string>,
    ttl: int,
    notBefore: Option<int>)

  datatype Error =
    | BadTtl
    | NegativeOffset
    | SigningFailed
    | MalformedToken
    | AlgorithmMismatch
    | BadSignature
    | MalformedClaim
    | Expired
    | NotYetValid
    | AudienceMismatch

  function WithText(c: Claims, name: string, v: Option<string>): Claims {
    match v
    case None => c
    case Some(s) => c[name := Str(s)]
  }

  function ClaimsFor(req: Request, now: int, jti: string): Result<Claims, Error> {
    if req.ttl < 1 || req.ttl > MAX_TTL_SECS then Err(BadTtl)
    else
      var named := WithText(WithText(WithText(req.claims, "sub", req.subject), "aud", req.audience), "iss", req.issuer);
      var timed := named["iat" := Num(now)]["exp" := Num(now + req.ttl)];
      match req.notBefore
      case None => Ok((timed - {"nbf"})["jti" := Str(jti)])
      case Some(n) => if n < 0 then Err(NegativeOffset) else Ok(timed["nbf" := Num(now + n)]["jti" := Str(jti)])
  }

  // Reserved claims are set here, whatever the caller's own claims say.
  method TokenClaims(req: Request, now: int, jti: string) returns (r: Result<Claims, Error>)
    ensures r == ClaimsFor(req, now, jti)
    ensures r.Ok? ==> && "exp" in r.value && r.value["exp"] == Num(now + req.ttl)
                      && "iat" in r.value && r.value["iat"] == Num(now)
                      && ("nbf" in r.value <==> req.notBefore.Some?)
                      && (req.notBefore.Some? ==> r.value["nbf"] == Num(now + req.notBefore.value))
  {
    if req.ttl < 1 || req.ttl > MAX_TTL_SECS {
      return Err(BadTtl);
    }
    var c := req.claims;
    if req.subject.Some? {
      c := c["sub" := Str(req.subject.value)];
    }
    if req.audience.Some? {
      c := c["aud" := Str(req.audience.value)];
    }
    if req.issuer.Some? {
      c := c["iss" := Str(req.issuer.value)];
    }
    c := c["iat" := Num(now)];
    c := c["exp" := Num(now + req.ttl)];
    match req.notBefore {
      case Some(n) =>
        if n < 0 {
          return Err(NegativeOffset);
        }
        c := c["nbf" := Num(now + n)];
      case None =>
        c := c - {"nbf"};
    }
    c := c["jti" := Str(jti)];
    return Ok(c);
  }

  // ----- issuing ---------------------------------------------------------------------

  function Header(alg: Alg, kid: Option<string>): Claims {
    WithText(map["alg" := Str(AlgName(alg)), "typ" := Str("JWT")], "kid", kid)
  }

  function SigningInput(s: Suite, header: Claims, claims: Claims): string {
    s.encode(s.show(Obj(header))) + "." + s.encode(s.show(Obj(claims)))
  }

  function Issue(s: Suite, alg: Alg, key: Bytes, kid: Option<string>, claims: Claims): Result<string, Error> {
    var input := SigningInput(s, Header(alg, kid), claims);
    match s.sign(alg, key, input)
    case None => Err(SigningFailed)
    case Some(sig) => Ok(input + "." + s.encode(sig))
  }

  // ----- verifying -------------------------------------------------------------------

  function Parts(token: string): Result<(string, string, string), Error> {
    var p := Split(Trim(token), '.');
    if |p| == 3 && p[0] != "" && p[1] != "" then Ok((p[0], p[1], p[2])) else Err(MalformedToken)
  }

  function Object(s: Suite, part: string): Result<Claims, Error> {
    match s.decode(part)
    case None => Err(MalformedToken)
    case Some(b) =>
      match s.parse(b)
      case Some(Obj(m)) => Ok(m)
      case _ => Err(MalformedToken)
  }

  // A token's header, nothing verified.
  function TokenHeader(s: Suite, token: string): Result<Claims, Error> {
    match Parts(token)
    case Err(e) => Err(e)
    case Ok((h, _, _)) => Object(s, h)
  }

  function AsI64(v: Value): Option<int> {
    match v
    case Num(n) => if -I64_LIMIT <= n < I64_LIMIT then Some(n) else None
    case _ => None
  }

  function AudienceMatches(c: Claims, want: string): bool {
    "aud" in c &&
    match c["aud"]
    case Str(a) => a == want
    case Arr(items) => Str(want) in items
    case _ => false
  }

  function CheckExpiry(c: Claims, now: int): Option<Error> {
    if "exp" !in c then None
    else match AsI64(c["exp"])
      case None => Some(MalformedClaim)
      case Some(exp) => if now > exp + LEEWAY_SECS then Some(Expired) else None
  }

  function CheckNotBefore(c: Claims, now: int): Option<Error> {
    if "nbf" !in c then None
    else match AsI64(c["nbf"])
      case None => Some(MalformedClaim)
      case Some(nbf) => if now + LEEWAY_SECS < nbf then Some(NotYetValid) else None
  }

  function CheckClaims(c: Claims, now: int, audience: Option<string>): Result<Claims, Error> {
    if CheckExpiry(c, now).Some? then Err(CheckExpiry(c, now).value)
    else if CheckNotBefore(c, now).Some? then Err(CheckNotBefore(c, now).value)
    else if audience.Some? && !AudienceMatches(c, audience.value) then Err(AudienceMismatch)
    else Ok(c)
  }

  // The part of the trimmed token that the signature is checked over.
  function SignedPart(token: string, h: string, p: string): string {
    if |h| + 1 + |p| <= |Trim(token)| then Trim(token)[..|h| + 1 + |p|] else Trim(token)
  }

  function Verify(s: Suite, alg: Alg, key: Bytes, token: string, now: int, audience: Option<string>): Result<Claims, Error> {
    match Parts(token)
    case Err(e) => Err(e)
    case Ok((h, p, sigText)) =>
      match Object(s, h)
      case Err(e) => Err(e)
      case Ok(header) =>
        if !("alg" in header && header["alg"] == Str(AlgName(alg))) then Err(AlgorithmMismatch)
        else match s.decode(sigText)
          case None => Err(MalformedToken)
          case Some(sig) =>
            if !s.verify(alg, key, SignedPart(token, h, p), sig) then Err(BadSignature)
            else match Object(s, p)
              case Err(e) => Err(e)
              case Ok(c) => CheckClaims(c, now, audience)
  }

  // ----- main results ----------------------------------------------------------------

  lemma JoinThree(h: string, p: string, g: string)
    ensures Join([h, p, g], '.') == h + "." + p + "." + g
  {
    var parts := [h, p, g];
    assert parts[1..] == [p, g] && parts[1..][1..] == [g];
    assert Join(parts[1..], '.') == p + "." + g;
    assert h + "." + (p + "." + g) == h + "." + p + "." + g;
  }

  lemma NothingTrimmed(h: string, p: string, g: string)
    requires Plain(h) && Plain(g) && h != ""
    ensures Trim(h + "." + p + "." + g) == h + "." + p + "." + g
  {
    var token := h + "." + p + "." + g;
    assert token[0] == h[0] && token[|token| - 1] == if g == "" then '.' else g[|g| - 1];
    NothingToTrim(token);
  }

  lemma SplitsInThree(h: string, p: string, g: string)
    requires Plain(h) && Plain(p) && Plain(g)
    ensures Split(h + "." + p + "." + g, '.') == [h, p, g]
  {
    JoinThree(h, p, g);
    var parts := [h, p, g];
    assert forall i :: 0 <= i < |parts| ==> Plain(parts[i]);
    SplitJoin(parts, '.');
  }

  lemma ThreeParts(h: string, p: string, g: string)
    requires Plain(h) && Plain(p) && Plain(g) && h != "" && p != ""
    ensures Parts(h + "." + p + "." + g) == Ok((h, p, g))
    ensures SignedPart(h + "." + p + "." + g, h, p) == h + "." + p
  {
    NothingTrimmed(h, p, g);
    SplitsInThree(h, p, g);
  }

  // An issued token splits into exactly what was joined, and what is verified is what was signed.
  lemma IssuedTokenSplits(s: Suite, alg: Alg, key: Bytes, kid: Option<string>, claims: Claims)
    requires Faithful(s) && Issue(s, alg, key, kid, claims).Ok?
    ensures var token := Issue(s, alg, key, kid, claims).value;
            var h, p := s.encode(s.show(Obj(Header(alg, kid)))), s.encode(s.show(Obj(claims)));
            var input := SigningInput(s, Header(alg, kid), claims);
            && Parts(token) == Ok((h, p, s.encode(s.sign(alg, key, input).value)))
            && SignedPart(token, h, p) == input
  {
    var input := SigningInput(s, Header(alg, kid), claims);
    ThreeParts(s.encode(s.show(Obj(Header(alg, kid)))), s.encode(s.show(Obj(claims))), s.encode(s.sign(alg, key, input).value));
  }

  lemma HeaderReadsBack(s: Suite, alg: Alg, key: Bytes, kid: Option<string>, claims: Claims)
    requires Faithful(s) && Issue(s, alg, key, kid, claims).Ok?
    ensures TokenHeader(s, Issue(s, alg, key, kid, claims).value) == Ok(Header(alg, kid))
    ensures kid.Some? ==> Header(alg, kid)["kid"] == Str(kid.value)
  {
    IssuedTokenSplits(s, alg, key, kid, claims);
  }

  // Verifying an issued token comes down to its claims.
  lemma IssuedTokenVerifies(s: Suite, alg: Alg, signKey: Bytes, verifyKey: Bytes, kid: Option<string>, claims: Claims,
                            now: int, audience: Option<string>)
    requires Faithful(s) && KeyPair(s, alg, signKey, verifyKey) && Issue(s, alg, signKey, kid, claims).Ok?
    ensures Verify(s, alg, verifyKey, Issue(s, alg, signKey, kid, claims).value, now, audience)
            == CheckClaims(claims, now, audience)
  {
    IssuedTokenSplits(s, alg, signKey, kid, claims);
    var header := Header(alg, kid);
    assert "alg" in header && header["alg"] == Str(AlgName(alg));
  }

  // A token made at time `issued` is accepted exactly between its two time limits, a minute of
  // leeway at either end, by the audience it names, whatever times the caller asked to embed;
  // and what comes back is what was put in.
  lemma TokenLifetime(s: Suite, alg: Alg, signKey: Bytes, verifyKey: Bytes, kid: Option<string>,
                      req: Request, issued: int, jti: string, now: int, audience: Option<string>)
    requires Faithful(s) && KeyPair(s, alg, signKey, verifyKey)
    requires ClaimsFor(req, issued, jti).Ok?
    requires Issue(s, alg, signKey, kid, ClaimsFor(req, issued, jti).value).Ok?
    requires -I64_LIMIT <= issued && issued + req.ttl + LEEWAY_SECS < I64_LIMIT
    requires req.notBefore.Some? ==> issued + req.notBefore.value < I64_LIMIT
    requires -I64_LIMIT <= now < I64_LIMIT && (req.notBefore.Some? ==> now + LEEWAY_SECS < I64_LIMIT)
    ensures var claims := ClaimsFor(req, issued, jti).value;
            var r := Verify(s, alg, verifyKey, Issue(s, alg, signKey, kid, claims).value, now, audience);
            && (r.Ok? <==> && now <= issued + req.ttl + LEEWAY_SECS
                           && (req.notBefore.Some? ==> now >= issued + req.notBefore.value - LEEWAY_SECS)
                           && (audience.Some? ==> IsFor(claims, audience.value)))
            && (r.Ok? ==> r.value == claims)
            && (req.audience.Some? && audience.Some? ==>
                  (IsFor(claims, audience.value) <==> audience == req.audience))
  {
    var claims := ClaimsFor(req, issued, jti).value;
    IssuedTokenVerifies(s, alg, signKey, verifyKey, kid, claims, now, audience);
    ClaimsLifetime(req, issued, jti, now, audience);
  }

  // The same of the claims alone.
  lemma ClaimsLifetime(req: Request, issued: int, jti: string, now: int, audience: Option<string>)
    requires ClaimsFor(req, issued, jti).Ok?
    requires -I64_LIMIT <= issued && issued + req.ttl + LEEWAY_SECS < I64_LIMIT
    requires req.notBefore.Some? ==> issued + req.notBefore.value < I64_LIMIT
    requires -I64_LIMIT <= now < I64_LIMIT && (req.notBefore.Some? ==> now + LEEWAY_SECS < I64_LIMIT)
    ensures var claims := ClaimsFor(req, issued, jti).value;
            var r := CheckClaims(claims, now, audience);
            && (r.Ok? <==> && now <= issued + req.ttl + LEEWAY_SECS
                           && (req.notBefore.Some? ==> now >= issued + req.notBefore.value - LEEWAY_SECS)
                           && (audience.Some? ==> IsFor(claims, audience.value)))
            && (r.Ok? ==> r.value == claims)
            && (req.audience.Some? && audience.Some? ==>
                  (IsFor(claims, audience.value) <==> audience == req.audience))
  {
    var claims := ClaimsFor(req, issued, jti).value;
    assert claims["exp"] == Num(issued + req.ttl);
    assert "nbf" in claims <==> req.notBefore.Some?;
    if req.audience.Some? {
      assert claims["aud"] == Str(req.audience.value);
    }
  }

  // ----- every token -----------------------------------------------------------------

  // Its three parts, if it has them.
  predicate HasParts(token: string, h: string, p: string, g: string) {
    Split(Trim(token), '.') == [h, p, g] && h != "" && p != ""
  }

  predicate NamesAlg(s: Suite, h: string, alg: Alg) {
    Object(s, h).Ok? && "alg" in Object(s, h).value && Object(s, h).value["alg"] == Str(AlgName(alg))
  }

  // The third part is a signature, by this key, of exactly what comes before the last dot.
  predicate SignedBy(s: Suite, alg: Alg, key: Bytes, h: string, p: string, g: string) {
    s.decode(g).Some? && s.verify(alg, key, h + "." + p, s.decode(g).value)
  }

  // A time claim, if there is one, is a whole number in range.
  predicate IsTime(v: Value) {
    v.Num? && -I64_LIMIT <= v.n < I64_LIMIT
  }

  predicate InTime(c: Claims, now: int) {
    && ("exp" in c ==> IsTime(c["exp"]) && now <= c["exp"].n + LEEWAY_SECS)
    && ("nbf" in c ==> IsTime(c["nbf"]) && c["nbf"].n <= now + LEEWAY_SECS)
  }

  // The audience is named alone or in a list.
  predicate IsFor(c: Claims, want: string) {
    "aud" in c && (c["aud"] == Str(want) || (c["aud"].Arr? && exists i :: 0 <= i < |c["aud"].items| && c["aud"].items[i] == Str(want)))
  }

  lemma PartsMeaning(token: string, h: string, p: string, g: string)
    ensures HasParts(token, h, p, g) <==> Parts(token) == Ok((h, p, g))
    ensures HasParts(token, h, p, g) ==> Trim(token) == h + "." + p + "." + g && SignedPart(token, h, p) == h + "." + p
  {
    if HasParts(token, h, p, g) {
      SplitHasNo(Trim(token), '.');
      JoinThree(h, p, g);
    }
    if Parts(token) == Ok((h, p, g)) {
      var parts := Split(Trim(token), '.');
      assert parts == [parts[0], parts[1], parts[2]];
    }
  }

  lemma ClaimsMeaning(c: Claims, now: int, audience: Option<string>)
    ensures CheckClaims(c, now, audience).Ok? <==> InTime(c, now) && (audience.Some? ==> IsFor(c, audience.value))
    ensures CheckClaims(c, now, audience).Ok? ==> CheckClaims(c, now, audience).value == c
  {
  }

  // Any text is accepted, with claims c, exactly if it has three parts, the first names this
  // algorithm, the third is a signature by this key of all before it, and the second holds c,
  // in time and for the audience.
  lemma AcceptedExactly(s: Suite, alg: Alg, key: Bytes, token: string, now: int, audience: Option<string>, c: Claims)
    ensures Verify(s, alg, key, token, now, audience) == Ok(c)
            <==> exists h, p, g :: HasParts(token, h, p, g) && NamesAlg(s, h, alg) && SignedBy(s, alg, key, h, p, g)
                                   && Object(s, p) == Ok(c) && InTime(c, now)
                                   && (audience.Some? ==> IsFor(c, audience.value))
  {
    ClaimsMeaning(c, now, audience);
    if Parts(token).Ok? {
      var (h, p, g) := Parts(token).value;
      PartsMeaning(token, h, p, g);
      forall h', p', g' | HasParts(token, h', p', g')
        ensures h' == h && p' == p && g' == g
      {
        PartsMeaning(token, h', p', g');
      }
      if Object(s, p).Ok? {
        ClaimsMeaning(Object(s, p).value, now, audience);
      }
    } else {
      forall h, p, g
        ensures !HasParts(token, h, p, g)
      {
        PartsMeaning(token, h, p, g);
      }
    }
  }

  // ----- where an accepted token comes from ------------------------------------------

  // What the holder of the key issued tokens for: key id and claims.
  datatype IssuedToken = IssuedToken(kid: Option<string>, claims: Claims)

  // A signature that verifies over a text the key's holder signed no token for.
  ghost predicate Forged(s: Suite, alg: Alg, key: Bytes, log: seq<IssuedToken>, input: string, sig: Bytes) {
    && s.verify(alg, key, input, sig)
    && forall i :: 0 <= i < |log| ==> input != SigningInput(s, Header(alg, log[i].kid), log[i].claims)
  }

  // Header and claims can be read off what is signed.
  lemma SigningInputInjective(s: Suite, h: string, p: string, header: Claims, claims: Claims)
    requires Faithful(s) && '.' !in h && '.' !in p && h + "." + p == SigningInput(s, header, claims)
    ensures Object(s, h) == Ok(header) && Object(s, p) == Ok(claims)
  {
    var x, y := s.encode(s.show(Obj(header))), s.encode(s.show(Obj(claims)));
    assert Plain(x) && Plain(y);
    JoinTwo(h, p);
    JoinTwo(x, y);
    SplitJoin([h, p], '.');
    SplitJoin([x, y], '.');
    assert [h, p][0] == [x, y][0] && [h, p][1] == [x, y][1];
  }

  lemma JoinTwo(h: string, p: string)
    ensures Join([h, p], '.') == h + "." + p
  {
    assert [h, p][1..] == [p];
  }

  // Whatever text is accepted, its claims are those of a token the key's holder issued, or its
  // signature is forged.
  lemma AcceptedWasIssued(s: Suite, alg: Alg, key: Bytes, token: string, now: int, audience: Option<string>, log: seq<IssuedToken>)
    requires Faithful(s) && Verify(s, alg, key, token, now, audience).Ok?
    ensures (exists i :: 0 <= i < |log| && Verify(s, alg, key, token, now, audience) == Ok(log[i].claims)
                         && TokenHeader(s, token) == Ok(Header(alg, log[i].kid)))
            || forall h, p, g :: HasParts(token, h, p, g) ==> s.decode(g).Some? && Forged(s, alg, key, log, h + "." + p, s.decode(g).value)
  {
    var c := Verify(s, alg, key, token, now, audience).value;
    AcceptedExactly(s, alg, key, token, now, audience, c);
    var h, p, g :| HasParts(token, h, p, g) && SignedBy(s, alg, key, h, p, g) && Object(s, p) == Ok(c);
    PartsMeaning(token, h, p, g);
    SplitHasNo(Trim(token), '.');
    assert [h, p, g][0] == h && [h, p, g][1] == p;
    var input, sig := h + "." + p, s.decode(g).value;
    if Forged(s, alg, key, log, input, sig) {
      forall h', p', g' | HasParts(token, h', p', g')
        ensures h' == h && p' == p && g' == g
      {
        assert [h', p', g'] == [h, p, g];
        assert [h', p', g'][0] == h && [h', p', g'][1] == p && [h', p', g'][2] == g;
      }
    } else {
      var i :| 0 <= i < |log| && input == SigningInput(s, Header(alg, log[i].kid), log[i].claims);
      SigningInputInjective(s, h, p, Header(alg, log[i].kid), log[i].claims);
    }
  }

  // A token of the one algorithm is never accepted as one of the other.
  lemma OtherAlgorithmRefused(s: Suite, alg: Alg, other: Alg, signKey: Bytes, key: Bytes, kid: Option<string>, claims: Claims,
                              now: int, audience: Option<string>)
    requires Faithful(s) && Issue(s, alg, signKey, kid, claims).Ok? && alg != other
    ensures Verify(s, other, key, Issue(s, alg, signKey, kid, claims).value, now, audience) == Err(AlgorithmMismatch)
  {
    IssuedTokenSplits(s, alg, signKey, kid, claims);
    assert AlgName(alg)[0] != AlgName(other)[0];
    assert Header(alg, kid)["alg"] == Str(AlgName(alg));
  }

  // ----- what a token says -----------------------------------------------------------

  // A claim the request names is the request's, and any other but the reserved ones the caller's.
  lemma ClaimsSay(req: Request, now: int, jti: string, name: string)
    requires ClaimsFor(req, now, jti).Ok? && name !in {"iat", "exp", "nbf", "jti"}
    ensures var c := ClaimsFor(req, now, jti).value;
            && c["jti"] == Str(jti)
            && (name == "sub" && req.subject.Some? ==> name in c && c[name] == Str(req.subject.value))
            && (name == "aud" && req.audience.Some? ==> name in c && c[name] == Str(req.audience.value))
            && (name == "iss" && req.issuer.Some? ==> name in c && c[name] == Str(req.issuer.value))
            && (!(name == "sub" && req.subject.Some?) && !(name == "aud" && req.audience.Some?)
                && !(name == "iss" && req.issuer.Some?) ==>
                  (name in c <==> name in req.claims) && (name in c ==> c[name] == req.claims[name]))
  {
  }

  // Requests are refused exactly for a time to live out of bounds or a negative offset.
  lemma RefusedExactly(req: Request, now: int, jti: string)
    ensures ClaimsFor(req, now, jti).Err?
            <==> req.ttl < 1 || req.ttl > MAX_TTL_SECS || (req.notBefore.Some? && req.notBefore.value < 0)
  {
  }
}
