// The tunnel's authenticated handshake: what each side signs, what completing checks, and what
// two honest sides have agreed on when it succeeds.
module Handshake {
  import opened Base
  import opened Bytes
  import opened Crypto
  import Channel

  // "blackbook/tunnel/v1"
  const TUNNEL_PROTO: Bytes := [98, 108, 97, 99, 107, 98, 111, 111, 107, 47, 116, 117, 110, 110, 101, 108, 47, 118, 49]
  // " i2r" and " r2i", appended to the protocol label
  const INFO_I2R: Bytes := TUNNEL_PROTO + [32, 105, 50, 114]
  const INFO_R2I: Bytes := TUNNEL_PROTO + [32, 114, 50, 105]

  datatype Suite = Suite(
    hash: Bytes -> Digest,
    fingerprint: Bytes -> Option<Bytes>,            // of a certificate; None when it does not parse
    sign: (Bytes, Bytes) -> Option<Bytes>,          // private key, message
    verify: (Bytes, Bytes, Bytes) -> Option<bool>,  // certificate, message, signature
    publicOf: Bytes -> Key,
    diffieHellman: (Bytes, Key) -> Bytes,
    expand: (Digest, Bytes, Bytes) -> Key)          // HKDF: salt, shared secret, label

  ghost predicate Commutes(s: Suite) {
    forall a: Bytes, b: Bytes :: s.diffieHellman(a, s.publicOf(b)) == s.diffieHellman(b, s.publicOf(a))
  }

  datatype Role = Initiator | Responder

  datatype Pending = Pending(
    role: Role,
    tunnelId: Bytes,
    name: Bytes,
    cert: Bytes,
    keyPem: Bytes,
    ephSecret: Bytes)

  // `ephPub` and `signature` are None when the text received is not base64.
  datatype Message = Message(from: Bytes, ephPub: Option<Bytes>, cert: Bytes, signature: Option<Bytes>)

  datatype HandshakeError =
    | BadCertificate
    | FingerprintMismatch
    | NameMismatch
    | BadEphemeral
    | BadSignatureEncoding
    | NotAuthenticated
    | SigningFailed

  datatype Established = Established(session: Channel.SessionState, peerName: Bytes, peerFingerprint: Bytes)

  function EphPub(s: Suite, p: Pending): Key {
    s.publicOf(p.ephSecret)
  }

  // Protocol label, tunnel id, then the ephemerals with the initiator's first.
  function Transcript(s: Suite, p: Pending, peerEph: Key): Bytes {
    match p.role
    case Initiator => Fields([TUNNEL_PROTO, p.tunnelId, EphPub(s, p), peerEph])
    case Responder => Fields([TUNNEL_PROTO, p.tunnelId, peerEph, EphPub(s, p)])
  }

  function SessionBase(s: Suite, p: Pending, peerEph: Key): Digest {
    s.hash(Transcript(s, p, peerEph))
  }

  function SigningPayload(base: Digest, signerName: Bytes, signerFp: Bytes): Bytes {
    Fields([base, signerName, signerFp])
  }

  function Sign(s: Suite, p: Pending, peerEph: Key): Result<Message, HandshakeError> {
    match s.fingerprint(p.cert)
    case None => Err(BadCertificate)
    case Some(fp) =>
      match s.sign(p.keyPem, SigningPayload(SessionBase(s, p, peerEph), p.name, fp))
      case None => Err(SigningFailed)
      case Some(sig) => Ok(Message(p.name, Some(EphPub(s, p)), p.cert, Some(sig)))
  }

  function DeriveKeys(s: Suite, shared: Bytes, base: Digest): (Key, Key) {
    (s.expand(base, shared, INFO_I2R), s.expand(base, shared, INFO_R2I))
  }

  function SessionWith(s: Suite, p: Pending, peerEph: Key): Channel.SessionState {
    var (i2r, r2i) := DeriveKeys(s, s.diffieHellman(p.ephSecret, peerEph), SessionBase(s, p, peerEph));
    match p.role
    case Initiator => Channel.SessionState(i2r, r2i, 0, 0)
    case Responder => Channel.SessionState(r2i, i2r, 0, 0)
  }

  function Complete(s: Suite, p: Pending, peer: Message, expectedName: Bytes, expectedFp: Bytes)
    : Result<Established, HandshakeError>
  {
    match s.fingerprint(peer.cert)
    case None => Err(BadCertificate)
    case Some(fp) =>
      if fp != expectedFp then Err(FingerprintMismatch)
      else if peer.from != expectedName then Err(NameMismatch)
      else if peer.ephPub.None? || |peer.ephPub.value| != KEY_LEN then Err(BadEphemeral)
      else if peer.signature.None? then Err(BadSignatureEncoding)
      else
        var payload := SigningPayload(SessionBase(s, p, peer.ephPub.value), peer.from, fp);
        match s.verify(peer.cert, payload, peer.signature.value)
        case None => Err(BadCertificate)
        case Some(valid) =>
          if !valid then Err(NotAuthenticated)
          else Ok(Established(SessionWith(s, p, peer.ephPub.value), expectedName, expectedFp))
  }

  // ----- the honest parties ----------------------------------------------------------

  // One run of the protocol by an honest client; `signedFor` is the peer ephemeral it signed
  // over, once it has.
  datatype Instance = Instance(pending: Pending, signedFor: Option<Key>)

  function Identity(s: Suite, p: Pending): (Bytes, Option<Bytes>) {
    (p.name, s.fingerprint(p.cert))
  }

  ghost predicate FreshEphemerals(s: Suite, log: seq<Instance>) {
    forall i, j :: 0 <= i < j < |log| ==> EphPub(s, log[i].pending) != EphPub(s, log[j].pending)
  }

  ghost predicate ShortFields(p: Pending) {
    Short(p.tunnelId) && Short(p.name)
  }

  ghost predicate AllFieldsShort(s: Suite, log: seq<Instance>) {
    forall i :: 0 <= i < |log| ==>
      ShortFields(log[i].pending)
      && (s.fingerprint(log[i].pending.cert).Some? ==> Short(s.fingerprint(log[i].pending.cert).value))
  }

  // Instance j is of this identity and signed exactly this payload.
  ghost predicate SignedBy(s: Suite, inst: Instance, fp: Bytes, payload: Bytes) {
    && s.fingerprint(inst.pending.cert) == Some(fp)
    && inst.signedFor.Some?
    && payload == SigningPayload(SessionBase(s, inst.pending, inst.signedFor.value), inst.pending.name, fp)
  }

  // What the peer's message has to be signed over.
  function ExpectedPayload(s: Suite, p: Pending, peer: Message, name: Bytes, fp: Bytes): Bytes
    requires peer.ephPub.Some? && |peer.ephPub.value| == KEY_LEN
  {
    SigningPayload(SessionBase(s, p, peer.ephPub.value), name, fp)
  }

  // A signature that verifies, over that, under a certificate with fingerprint `fp`, and that no
  // instance made.
  ghost predicate ForgedSignature(s: Suite, log: seq<Instance>, p: Pending, peer: Message, name: Bytes, fp: Bytes) {
    && s.fingerprint(peer.cert) == Some(fp) && peer.signature.Some?
    && peer.ephPub.Some? && |peer.ephPub.value| == KEY_LEN
    && s.verify(peer.cert, ExpectedPayload(s, p, peer, name, fp), peer.signature.value) == Some(true)
    && forall j :: 0 <= j < |log| ==> !SignedBy(s, log[j], fp, ExpectedPayload(s, p, peer, name, fp))
  }

  ghost predicate Collide(s: Suite, x: Bytes, y: Bytes) {
    x != y && s.hash(x) == s.hash(y)
  }

  function Opposite(r: Role): Role {
    if r == Initiator then Responder else Initiator
  }

  // j ran the other role of the same tunnel, with the two ephemerals i completed on.
  ghost predicate Partners(s: Suite, p: Pending, peerEph: Bytes, other: Instance) {
    && other.pending.tunnelId == p.tunnelId
    && other.pending.role == Opposite(p.role)
    && EphPub(s, other.pending) == peerEph
    && other.signedFor == Some(EphPub(s, p))
  }

  lemma PayloadInjective(b1: Digest, n1: Bytes, f1: Bytes, b2: Digest, n2: Bytes, f2: Bytes)
    requires Short(n1) && Short(f1) && Short(n2) && Short(f2)
    requires SigningPayload(b1, n1, f1) == SigningPayload(b2, n2, f2)
    ensures b1 == b2 && n1 == n2 && f1 == f2
  {
    var x: seq<Bytes>, y: seq<Bytes> := [b1, n1, f1], [b2, n2, f2];
    FieldsInjective(x, y);
    assert x[0] == y[0] && x[1] == y[1] && x[2] == y[2];
  }

  lemma TranscriptInjective(s: Suite, p: Pending, e: Key, q: Pending, g: Key)
    requires Short(p.tunnelId) && Short(q.tunnelId)
    requires Transcript(s, p, e) == Transcript(s, q, g)
    ensures p.tunnelId == q.tunnelId
    ensures if p.role == q.role then EphPub(s, p) == EphPub(s, q) && e == g
            else EphPub(s, p) == g && e == EphPub(s, q)
  {
    var x: seq<Bytes> := if p.role == Initiator then [TUNNEL_PROTO, p.tunnelId, EphPub(s, p), e]
                         else [TUNNEL_PROTO, p.tunnelId, e, EphPub(s, p)];
    var y: seq<Bytes> := if q.role == Initiator then [TUNNEL_PROTO, q.tunnelId, EphPub(s, q), g]
                         else [TUNNEL_PROTO, q.tunnelId, g, EphPub(s, q)];
    FieldsInjective(x, y);
    assert x[1] == y[1] && x[2] == y[2] && x[3] == y[3];
  }

  // ----- main results ----------------------------------------------------------------

  // The accepted signature is the side's own, made for the ephemeral it came back with.
  ghost predicate Reflected(s: Suite, inst: Instance, peer: Message, name: Bytes, fp: Bytes) {
    Identity(s, inst.pending) == (name, Some(fp)) && inst.signedFor.Some? && inst.signedFor == peer.ephPub
  }

  // Instance j is the partner of side i, or the two transcripts collide.
  ghost predicate Answers(s: Suite, log: seq<Instance>, i: nat, j: nat, peer: Message, name: Bytes, fp: Bytes)
    requires i < |log| && j < |log| && peer.ephPub.Some? && |peer.ephPub.value| == KEY_LEN
  {
    && Identity(s, log[j].pending) == (name, Some(fp)) && log[j].signedFor.Some?
    && ((j != i && Partners(s, log[i].pending, peer.ephPub.value, log[j]))
        || Collide(s, Transcript(s, log[i].pending, peer.ephPub.value),
                      Transcript(s, log[j].pending, log[j].signedFor.value)))
  }

  // Side i has a partner, or the primitives broke.
  ghost predicate Agreed(s: Suite, log: seq<Instance>, i: nat, peer: Message, name: Bytes, fp: Bytes)
    requires i < |log| && Complete(s, log[i].pending, peer, name, fp).Ok?
  {
    || ForgedSignature(s, log, log[i].pending, peer, name, fp)
    || exists j: nat :: j < |log| && Answers(s, log, i, j, peer, name, fp)
  }

  // Completing accepts exactly what is of the vouched fingerprint and name, has a whole ephemeral
  // and is signed over this session by that certificate; and the session is with that peer.
  lemma CompletionChecks(s: Suite, p: Pending, peer: Message, name: Bytes, fp: Bytes)
    ensures Complete(s, p, peer, name, fp).Ok?
            <==> && s.fingerprint(peer.cert) == Some(fp) && peer.from == name
                 && peer.ephPub.Some? && |peer.ephPub.value| == KEY_LEN && peer.signature.Some?
                 && s.verify(peer.cert, ExpectedPayload(s, p, peer, name, fp), peer.signature.value) == Some(true)
    ensures Complete(s, p, peer, name, fp).Ok? ==>
              && Complete(s, p, peer, name, fp).value.peerName == name
              && Complete(s, p, peer, name, fp).value.peerFingerprint == fp
  {
  }

  // An honest side that completes has a partner: another instance of the vouched identity that
  // signed, in the other role, for the same tunnel and the same two ephemerals. Otherwise the
  // accepted signature was forged, or its own, or two given transcripts collide.
  lemma CompletionImpliesPartner(s: Suite, log: seq<Instance>, i: nat, peer: Message, expectedName: Bytes, expectedFp: Bytes)
    requires i < |log| && FreshEphemerals(s, log) && AllFieldsShort(s, log)
    requires Short(expectedName) && Short(expectedFp)
    requires Complete(s, log[i].pending, peer, expectedName, expectedFp).Ok?
    ensures Agreed(s, log, i, peer, expectedName, expectedFp) || Reflected(s, log[i], peer, expectedName, expectedFp)
  {
    var p, e := log[i].pending, peer.ephPub.value;
    CompletionChecks(s, p, peer, expectedName, expectedFp);
    if !ForgedSignature(s, log, p, peer, expectedName, expectedFp) {
      var payload := SigningPayload(SessionBase(s, p, e), expectedName, expectedFp);
      var j: nat :| j < |log| && SignedBy(s, log[j], expectedFp, payload);
      var q := log[j].pending;
      PayloadInjective(SessionBase(s, p, e), expectedName, expectedFp,
                       SessionBase(s, q, log[j].signedFor.value), q.name, expectedFp);
      if Transcript(s, p, e) == Transcript(s, q, log[j].signedFor.value) {
        TranscriptInjective(s, p, e, q, log[j].signedFor.value);
        if j != i {
          assert p.role != q.role;
          assert Partners(s, p, e, log[j]);
        }
      }
      assert Answers(s, log, i, j, peer, expectedName, expectedFp) || j == i;
    }
  }

  // ----- exactly which vouched identities guarantee agreement ------------------------

  // Whenever this side completes against this identity, it has a partner.
  ghost predicate AlwaysAgrees(s: Suite, p: Pending, name: Bytes, fp: Bytes) {
    forall log: seq<Instance>, i: nat, peer: Message ::
      (i < |log| && log[i].pending == p && FreshEphemerals(s, log) && AllFieldsShort(s, log)
       && Complete(s, p, peer, name, fp).Ok?) ==> Agreed(s, log, i, peer, name, fp)
  }

  // The exception is real: a side vouched its own identity accepts its own signature, sent back
  // with the ephemeral it was made for.
  lemma OwnSignatureIsAccepted(s: Suite, p: Pending, e: Key)
    requires KeyMatchesCert(s, p)
    ensures Sign(s, p, e).Ok?
    ensures Complete(s, p, Sign(s, p, e).value.(ephPub := Some(e)), p.name, Fingerprint(s, p)).Ok?
  {
  }

  // No one else took part, nothing was forged and nothing collides.
  lemma ReflectionHasNoPartner(s: Suite, p: Pending, e: Key)
    requires KeyMatchesCert(s, p)
    ensures Sign(s, p, e).Ok?
    ensures var peer := Sign(s, p, e).value.(ephPub := Some(e));
            Complete(s, p, peer, p.name, Fingerprint(s, p)).Ok?
            && !Agreed(s, [Instance(p, Some(e))], 0, peer, p.name, Fingerprint(s, p))
  {
    var log, peer := [Instance(p, Some(e))], Sign(s, p, e).value.(ephPub := Some(e));
    OwnSignatureIsAccepted(s, p, e);
    assert SignedBy(s, log[0], Fingerprint(s, p), SigningPayload(SessionBase(s, p, e), peer.from, Fingerprint(s, p)));
    forall j: nat | j < |log|
      ensures !Answers(s, log, 0, j, peer, p.name, Fingerprint(s, p))
    {
      assert j == 0;
    }
  }

  // Agreement is guaranteed exactly when the vouched identity is not one's own.
  lemma AgreesExactlyWithOthers(s: Suite, p: Pending, name: Bytes, fp: Bytes)
    requires KeyMatchesCert(s, p) && ShortFields(p) && Short(Fingerprint(s, p)) && Short(name) && Short(fp)
    ensures AlwaysAgrees(s, p, name, fp) <==> Identity(s, p) != (name, Some(fp))
  {
    if Identity(s, p) == (name, Some(fp)) {
      var e: Key := seq(KEY_LEN, _ => 0);
      ReflectionHasNoPartner(s, p, e);
      assert [Instance(p, Some(e))][0].pending == p;
    } else {
      forall log: seq<Instance>, i: nat, peer: Message
        | i < |log| && log[i].pending == p && FreshEphemerals(s, log) && AllFieldsShort(s, log)
          && Complete(s, p, peer, name, fp).Ok?
        ensures Agreed(s, log, i, peer, name, fp)
      {
        CompletionImpliesPartner(s, log, i, peer, name, fp);
      }
    }
  }

  // Partners that completed on each other's ephemerals hold crossed keys.
  lemma CrossedKeys(s: Suite, p: Pending, q: Pending)
    requires Commutes(s)
    requires p.tunnelId == q.tunnelId && q.role == Opposite(p.role)
    ensures SessionWith(s, p, EphPub(s, q)).sendKey == SessionWith(s, q, EphPub(s, p)).recvKey
    ensures SessionWith(s, p, EphPub(s, q)).recvKey == SessionWith(s, q, EphPub(s, p)).sendKey
  {
    assert s.diffieHellman(p.ephSecret, s.publicOf(q.ephSecret)) == s.diffieHellman(q.ephSecret, s.publicOf(p.ephSecret));
    assert Transcript(s, p, EphPub(s, q)) == Transcript(s, q, EphPub(s, p));
  }

  function Fingerprint(s: Suite, p: Pending): Bytes {
    match s.fingerprint(p.cert)
    case None => []
    case Some(fp) => fp
  }

  // What side `p` gets from completing on `m` when the server vouched for q's identity.
  function CompletedWith(s: Suite, p: Pending, m: Message, q: Pending): Result<Established, HandshakeError> {
    Complete(s, p, m, q.name, Fingerprint(s, q))
  }

  // The pair of sessions two completed sides start from.
  function Joined(x: Established, y: Established): Channel.Net {
    Channel.Net(Channel.End(x.session, [], []), Channel.End(y.session, [], []), [])
  }

  // An event the primitives are assumed to prevent, or a reflection, seen by side `i` when
  // completing on `m`.
  ghost predicate Broken(s: Suite, log: seq<Instance>, i: nat, m: Message, name: Bytes, fp: Bytes)
    requires i < |log|
  {
    || ForgedSignature(s, log, log[i].pending, m, name, fp)
    || Reflected(s, log[i], m, name, fp)
    || (m.ephPub.Some? && |m.ephPub.value| == KEY_LEN
        && exists j :: 0 <= j < |log| && log[j].signedFor.Some?
             && Collide(s, Transcript(s, log[i].pending, m.ephPub.value),
                           Transcript(s, log[j].pending, log[j].signedFor.value)))
  }

  // Two honest sides that both complete, each against the other's identity, whatever messages
  // the relay gave them and however many other instances either identity runs.
  ghost predicate BothComplete(s: Suite, log: seq<Instance>, i: nat, j: nat, toI: Message, toJ: Message) {
    && i < |log| && j < |log|
    && FreshEphemerals(s, log) && AllFieldsShort(s, log)
    && var p, q := log[i].pending, log[j].pending;
       && s.fingerprint(p.cert).Some? && s.fingerprint(q.cert).Some?
       && CompletedWith(s, p, toI, q).Ok? && CompletedWith(s, q, toJ, p).Ok?
  }

  // Each completed on the ephemeral the other is using: they completed with one another.
  ghost predicate Exchanged(s: Suite, p: Pending, q: Pending, toP: Message, toQ: Message) {
    toP.ephPub == Some(EphPub(s, q)) && toQ.ephPub == Some(EphPub(s, p))
  }

  // Side `i` met a break while completing against j's identity.
  ghost predicate BrokenFor(s: Suite, log: seq<Instance>, i: nat, j: nat, toI: Message)
    requires i < |log| && j < |log|
  {
    Broken(s, log, i, toI, log[j].pending.name, Fingerprint(s, log[j].pending))
  }

  // A partner of side `i`, when it met no break.
  lemma PartnerOf(s: Suite, log: seq<Instance>, i: nat, j: nat, toI: Message) returns (k: nat)
    requires i < |log| && j < |log| && FreshEphemerals(s, log) && AllFieldsShort(s, log)
    requires s.fingerprint(log[j].pending.cert).Some?
    requires CompletedWith(s, log[i].pending, toI, log[j].pending).Ok? && !BrokenFor(s, log, i, j, toI)
    ensures k < |log| && k != i && Identity(s, log[k].pending) == Identity(s, log[j].pending)
    ensures Partners(s, log[i].pending, toI.ephPub.value, log[k])
    ensures EphPub(s, log[k].pending) == toI.ephPub.value && log[k].pending.tunnelId == log[i].pending.tunnelId
  {
    var q := log[j].pending;
    CompletionImpliesPartner(s, log, i, toI, q.name, Fingerprint(s, q));
    k :| k < |log| && Answers(s, log, i, k, toI, q.name, Fingerprint(s, q));
    assert !Collide(s, Transcript(s, log[i].pending, toI.ephPub.value), Transcript(s, log[k].pending, log[k].signedFor.value));
  }

  lemma PartnerHasTheEphemeral(s: Suite, log: seq<Instance>, i: nat, j: nat, toI: Message, toJ: Message)
    requires BothComplete(s, log, i, j, toI, toJ) && toI.ephPub == Some(EphPub(s, log[j].pending))
    ensures BrokenFor(s, log, i, j, toI)
            || (log[j].pending.tunnelId == log[i].pending.tunnelId && log[j].pending.role == Opposite(log[i].pending.role))
  {
    if !BrokenFor(s, log, i, j, toI) {
      var k := PartnerOf(s, log, i, j, toI);
      assert k == j;
    }
  }

  // Two sides that completed with one another then hold matched sessions in opposite roles of
  // one tunnel, what the sealed channel's guarantees start from, unless both met a break.
  lemma BothCompleteMatched(s: Suite, log: seq<Instance>, i: nat, j: nat, toI: Message, toJ: Message)
    requires Commutes(s) && BothComplete(s, log, i, j, toI, toJ)
    requires Exchanged(s, log[i].pending, log[j].pending, toI, toJ)
    ensures var p, q := log[i].pending, log[j].pending;
            || (BrokenFor(s, log, i, j, toI) && BrokenFor(s, log, j, i, toJ))
            || (q.tunnelId == p.tunnelId && q.role == Opposite(p.role)
                && CompletedWith(s, p, toI, q).value.peerName == q.name && CompletedWith(s, q, toJ, p).value.peerName == p.name
                && CompletedWith(s, p, toI, q).value.peerFingerprint == Fingerprint(s, q)
                && CompletedWith(s, q, toJ, p).value.peerFingerprint == Fingerprint(s, p)
                && Channel.Matched(Joined(CompletedWith(s, p, toI, q).value, CompletedWith(s, q, toJ, p).value)))
  {
    PartnerHasTheEphemeral(s, log, i, j, toI, toJ);
    PartnerHasTheEphemeral(s, log, j, i, toJ, toI);
    if !BrokenFor(s, log, i, j, toI) || !BrokenFor(s, log, j, i, toJ) {
      CrossedKeys(s, log[i].pending, log[j].pending);
    }
  }

  // Two different inputs with one derived key.
  ghost predicate KeysCollide(s: Suite, x: (Digest, Bytes, Bytes), y: (Digest, Bytes, Bytes)) {
    x != y && s.expand(x.0, x.1, x.2) == s.expand(y.0, y.1, y.2)
  }

  // What a side derives the key it sends with from, and the one it receives with.
  function KeyInput(s: Suite, p: Pending, peerEph: Key, sends: bool): (Digest, Bytes, Bytes) {
    (SessionBase(s, p, peerEph), s.diffieHellman(p.ephSecret, peerEph),
     if (p.role == Initiator) == sends then INFO_I2R else INFO_R2I)
  }

  // And only then: matched sessions were completed with one another, or transcripts or derived
  // keys collide.
  lemma MatchedMeansExchanged(s: Suite, p: Pending, q: Pending, toP: Message, toQ: Message)
    requires Short(p.tunnelId) && Short(q.tunnelId)
    requires CompletedWith(s, p, toP, q).Ok? && CompletedWith(s, q, toQ, p).Ok?
    requires Channel.Matched(Joined(CompletedWith(s, p, toP, q).value, CompletedWith(s, q, toQ, p).value))
    ensures var e, g := toP.ephPub.value, toQ.ephPub.value;
            || Exchanged(s, p, q, toP, toQ)
            || Collide(s, Transcript(s, p, e), Transcript(s, q, g))
            || KeysCollide(s, KeyInput(s, p, e, true), KeyInput(s, q, g, false))
  {
    var e, g := toP.ephPub.value, toQ.ephPub.value;
    var x, y := KeyInput(s, p, e, true), KeyInput(s, q, g, false);
    assert s.expand(x.0, x.1, x.2) == s.expand(y.0, y.1, y.2);
    if x == y && Transcript(s, p, e) == Transcript(s, q, g) {
      LabelsDiffer();
      TranscriptInjective(s, p, e, q, g);
    }
  }

  lemma LabelsDiffer()
    ensures INFO_I2R != INFO_R2I
  {
    assert INFO_I2R[|TUNNEL_PROTO| + 1] == 105;
  }

  ghost predicate OneInstancePerTunnel(s: Suite, log: seq<Instance>) {
    forall i, j :: 0 <= i < j < |log| ==>
      Identity(s, log[i].pending) != Identity(s, log[j].pending) || log[i].pending.tunnelId != log[j].pending.tunnelId
  }

  // If neither identity has another instance in the tunnel, there is no one else to have
  // completed with.
  lemma LoneInstancesExchange(s: Suite, log: seq<Instance>, i: nat, j: nat, toI: Message, toJ: Message)
    requires BothComplete(s, log, i, j, toI, toJ) && OneInstancePerTunnel(s, log)
    requires log[i].pending.tunnelId == log[j].pending.tunnelId
    ensures BrokenFor(s, log, i, j, toI) || BrokenFor(s, log, j, i, toJ)
            || Exchanged(s, log[i].pending, log[j].pending, toI, toJ)
  {
    if !BrokenFor(s, log, i, j, toI) && !BrokenFor(s, log, j, i, toJ) {
      var k := PartnerOf(s, log, i, j, toI);
      var l := PartnerOf(s, log, j, i, toJ);
      assert k == j && l == i;
    }
  }

  // Certificates whose private key signs what the certificate verifies.
  ghost predicate KeyMatchesCert(s: Suite, p: Pending) {
    && s.fingerprint(p.cert).Some?
    && forall m: Bytes :: s.sign(p.keyPem, m).Some? && s.verify(p.cert, m, s.sign(p.keyPem, m).value) == Some(true)
  }

  // With a faithful relay the handshake succeeds on both sides, on matched sessions.
  lemma FaithfulRelayCompletes(s: Suite, p: Pending, q: Pending)
    requires Commutes(s) && KeyMatchesCert(s, p) && KeyMatchesCert(s, q)
    requires p.tunnelId == q.tunnelId && q.role == Opposite(p.role)
    ensures Sign(s, p, EphPub(s, q)).Ok? && Sign(s, q, EphPub(s, p)).Ok?
    ensures var x := Complete(s, p, Sign(s, q, EphPub(s, p)).value, q.name, s.fingerprint(q.cert).value);
            var y := Complete(s, q, Sign(s, p, EphPub(s, q)).value, p.name, s.fingerprint(p.cert).value);
            x.Ok? && y.Ok? && Channel.Matched(Joined(x.value, y.value))
  {
    assert Transcript(s, p, EphPub(s, q)) == Transcript(s, q, EphPub(s, p));
    CrossedKeys(s, p, q);
  }
}
