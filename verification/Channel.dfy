// The tunnel's sealed channel: two sessions with directional keys and counter nonces,
// joined by a relay that may hand either side any bytes at any time.
module Channel {
  import opened Base
  import opened Bytes
  import opened Crypto

  type u64 = x: nat | x < U64_LIMIT

  // Four zero bytes, then the counter big-endian.
  function CtrNonce(ctr: u64): Nonce {
    [0, 0, 0, 0] + BigEndian(8, ctr)
  }

  lemma CtrNonceInjective(x: u64, y: u64)
    requires CtrNonce(x) == CtrNonce(y)
    ensures x == y
  {
    assert CtrNonce(x)[4..] == BigEndian(8, x) && CtrNonce(y)[4..] == BigEndian(8, y);
    Pow256Values();
    BigEndianInjective(8, x, y);
  }

  // ----- one session -----------------------------------------------------------------

  datatype SessionState = SessionState(sendKey: Key, recvKey: Key, sendCtr: u64, recvCtr: u64)

  // The counter is spent before encryption, so a failed encryption still uses its nonce up.
  function SealFrame(c: Aead, s: SessionState, plaintext: Bytes): (SessionState, Result<Bytes, CryptoError>) {
    if s.sendCtr + 1 >= U64_LIMIT then (s, Err(NonceSpaceExhausted))
    else (s.(sendCtr := s.sendCtr + 1), Crypto.Seal(c, plaintext, s.sendKey, CtrNonce(s.sendCtr)))
  }

  function OpenFrame(c: Aead, s: SessionState, frame: Bytes): (SessionState, Result<Bytes, CryptoError>) {
    match OpenNonce(c, frame, s.recvKey, CtrNonce(s.recvCtr))
    case Err(e) => (s, Err(e))
    case Ok(p) =>
      if s.recvCtr + 1 >= U64_LIMIT then (s, Err(NonceSpaceExhausted))
      else (s.(recvCtr := s.recvCtr + 1), Ok(p))
  }

  class Session {
    const sendKey: Key
    const recvKey: Key
    var sendCtr: u64
    var recvCtr: u64
    const peerName: Bytes
    const peerFingerprint: Bytes

    constructor (sendKey: Key, recvKey: Key, peerName: Bytes, peerFingerprint: Bytes)
      ensures State() == SessionState(sendKey, recvKey, 0, 0)
      ensures this.peerName == peerName && this.peerFingerprint == peerFingerprint
    {
      this.sendKey, this.recvKey := sendKey, recvKey;
      this.sendCtr, this.recvCtr := 0, 0;
      this.peerName, this.peerFingerprint := peerName, peerFingerprint;
    }

    ghost function State(): SessionState
      reads this
    {
      SessionState(sendKey, recvKey, sendCtr, recvCtr)
    }

    method Seal(c: Aead, plaintext: Bytes) returns (r: Result<Bytes, CryptoError>)
      modifies this`sendCtr
      ensures (State(), r) == SealFrame(c, old(State()), plaintext)
      ensures r.Ok? ==> sendCtr == old(sendCtr) + 1
      ensures sendCtr == old(sendCtr) ==> r == Err(NonceSpaceExhausted)
    {
      var nonce := CtrNonce(sendCtr);
      if sendCtr + 1 >= U64_LIMIT {
        return Err(NonceSpaceExhausted);
      }
      sendCtr := sendCtr + 1;
      r := Crypto.Seal(c, plaintext, sendKey, nonce);
    }

    // A frame that does not open leaves the session as it was.
    method Open(c: Aead, frame: Bytes) returns (r: Result<Bytes, CryptoError>)
      modifies this`recvCtr
      ensures (State(), r) == OpenFrame(c, old(State()), frame)
      ensures r.Err? ==> State() == old(State())
      ensures r.Ok? ==> recvCtr == old(recvCtr) + 1
    {
      var nonce := CtrNonce(recvCtr);
      var pt :- OpenNonce(c, frame, recvKey, nonce);
      if recvCtr + 1 >= U64_LIMIT {
        return Err(NonceSpaceExhausted);
      }
      recvCtr := recvCtr + 1;
      r := Ok(pt);
    }
  }

  // A genuine frame is accepted exactly when it is the next one: replays, reorderings and
  // gaps are refused, and the accepted plaintext is the one sealed.
  lemma OpensExactlyTheNextFrame(c: Aead, sender: SessionState, receiver: SessionState, plaintext: Bytes)
    requires Lawful(c) && receiver.recvKey == sender.sendKey
    requires SealFrame(c, sender, plaintext).1.Ok?
    ensures var frame := SealFrame(c, sender, plaintext).1.value;
            var (after, r) := OpenFrame(c, receiver, frame);
            && (r.Ok? <==> sender.sendCtr == receiver.recvCtr)
            && (r.Ok? ==> r.value == plaintext && after == receiver.(recvCtr := receiver.recvCtr + 1))
            && (r.Err? ==> after == receiver)
  {
    var frame := SealFrame(c, sender, plaintext).1.value;
    SealedOpens(c, plaintext, sender.sendKey, [], CtrNonce(sender.sendCtr));
    assert frame[..NONCE_LEN] == CtrNonce(sender.sendCtr);
    if CtrNonce(sender.sendCtr) == CtrNonce(receiver.recvCtr) {
      CtrNonceInjective(sender.sendCtr, receiver.recvCtr);
    }
  }

  // ----- two sessions and a relay ----------------------------------------------------

  // One use of the cipher: `ct` is None when encryption itself failed.
  datatype Use = Use(key: Key, nonce: Nonce, plaintext: Bytes, ct: Option<Bytes>)

  // `submitted` lists the plaintexts that consumed a counter, `received` what `Open` returned.
  datatype End = End(session: SessionState, submitted: seq<Bytes>, received: seq<Bytes>)

  datatype Net = Net(a: End, b: End, ledger: seq<Use>)

  datatype Event = SealAt(atA: bool, plaintext: Bytes) | DeliverTo(atA: bool, frame: Bytes)

  function EndAt(n: Net, atA: bool): End {
    if atA then n.a else n.b
  }

  function WithEnd(n: Net, atA: bool, e: End): Net {
    if atA then n.(a := e) else n.(b := e)
  }

  function SealStep(c: Aead, n: Net, atA: bool, plaintext: Bytes): Net {
    var e := EndAt(n, atA);
    var (s, r) := SealFrame(c, e.session, plaintext);
    if s == e.session then n
    else
      var use := Use(e.session.sendKey, CtrNonce(e.session.sendCtr), plaintext,
                     c.encrypt(e.session.sendKey, CtrNonce(e.session.sendCtr), [], plaintext));
      WithEnd(n, atA, End(s, e.submitted + [plaintext], e.received)).(ledger := n.ledger + [use])
  }

  function DeliverStep(c: Aead, n: Net, atA: bool, frame: Bytes): Net {
    var e := EndAt(n, atA);
    var (s, r) := OpenFrame(c, e.session, frame);
    if r.Err? then WithEnd(n, atA, e.(session := s))
    else WithEnd(n, atA, End(s, e.submitted, e.received + [r.value]))
  }

  function Step(c: Aead, n: Net, ev: Event): Net {
    match ev
    case SealAt(atA, plaintext) => SealStep(c, n, atA, plaintext)
    case DeliverTo(atA, frame) => DeliverStep(c, n, atA, frame)
  }

  function Run(c: Aead, start: Net, evs: seq<Event>): Net {
    if evs == [] then start else Step(c, Run(c, start, evs[..|evs| - 1]), evs[|evs| - 1])
  }

  // The cipher itself takes the frame's ciphertext for genuine.
  predicate CipherAccepts(c: Aead, key: Key, frame: Bytes) {
    |frame| >= NONCE_LEN && c.decrypt(key, frame[..NONCE_LEN], [], frame[NONCE_LEN..]).Some?
  }

  // A forgery: a frame that is accepted, by the cipher too, although nobody encrypted it under
  // that key and nonce.
  ghost predicate Genuine(n: Net, key: Key, frame: Bytes) {
    exists i :: 0 <= i < |n.ledger| && n.ledger[i].key == key && n.ledger[i].ct.Some?
                && frame == n.ledger[i].nonce + n.ledger[i].ct.value
  }

  ghost predicate Forged(c: Aead, n: Net, ev: Event) {
    && ev.DeliverTo?
    && OpenFrame(c, EndAt(n, ev.atA).session, ev.frame).1.Ok?
    && CipherAccepts(c, EndAt(n, ev.atA).session.recvKey, ev.frame)
    && !Genuine(n, EndAt(n, ev.atA).session.recvKey, ev.frame)
  }

  ghost predicate ForgeryIn(c: Aead, start: Net, evs: seq<Event>) {
    exists i :: 0 <= i < |evs| && Forged(c, Run(c, start, evs[..i]), evs[i])
  }

  // What a completed handshake hands out: crossed keys, counters at zero.
  ghost predicate Matched(n: Net) {
    && n.a.session.sendKey == n.b.session.recvKey
    && n.b.session.sendKey == n.a.session.recvKey
    && n.a.session.sendCtr == n.a.session.recvCtr == n.b.session.sendCtr == n.b.session.recvCtr == 0
    && n.a.submitted == n.a.received == n.b.submitted == n.b.received == []
    && n.ledger == []
  }

  ghost predicate DistinctKeys(n: Net) {
    n.a.session.sendKey != n.b.session.sendKey
  }

  // ----- invariants ------------------------------------------------------------------

  // Every use of the sender's key is one of its submitted plaintexts, at that index's nonce.
  ghost predicate UsesOf(c: Aead, from: End, ledger: seq<Use>) {
    && |from.submitted| == from.session.sendCtr
    && forall i :: 0 <= i < |ledger| && ledger[i].key == from.session.sendKey ==>
         exists k: u64 :: k < from.session.sendCtr && ledger[i].nonce == CtrNonce(k)
                          && ledger[i].plaintext == from.submitted[k]
                          && ledger[i].ct == c.encrypt(ledger[i].key, ledger[i].nonce, [], ledger[i].plaintext)
  }

  ghost predicate InOrder(from: End, to: End) {
    && to.session.recvKey == from.session.sendKey
    && |to.received| == to.session.recvCtr
    && to.received <= from.submitted
  }

  ghost predicate Uses(c: Aead, n: Net) {
    UsesOf(c, n.a, n.ledger) && UsesOf(c, n.b, n.ledger) && DistinctKeys(n)
  }

  ghost predicate Ordered(n: Net) {
    InOrder(n.a, n.b) && InOrder(n.b, n.a)
  }

  ghost predicate NoNonceReuse(ledger: seq<Use>) {
    forall i, j :: 0 <= i < j < |ledger| ==> ledger[i].key != ledger[j].key || ledger[i].nonce != ledger[j].nonce
  }

  lemma SealKeepsInvariants(c: Aead, n: Net, atA: bool, plaintext: Bytes)
    requires Uses(c, n) && Ordered(n)
    ensures Uses(c, SealStep(c, n, atA, plaintext)) && Ordered(SealStep(c, n, atA, plaintext))
  {
    var n' := SealStep(c, n, atA, plaintext);
    if n' != n {
      var e, e' := EndAt(n, atA), EndAt(n', atA);
      var use := n'.ledger[|n.ledger|];
      assert e'.submitted[e.session.sendCtr] == plaintext;
      forall i | 0 <= i < |n'.ledger| && n'.ledger[i].key == e'.session.sendKey
        ensures exists k: u64 :: k < e'.session.sendCtr && n'.ledger[i].nonce == CtrNonce(k)
                                 && n'.ledger[i].plaintext == e'.submitted[k]
                                 && n'.ledger[i].ct == c.encrypt(n'.ledger[i].key, n'.ledger[i].nonce, [], n'.ledger[i].plaintext)
      {
        if i < |n.ledger| {
          var k: u64 :| k < e.session.sendCtr && n.ledger[i].nonce == CtrNonce(k) && n.ledger[i].plaintext == e.submitted[k]
                        && n.ledger[i].ct == c.encrypt(n.ledger[i].key, n.ledger[i].nonce, [], n.ledger[i].plaintext);
          assert e'.submitted[k] == e.submitted[k];
        } else {
          assert n'.ledger[i].nonce == CtrNonce(e.session.sendCtr);
        }
      }
    }
  }

  // A genuine frame that opens is the sender's next plaintext.
  lemma GenuineIsNext(c: Aead, from: End, to: End, u: Use, k: u64, frame: Bytes)
    requires Lawful(c) && InOrder(from, to) && |from.submitted| == from.session.sendCtr
    requires k < from.session.sendCtr && u.key == to.session.recvKey && u.nonce == CtrNonce(k)
    requires u.plaintext == from.submitted[k] && u.ct == c.encrypt(u.key, u.nonce, [], u.plaintext)
    requires u.ct.Some? && frame == u.nonce + u.ct.value
    requires OpenFrame(c, to.session, frame).1.Ok?
    ensures k == to.session.recvCtr && OpenFrame(c, to.session, frame).1 == Ok(from.submitted[k])
  {
    assert frame[..NONCE_LEN] == u.nonce && frame[NONCE_LEN..] == u.ct.value;
    CtrNonceInjective(k, to.session.recvCtr);
  }

  lemma OpenedIsNext(c: Aead, n: Net, from: End, to: End, frame: Bytes)
    requires Lawful(c) && UsesOf(c, from, n.ledger) && InOrder(from, to)
    requires OpenFrame(c, to.session, frame).1.Ok? && Genuine(n, to.session.recvKey, frame)
    ensures |to.received| < |from.submitted|
    ensures OpenFrame(c, to.session, frame).1 == Ok(from.submitted[|to.received|])
  {
    var i :| 0 <= i < |n.ledger| && n.ledger[i].key == to.session.recvKey && n.ledger[i].ct.Some?
             && frame == n.ledger[i].nonce + n.ledger[i].ct.value;
    var u := n.ledger[i];
    var k: u64 :| k < from.session.sendCtr && u.nonce == CtrNonce(k) && u.plaintext == from.submitted[k]
                  && u.ct == c.encrypt(u.key, u.nonce, [], u.plaintext);
    GenuineIsNext(c, from, to, u, k, frame);
  }

  // What opens is what the cipher makes of it, under the next nonce.
  lemma OpenedIsAccepted(c: Aead, s: SessionState, frame: Bytes)
    requires OpenFrame(c, s, frame).1.Ok?
    ensures CipherAccepts(c, s.recvKey, frame) && frame[..NONCE_LEN] == CtrNonce(s.recvCtr)
    ensures c.decrypt(s.recvKey, CtrNonce(s.recvCtr), [], frame[NONCE_LEN..]) == Some(OpenFrame(c, s, frame).1.value)
  {
  }

  lemma DeliverKeepsInvariants(c: Aead, n: Net, atA: bool, frame: Bytes)
    requires Lawful(c) && Uses(c, n) && Ordered(n)
    requires !Forged(c, n, DeliverTo(atA, frame))
    ensures Uses(c, DeliverStep(c, n, atA, frame)) && Ordered(DeliverStep(c, n, atA, frame))
  {
    var from, to := EndAt(n, !atA), EndAt(n, atA);
    if OpenFrame(c, to.session, frame).1.Ok? {
      OpenedIsAccepted(c, to.session, frame);
      OpenedIsNext(c, n, from, to, frame);
    }
  }

  lemma {:induction false} RunKeepsInvariants(c: Aead, start: Net, evs: seq<Event>)
    requires Lawful(c) && Matched(start) && DistinctKeys(start)
    requires !ForgeryIn(c, start, evs)
    ensures Uses(c, Run(c, start, evs)) && Ordered(Run(c, start, evs))
  {
    if evs != [] {
      var init, last := evs[..|evs| - 1], evs[|evs| - 1];
      assert forall i :: 0 <= i < |init| ==> evs[i] == init[i] && evs[..i] == init[..i];
      RunKeepsInvariants(c, start, init);
      assert !Forged(c, Run(c, start, init), last);
      match last
      case SealAt(atA, plaintext) => SealKeepsInvariants(c, Run(c, start, init), atA, plaintext);
      case DeliverTo(atA, frame) => DeliverKeepsInvariants(c, Run(c, start, init), atA, frame);
    }
  }

  // ----- main results ----------------------------------------------------------------

  // Whatever the relay drops, repeats, reorders, alters or injects, what either side has
  // opened is an in-order prefix of what the other submitted, or the run holds a forgery.
  lemma OpenedIsPrefixOfSealed(c: Aead, start: Net, evs: seq<Event>)
    requires Lawful(c) && Matched(start) && DistinctKeys(start)
    ensures ForgeryIn(c, start, evs)
            || (Run(c, start, evs).b.received <= Run(c, start, evs).a.submitted
                && Run(c, start, evs).a.received <= Run(c, start, evs).b.submitted)
  {
    if !ForgeryIn(c, start, evs) {
      RunKeepsInvariants(c, start, evs);
    }
  }

  // Nonce discipline does not depend on the relay or on the cipher's law.
  ghost predicate Spent(n: Net) {
    && NoNonceReuse(n.ledger)
    && forall i :: 0 <= i < |n.ledger| ==>
         exists k: u64 :: n.ledger[i].nonce == CtrNonce(k)
           && ((n.ledger[i].key == n.a.session.sendKey && k < n.a.session.sendCtr)
               || (n.ledger[i].key == n.b.session.sendKey && k < n.b.session.sendCtr))
  }

  lemma SealKeepsSpent(c: Aead, n: Net, atA: bool, plaintext: Bytes)
    requires DistinctKeys(n) && Spent(n)
    ensures Spent(SealStep(c, n, atA, plaintext))
  {
    var n' := SealStep(c, n, atA, plaintext);
    if n' != n {
      var e := EndAt(n, atA).session;
      forall i | 0 <= i < |n.ledger|
        ensures n.ledger[i].key != e.sendKey || n.ledger[i].nonce != CtrNonce(e.sendCtr)
      {
        var k: u64 :| n.ledger[i].nonce == CtrNonce(k)
           && ((n.ledger[i].key == n.a.session.sendKey && k < n.a.session.sendCtr)
               || (n.ledger[i].key == n.b.session.sendKey && k < n.b.session.sendCtr));
        if CtrNonce(k) == CtrNonce(e.sendCtr) {
          CtrNonceInjective(k, e.sendCtr);
        }
      }
      assert n'.ledger[|n.ledger|].nonce == CtrNonce(e.sendCtr);
    }
  }

  lemma {:induction false} RunKeepsSpent(c: Aead, start: Net, evs: seq<Event>)
    requires Matched(start) && DistinctKeys(start)
    ensures Spent(Run(c, start, evs)) && DistinctKeys(Run(c, start, evs))
  {
    if evs != [] {
      var n, last := Run(c, start, evs[..|evs| - 1]), evs[|evs| - 1];
      RunKeepsSpent(c, start, evs[..|evs| - 1]);
      if last.SealAt? {
        SealKeepsSpent(c, n, last.atA, last.plaintext);
      }
    }
  }

  // No key and nonce are used twice, in either direction, up to and past counter exhaustion: the
  // last counter value is never used at all.
  lemma NoncesNeverRepeat(c: Aead, start: Net, evs: seq<Event>)
    requires Matched(start) && DistinctKeys(start)
    ensures NoNonceReuse(Run(c, start, evs).ledger)
    ensures forall i :: 0 <= i < |Run(c, start, evs).ledger| ==> Run(c, start, evs).ledger[i].nonce != CtrNonce(U64_LIMIT - 1)
  {
    RunKeepsSpent(c, start, evs);
    var n := Run(c, start, evs);
    forall i | 0 <= i < |n.ledger|
      ensures n.ledger[i].nonce != CtrNonce(U64_LIMIT - 1)
    {
      var k: u64 :| n.ledger[i].nonce == CtrNonce(k)
         && ((n.ledger[i].key == n.a.session.sendKey && k < n.a.session.sendCtr)
             || (n.ledger[i].key == n.b.session.sendKey && k < n.b.session.sendCtr));
      if CtrNonce(k) == CtrNonce(U64_LIMIT - 1) {
        CtrNonceInjective(k, U64_LIMIT - 1);
      }
    }
  }

  // The directional keys are what separates the two nonce spaces: with one key for both
  // directions the first frame of each side would share a nonce.
  lemma SharedKeyReusesNonces(c: Aead, start: Net, p: Bytes, q: Bytes)
    requires Matched(start) && !DistinctKeys(start)
    ensures !NoNonceReuse(Run(c, start, [SealAt(true, p), SealAt(false, q)]).ledger)
  {
    var evs := [SealAt(true, p), SealAt(false, q)];
    assert evs[..1] == [SealAt(true, p)] && evs[..1][..0] == [];
    var n1 := SealStep(c, start, true, p);
    assert Run(c, start, evs[..1]) == n1;
    var n2 := SealStep(c, n1, false, q);
    assert Run(c, start, evs) == n2;
    assert n2.ledger[0].nonce == CtrNonce(0) == n2.ledger[1].nonce;
  }
}
