// Data sealed on the client: external items (one envelope) and resident files (ciphertext and
// one key half on the client, the other half on the server), and changing the key over either.
module ClientKeys {
  import opened Base
  import opened Bytes
  import opened Crypto
  import opened Envelope
  import opened KeyBinding

  // `defaults` are the costs new passphrase seals record; the header codec is JSON's.
  datatype Suite = Suite(
    aead: Aead,
    argon2: (Bytes, Bytes, Costs) -> Option<Key>,
    scrypt: (Bytes, Bytes) -> Key,
    defaults: Costs,
    printHeader: Header -> Bytes,
    parseHeader: Bytes -> Option<Header>)

  datatype Header = Header(mode: byte, salt: Bytes, costs: Costs, wrappedC: Bytes, origName: Bytes)

  datatype ExtKey = Cmk(cmk: Key) | Passphrase(pass: Bytes)

  // What a reader brings: the profile's master key, and a passphrase.
  datatype Credentials = Credentials(cmk: Option<Key>, pass: Option<Bytes>)

  datatype Error = MalformedInput | NoMasterKey | NoPassphrase | KdfFailed | SealFailure | WrongKey | WrongHalf

  type Salt = s: Bytes | |s| == 16 witness seq(16, _ => 0)

  // The random draws of one seal.
  datatype Draws = Draws(dek: Key, salt: Salt, wrapNonce: Nonce, dataNonce: Nonce)

  ghost predicate GoodSuite(s: Suite) {
    && Lawful(s.aead)
    && forall h: Header :: s.parseHeader(s.printHeader(h)) == Some(h)
  }

  // The reader holds what this key needs.
  predicate Holds(c: Credentials, key: ExtKey) {
    match key
    case Cmk(k) => c.cmk == Some(k)
    case Passphrase(p) => c.pass == Some(p)
  }

  // ----- the wrapping key ------------------------------------------------------------

  datatype Wrapping = Wrapping(mode: byte, salt: Bytes, costs: Costs, kek: Key)

  function WrappingFor(s: Suite, key: ExtKey, salt: Salt): Result<Wrapping, Error> {
    match key
    case Cmk(k) => Ok(Wrapping(MODE_CMK, [], Costs(0, 0, 0), k))
    case Passphrase(p) =>
      match s.argon2(p, salt, s.defaults)
      case None => Err(KdfFailed)
      case Some(kek) => Ok(Wrapping(MODE_ARGON2, salt, s.defaults, kek))
  }

  function PassphraseKek(s: Suite, c: Credentials, salt: Bytes, costs: Costs): Result<Key, Error> {
    match c.pass
    case None => Err(NoPassphrase)
    case Some(p) =>
      match s.argon2(p, salt, costs)
      case None => Err(KdfFailed)
      case Some(kek) => Ok(kek)
  }

  function MasterKek(c: Credentials): Result<Key, Error> {
    match c.cmk
    case None => Err(NoMasterKey)
    case Some(k) => Ok(k)
  }

  lemma HolderRecoversKek(s: Suite, key: ExtKey, salt: Salt, c: Credentials)
    requires WrappingFor(s, key, salt).Ok? && Holds(c, key)
    ensures var w := WrappingFor(s, key, salt).value;
            (if w.mode == MODE_CMK then MasterKek(c) else PassphraseKek(s, c, w.salt, w.costs)) == Ok(w.kek)
  {
  }

  // ----- external items --------------------------------------------------------------

  function SealParts(s: Suite, key: ExtKey, plaintext: Bytes, d: Draws): Result<(Bytes, Bytes), Error> {
    match WrappingFor(s, key, d.salt)
    case Err(e) => Err(e)
    case Ok(w) =>
      match (Seal(s.aead, d.dek, w.kek, d.wrapNonce), Seal(s.aead, plaintext, d.dek, d.dataNonce))
      case (Ok(wrapped), Ok(ct)) => Ok((EncodedV2(w.mode, w.salt, w.costs, wrapped, []), ct))
      case _ => Err(SealFailure)
  }

  function ExternalSeal(s: Suite, key: ExtKey, plaintext: Bytes, d: Draws): Result<Bytes, Error> {
    match SealParts(s, key, plaintext, d)
    case Err(e) => Err(e)
    case Ok((meta, ct)) => Ok(meta + ct)
  }

  function ExternalKek(s: Suite, env: ExtEnvelope, c: Credentials): Result<Key, Error> {
    if env.version == V2 && env.mode == MODE_CMK then MasterKek(c)
    else if env.version == V2 then PassphraseKek(s, c, env.salt, env.costs)
    else
      match c.pass
      case None => Err(NoPassphrase)
      case Some(p) => Ok(s.scrypt(p, env.salt))
  }

  function ExternalOpen(s: Suite, env: ExtEnvelope, c: Credentials): Result<Bytes, Error> {
    match ExternalKek(s, env, c)
    case Err(e) => Err(e)
    case Ok(kek) =>
      match Open(s.aead, env.wrappedDek, kek)
      case Err(_) => Err(WrongKey)
      case Ok(dek) =>
        match Open(s.aead, env.ciphertext, dek)
        case Err(_) => Err(WrongKey)
        case Ok(p) => Ok(p)
  }

  function OpenBytes(s: Suite, buf: Bytes, c: Credentials): Result<Bytes, Error> {
    match Decoded(buf)
    case Err(_) => Err(MalformedInput)
    case Ok(env) => ExternalOpen(s, env, c)
  }

  lemma SealedItemOpens(s: Suite, key: ExtKey, plaintext: Bytes, d: Draws, c: Credentials)
    requires GoodSuite(s) && ExternalSeal(s, key, plaintext, d).Ok? && Holds(c, key)
    ensures OpenBytes(s, ExternalSeal(s, key, plaintext, d).value, c) == Ok(plaintext)
  {
    var w := WrappingFor(s, key, d.salt).value;
    var wrapped, ct := Seal(s.aead, d.dek, w.kek, d.wrapNonce).value, Seal(s.aead, plaintext, d.dek, d.dataNonce).value;
    SealedOpens(s.aead, d.dek, w.kek, [], d.wrapNonce);
    SealedOpens(s.aead, plaintext, d.dek, [], d.dataNonce);
    HeaderThenCiphertext(w.mode, w.salt, w.costs, wrapped, ct);
    RoundTripExactly(w.mode, w.salt, w.costs, wrapped, ct);
    HolderRecoversKek(s, key, d.salt, c);
  }

  // Open with the current key, seal the same plaintext under the new one.
  function Rekey(s: Suite, buf: Bytes, c: Credentials, target: ExtKey, d: Draws): Result<Bytes, Error> {
    match OpenBytes(s, buf, c)
    case Err(e) => Err(e)
    case Ok(plain) => ExternalSeal(s, target, plain, d)
  }

  // One change of key: the credentials it was made with, the key it went to, and its draws.
  datatype Change = Change(maker: Credentials, target: ExtKey, draws: Draws)

  function Rekeyed(s: Suite, buf: Bytes, changes: seq<Change>): Result<Bytes, Error> {
    if changes == [] then Ok(buf)
    else
      var last := changes[|changes| - 1];
      match Rekeyed(s, buf, changes[..|changes| - 1])
      case Err(e) => Err(e)
      case Ok(mid) => Rekey(s, mid, last.maker, last.target, last.draws)
  }

  // Every change is made by someone who can open what the one before left.
  ghost predicate Handed(changes: seq<Change>) {
    forall i :: 1 <= i < |changes| ==> Holds(changes[i].maker, changes[i - 1].target)
  }

  // After any number of changes between managed key and passphrase, from either format version,
  // the item opens to its first plaintext under the last key.
  lemma {:induction false} RekeyingKeepsPlaintext(s: Suite, buf: Bytes, plaintext: Bytes, changes: seq<Change>, c: Credentials)
    requires GoodSuite(s) && changes != [] && Handed(changes)
    requires OpenBytes(s, buf, changes[0].maker) == Ok(plaintext)
    requires Rekeyed(s, buf, changes).Ok? && Holds(c, changes[|changes| - 1].target)
    ensures OpenBytes(s, Rekeyed(s, buf, changes).value, c) == Ok(plaintext)
  {
    var init, last := changes[..|changes| - 1], changes[|changes| - 1];
    if init == [] {
      SealedItemOpens(s, last.target, plaintext, last.draws, c);
    } else {
      assert Holds(last.maker, init[|init| - 1].target);
      RekeyingKeepsPlaintext(s, buf, plaintext, init, last.maker);
      SealedItemOpens(s, last.target, plaintext, last.draws, c);
    }
  }

  // ----- split keys ------------------------------------------------------------------

  // Knowing one half says nothing: every file key is possible, for exactly one other half.
  lemma OneHalfFixesNothing(half: Key, fileKey: Key)
    ensures exists other: Key :: Xor(half, other) == fileKey
    ensures forall other: Key :: Xor(half, other) == fileKey <==> other == Xor(fileKey, half)
  {
    forall other: Key
      ensures Xor(half, other) == fileKey <==> other == Xor(fileKey, half)
    {
      XorCancels(other, half);
      XorCancels(fileKey, half);
      XorCancels(half, other);
    }
    var other: Key := Xor(fileKey, half);
    assert Xor(half, other) == fileKey;
  }

  // ----- resident files --------------------------------------------------------------

  // "BBKR"
  const MAGIC: Bytes := [66, 66, 75, 82]

  function Stash(s: Suite, h: Header, ct: Bytes): Bytes {
    MAGIC + U32(|s.printHeader(h)|) + s.printHeader(h) + ct
  }

  // The client half wrapped under the key.
  function HeaderFor(s: Suite, key: ExtKey, half: Key, name: Bytes, salt: Salt, nonce: Nonce): Result<Header, Error> {
    match WrappingFor(s, key, salt)
    case Err(e) => Err(e)
    case Ok(w) =>
      match Seal(s.aead, half, w.kek, nonce)
      case Err(_) => Err(SealFailure)
      case Ok(wrapped) => Ok(Header(w.mode, w.salt, w.costs, wrapped, name))
  }

  // The stash for the client's disk and the half for the server.
  function ResidentSeal(s: Suite, key: ExtKey, plaintext: Bytes, name: Bytes, fileKey: Key, half: Key, d: Draws)
    : Result<(Bytes, Key), Error>
  {
    match Seal(s.aead, plaintext, fileKey, d.dataNonce)
    case Err(_) => Err(SealFailure)
    case Ok(ct) =>
      match HeaderFor(s, key, half, name, d.salt, d.wrapNonce)
      case Err(e) => Err(e)
      case Ok(h) => Ok((Stash(s, h, ct), Xor(fileKey, half)))
  }

  function ResidentParse(s: Suite, stash: Bytes): Result<(Header, Bytes), Error> {
    if |stash| < 8 || stash[..4] != MAGIC then Err(MalformedInput)
    else
      var hlen := U32At(stash, 4);
      if |stash| < 8 + hlen then Err(MalformedInput)
      else
        match s.parseHeader(stash[8..8 + hlen])
        case None => Err(MalformedInput)
        case Some(h) => Ok((h, stash[8 + hlen..]))
  }

  function UnwrapClientHalf(s: Suite, h: Header, c: Credentials): Result<Bytes, Error> {
    match (if h.mode == MODE_CMK then MasterKek(c) else PassphraseKek(s, c, h.salt, h.costs))
    case Err(e) => Err(e)
    case Ok(kek) =>
      match Open(s.aead, h.wrappedC, kek)
      case Err(_) => Err(WrongKey)
      case Ok(half) => if |half| != KEY_LEN then Err(WrongHalf) else Ok(half)
  }

  function ResidentOpen(s: Suite, h: Header, ct: Bytes, serverHalf: Bytes, c: Credentials): Result<Bytes, Error> {
    match UnwrapClientHalf(s, h, c)
    case Err(e) => Err(e)
    case Ok(half) =>
      if |serverHalf| != |half| then Err(WrongHalf)
      else
        match Open(s.aead, ct, Xor(half, serverHalf))
        case Err(_) => Err(WrongKey)
        case Ok(p) => Ok(p)
  }

  // Only the client half is rewrapped; the ciphertext goes over unchanged.
  function ResidentRekey(s: Suite, stash: Bytes, c: Credentials, target: ExtKey, d: Draws): Result<Bytes, Error> {
    match ResidentParse(s, stash)
    case Err(e) => Err(e)
    case Ok((h, ct)) =>
      match UnwrapClientHalf(s, h, c)
      case Err(e) => Err(e)
      case Ok(half) =>
        if |half| != KEY_LEN then Err(WrongHalf)
        else
          match HeaderFor(s, target, half, h.origName, d.salt, d.wrapNonce)
          case Err(e) => Err(e)
          case Ok(h') => Ok(Stash(s, h', ct))
  }

  // A stash whose header is under 2^32 bytes long reads back as written.
  lemma StashRoundTrip(s: Suite, h: Header, ct: Bytes)
    requires GoodSuite(s) && |s.printHeader(h)| < U32_LIMIT
    ensures ResidentParse(s, Stash(s, h, ct)) == Ok((h, ct))
  {
    var text := s.printHeader(h);
    var stash := Stash(s, h, ct);
    assert stash == MAGIC + U32(|text|) + (text + ct);
    U32AtOf(MAGIC, |text|, text + ct);
    assert stash[..4] == MAGIC && stash[8..8 + |text|] == text && stash[8 + |text|..] == ct;
  }

  lemma HeaderOpens(s: Suite, key: ExtKey, half: Key, name: Bytes, salt: Salt, nonce: Nonce, c: Credentials)
    requires GoodSuite(s) && HeaderFor(s, key, half, name, salt, nonce).Ok? && Holds(c, key)
    ensures UnwrapClientHalf(s, HeaderFor(s, key, half, name, salt, nonce).value, c) == Ok(half)
  {
    var w := WrappingFor(s, key, salt).value;
    SealedOpens(s.aead, half, w.kek, [], nonce);
    HolderRecoversKek(s, key, salt, c);
  }

  // The stash belongs to this file: it parses to this ciphertext, and holders of `key` get this
  // client half out of it.
  ghost predicate StashOf(s: Suite, stash: Bytes, key: ExtKey, half: Key, ct: Bytes, name: Bytes) {
    && ResidentParse(s, stash).Ok?
    && var (h, text) := ResidentParse(s, stash).value;
       && text == ct && h.origName == name
       && forall c: Credentials :: Holds(c, key) ==> UnwrapClientHalf(s, h, c) == Ok(half)
  }

  // Headers for this file name, with a salt and wrapped half of the sizes sealing makes, stay
  // under 2^32 bytes.
  ghost predicate HeadersFit(s: Suite, name: Bytes) {
    forall h: Header :: h.origName == name && |h.salt| <= 16 && |h.wrappedC| == NONCE_LEN + KEY_LEN + TAG_LEN
                        ==> |s.printHeader(h)| < U32_LIMIT
  }

  lemma WrittenStash(s: Suite, key: ExtKey, half: Key, name: Bytes, ct: Bytes, salt: Salt, nonce: Nonce)
    requires GoodSuite(s) && HeadersFit(s, name) && HeaderFor(s, key, half, name, salt, nonce).Ok?
    ensures StashOf(s, Stash(s, HeaderFor(s, key, half, name, salt, nonce).value, ct), key, half, ct, name)
  {
    var h := HeaderFor(s, key, half, name, salt, nonce).value;
    SealedOpens(s.aead, half, WrappingFor(s, key, salt).value.kek, [], nonce);
    StashRoundTrip(s, h, ct);
    forall c: Credentials | Holds(c, key)
      ensures UnwrapClientHalf(s, h, c) == Ok(half)
    {
      HeaderOpens(s, key, half, name, salt, nonce, c);
    }
  }

  function ResidentRekeyed(s: Suite, stash: Bytes, changes: seq<Change>): Result<Bytes, Error> {
    if changes == [] then Ok(stash)
    else
      var last := changes[|changes| - 1];
      match ResidentRekeyed(s, stash, changes[..|changes| - 1])
      case Err(e) => Err(e)
      case Ok(mid) => ResidentRekey(s, mid, last.maker, last.target, last.draws)
  }

  function LastKey(key: ExtKey, changes: seq<Change>): ExtKey {
    if changes == [] then key else changes[|changes| - 1].target
  }

  lemma {:induction false} RekeyingKeepsStash(s: Suite, stash: Bytes, key: ExtKey, half: Key, ct: Bytes, name: Bytes, changes: seq<Change>)
    requires GoodSuite(s) && HeadersFit(s, name) && StashOf(s, stash, key, half, ct, name)
    requires Handed(changes) && (changes != [] ==> Holds(changes[0].maker, key))
    requires ResidentRekeyed(s, stash, changes).Ok?
    ensures StashOf(s, ResidentRekeyed(s, stash, changes).value, LastKey(key, changes), half, ct, name)
  {
    if changes != [] {
      var init, last := changes[..|changes| - 1], changes[|changes| - 1];
      if init != [] {
        assert Holds(last.maker, init[|init| - 1].target);
      }
      RekeyingKeepsStash(s, stash, key, half, ct, name, init);
      WrittenStash(s, last.target, half, name, ct, last.draws.salt, last.draws.wrapNonce);
    }
  }

  // After any number of changes of key, the resident file's ciphertext is the one first written
  // and opens to the file with the server half first handed out.
  lemma RekeyingKeepsFile(s: Suite, key: ExtKey, plaintext: Bytes, name: Bytes, fileKey: Key, half: Key, d: Draws,
                          changes: seq<Change>, c: Credentials)
    requires GoodSuite(s) && HeadersFit(s, name)
    requires ResidentSeal(s, key, plaintext, name, fileKey, half, d).Ok?
    requires Handed(changes) && (changes != [] ==> Holds(changes[0].maker, key))
    requires ResidentRekeyed(s, ResidentSeal(s, key, plaintext, name, fileKey, half, d).value.0, changes).Ok?
    requires Holds(c, LastKey(key, changes))
    ensures var (stash, serverHalf) := ResidentSeal(s, key, plaintext, name, fileKey, half, d).value;
            var parsed := ResidentParse(s, ResidentRekeyed(s, stash, changes).value);
            && parsed.Ok? && ResidentParse(s, stash).Ok?
            && parsed.value.1 == ResidentParse(s, stash).value.1
            && ResidentOpen(s, parsed.value.0, parsed.value.1, serverHalf, c) == Ok(plaintext)
  {
    var (stash, serverHalf) := ResidentSeal(s, key, plaintext, name, fileKey, half, d).value;
    var ct := Seal(s.aead, plaintext, fileKey, d.dataNonce).value;
    WrittenStash(s, key, half, name, ct, d.salt, d.wrapNonce);
    RekeyingKeepsStash(s, stash, key, half, ct, name, changes);
    XorCancels(fileKey, half);
    XorCancels(serverHalf, half);
    SealedOpens(s.aead, plaintext, fileKey, [], d.dataNonce);
  }

  // ----- what the wrong key gets -----------------------------------------------------

  // Where the halves are: the client's in the stash under its key, the server's the rest of the
  // file key, and the file itself under the file key.
  lemma ResidentHalves(s: Suite, key: ExtKey, plaintext: Bytes, name: Bytes, fileKey: Key, half: Key, d: Draws, c: Credentials)
    requires GoodSuite(s) && HeadersFit(s, name) && Holds(c, key)
    requires ResidentSeal(s, key, plaintext, name, fileKey, half, d).Ok?
    ensures var (stash, serverHalf) := ResidentSeal(s, key, plaintext, name, fileKey, half, d).value;
            var parsed := ResidentParse(s, stash);
            && parsed.Ok? && UnwrapClientHalf(s, parsed.value.0, c) == Ok(half)
            && Xor(half, serverHalf) == fileKey && serverHalf == Xor(fileKey, half)
            && Open(s.aead, parsed.value.1, fileKey) == Ok(plaintext)
  {
    var ct := Seal(s.aead, plaintext, fileKey, d.dataNonce).value;
    WrittenStash(s, key, half, name, ct, d.salt, d.wrapNonce);
    SealedOpens(s.aead, plaintext, fileKey, [], d.dataNonce);
    XorCancels(fileKey, half);
    XorCancels(Xor(fileKey, half), half);
  }

  lemma OpenElsewhere(c: Aead, plaintext: Bytes, made: Key, other: Key, nonce: Nonce)
    requires Seal(c, plaintext, made, nonce).Ok? && made != other
    ensures Open(c, Seal(c, plaintext, made, nonce).value, other).Err? || WrongKeyOpens(c, made, other, nonce, [], plaintext)
  {
    var ct := c.encrypt(made, nonce, [], plaintext).value;
    assert (nonce + ct)[..NONCE_LEN] == nonce && (nonce + ct)[NONCE_LEN..] == ct;
  }

  // An item opens for no one whose wrapping key is another than the one it was sealed under,
  // unless the wrapped key opens under a key it was not made with.
  lemma OtherKeyRefused(s: Suite, key: ExtKey, plaintext: Bytes, d: Draws, c: Credentials, other: Key)
    requires GoodSuite(s) && ExternalSeal(s, key, plaintext, d).Ok?
    requires var w := WrappingFor(s, key, d.salt).value;
             (if w.mode == MODE_CMK then MasterKek(c) else PassphraseKek(s, c, w.salt, w.costs)) == Ok(other) && other != w.kek
    ensures OpenBytes(s, ExternalSeal(s, key, plaintext, d).value, c) == Err(WrongKey)
            || WrongKeyOpens(s.aead, WrappingFor(s, key, d.salt).value.kek, other, d.wrapNonce, [], d.dek)
  {
    var w := WrappingFor(s, key, d.salt).value;
    var wrapped, ct := Seal(s.aead, d.dek, w.kek, d.wrapNonce).value, Seal(s.aead, plaintext, d.dek, d.dataNonce).value;
    SealedOpens(s.aead, d.dek, w.kek, [], d.wrapNonce);
    HeaderThenCiphertext(w.mode, w.salt, w.costs, wrapped, ct);
    RoundTripExactly(w.mode, w.salt, w.costs, wrapped, ct);
    OpenElsewhere(s.aead, d.dek, w.kek, other, d.wrapNonce);
  }

  // Someone else unwraps `secret`: two passphrases stretch alike, or it opens under a key it was
  // not wrapped under.
  ghost predicate UnwrapsForAnother(s: Suite, key: ExtKey, secret: Bytes, d: Draws, c: Credentials) {
    match key
    case Cmk(k) => c.cmk.Some? && WrongKeyOpens(s.aead, k, c.cmk.value, d.wrapNonce, [], secret)
    case Passphrase(p) =>
      && c.pass.Some? && c.pass.value != p
      && s.argon2(p, d.salt, s.defaults).Some? && s.argon2(c.pass.value, d.salt, s.defaults).Some?
      && var made, other := s.argon2(p, d.salt, s.defaults).value, s.argon2(c.pass.value, d.salt, s.defaults).value;
         made == other || WrongKeyOpens(s.aead, made, other, d.wrapNonce, [], secret)
  }

  // What an item is sealed under is what opens it.
  lemma OpensForHoldersOnly(s: Suite, key: ExtKey, plaintext: Bytes, d: Draws, c: Credentials)
    requires GoodSuite(s) && ExternalSeal(s, key, plaintext, d).Ok?
    requires OpenBytes(s, ExternalSeal(s, key, plaintext, d).value, c).Ok?
    ensures Holds(c, key) || UnwrapsForAnother(s, key, d.dek, d, c)
  {
    var w := WrappingFor(s, key, d.salt).value;
    var wrapped, ct := Seal(s.aead, d.dek, w.kek, d.wrapNonce).value, Seal(s.aead, plaintext, d.dek, d.dataNonce).value;
    SealedOpens(s.aead, d.dek, w.kek, [], d.wrapNonce);
    HeaderThenCiphertext(w.mode, w.salt, w.costs, wrapped, ct);
    RoundTripExactly(w.mode, w.salt, w.costs, wrapped, ct);
    var other := (if w.mode == MODE_CMK then MasterKek(c) else PassphraseKek(s, c, w.salt, w.costs)).value;
    if other != w.kek {
      OtherKeyRefused(s, key, plaintext, d, c, other);
    }
  }

  // Nor does a resident file with another server half.
  lemma OtherHalfRefused(s: Suite, key: ExtKey, plaintext: Bytes, name: Bytes, fileKey: Key, half: Key, d: Draws,
                         c: Credentials, other: Key)
    requires GoodSuite(s) && HeadersFit(s, name) && Holds(c, key)
    requires ResidentSeal(s, key, plaintext, name, fileKey, half, d).Ok?
    requires other != ResidentSeal(s, key, plaintext, name, fileKey, half, d).value.1
    ensures var parsed := ResidentParse(s, ResidentSeal(s, key, plaintext, name, fileKey, half, d).value.0);
            && parsed.Ok?
            && (ResidentOpen(s, parsed.value.0, parsed.value.1, other, c) == Err(WrongKey)
                || WrongKeyOpens(s.aead, fileKey, Xor(half, other), d.dataNonce, [], plaintext))
  {
    var ct := Seal(s.aead, plaintext, fileKey, d.dataNonce).value;
    WrittenStash(s, key, half, name, ct, d.salt, d.wrapNonce);
    OneHalfFixesNothing(half, fileKey);
    OpenElsewhere(s.aead, plaintext, fileKey, Xor(half, other), d.dataNonce);
  }

  // ----- the older format ------------------------------------------------------------

  // An item of the first version, its key wrapped under what the passphrase stretches to with the
  // salt, opens with that passphrase; so it can be rekeyed.
  lemma OlderItemOpens(s: Suite, pass: Bytes, plaintext: Bytes, d: Draws, c: Credentials)
    requires GoodSuite(s) && c.pass == Some(pass)
    requires Seal(s.aead, d.dek, s.scrypt(pass, d.salt), d.wrapNonce).Ok? && Seal(s.aead, plaintext, d.dek, d.dataNonce).Ok?
    ensures var wrapped := Seal(s.aead, d.dek, s.scrypt(pass, d.salt), d.wrapNonce).value;
            OpenBytes(s, [V1] + Body(d.salt, wrapped, Seal(s.aead, plaintext, d.dek, d.dataNonce).value), c) == Ok(plaintext)
  {
    SealedOpens(s.aead, d.dek, s.scrypt(pass, d.salt), [], d.wrapNonce);
    SealedOpens(s.aead, plaintext, d.dek, [], d.dataNonce);
    LegacyRoundTrip(d.salt, Seal(s.aead, d.dek, s.scrypt(pass, d.salt), d.wrapNonce).value,
                    Seal(s.aead, plaintext, d.dek, d.dataNonce).value);
  }
}
