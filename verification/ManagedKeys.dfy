// Named, versioned keys kept by the server: their lifecycle, and what was encrypted under them,
// with other callers' operations between a caller's look at a key and its use.
module ManagedKeys {
  import opened Base
  import opened Bytes
  import opened Crypto
  import opened KeyBinding
  import opened Text

  const MAX_VERSION := 0x7FFF_FFFF

  // "blackbook/managed-key/v1" and a zero byte
  const AAD_LABEL: Bytes := [98, 108, 97, 99, 107, 98, 111, 111, 107, 47, 109, 97, 110, 97, 103, 101, 100, 45, 107, 101, 121, 47, 118, 49, 0]

  type Id = Bytes

  // Domain and key name.
  type Slot = (string, string)

  datatype KeyType = Aes256Gcm | Ed25519 | Hmac

  datatype Row = Row(keyType: KeyType, latest: nat)

  // The key rows and the sealed material of each version.
  datatype Store = Store(names: map<Slot, Id>, rows: map<Id, Row>, versions: map<(Id, nat), Bytes>)

  // A key row as a caller read it.
  datatype Snapshot = Snapshot(id: Id, keyType: KeyType, latest: nat)

  datatype Error =
    | AlreadyExists
    | NotFound
    | WrongType
    | UnknownVersion
    | MissingMaterial
    | IntegrityFailed
    | SealingFailed
    | VersionsExhausted
    | BadText
    | DecryptFailed

  // The server's secrets and codecs: cipher, key-encryption key, base64.
  datatype Server = Server(aead: Aead, kek: Key, encode: Bytes -> string, decode: string -> Option<Bytes>)

  ghost predicate Good(s: Server) {
    && Lawful(s.aead)
    && (forall b: Bytes :: s.decode(s.encode(b)) == Some(b))
    && (forall b: Bytes :: s.encode(b) != "" ==> !IsSpace(s.encode(b)[|s.encode(b)| - 1]))
  }

  // ----- version-tagged text ---------------------------------------------------------

  const PREFIX := "bbk:v"

  function Versioned(s: Server, version: nat, ct: Bytes): string {
    PREFIX + Decimal(version) + ":" + s.encode(ct)
  }

  function ParseVersioned(s: Server, text: string): Result<(nat, Bytes), Error> {
    var t := Trim(text);
    if !(PREFIX <= t) then Err(BadText)
    else match SplitOnce(t[|PREFIX|..], ':')
      case None => Err(BadText)
      case Some((ver, body)) =>
        match (ParseI32(ver), s.decode(body))
        case (Some(v), Some(ct)) => if v < 1 then Err(BadText) else Ok((v, ct))
        case _ => Err(BadText)
  }

  lemma VersionedRoundTrip(s: Server, version: nat, ct: Bytes)
    requires Good(s) && 1 <= version <= MAX_VERSION
    ensures ParseVersioned(s, Versioned(s, version, ct)) == Ok((version, ct))
  {
    var d, body := Decimal(version), s.encode(ct);
    var t := Versioned(s, version, ct);
    assert t[0] == 'b' && t[|t| - 1] == if body == "" then ':' else body[|body| - 1];
    NothingToTrim(t);
    assert t[|PREFIX|..] == d + [':'] + body;
    SplitOnceAt(d, ':', body);
    ParseDecimal(version, 0x8000_0000);
  }

  // A token's key id is the key's name, ":v" and the version.
  function Kid(name: string, version: nat): string {
    name + ":v" + Decimal(version)
  }

  // At the last ":v".
  function RSplitVersion(kid: string): Option<(string, string)> {
    if |kid| < 2 then None
    else if kid[|kid| - 2..] == ":v" then Some((kid[..|kid| - 2], ""))
    else match RSplitVersion(kid[..|kid| - 1])
      case None => None
      case Some((name, ver)) => Some((name, ver + [kid[|kid| - 1]]))
  }

  // The version a token was made under; the latest when it names none.
  function TokenVersion(kid: Option<string>, name: string, latest: nat): Result<int, Error> {
    match kid
    case None => Ok(latest)
    case Some(k) =>
      match RSplitVersion(k)
      case None => Err(BadText)
      case Some((n, ver)) =>
        if n != name then Err(WrongType)
        else match ParseI32(ver)
          case None => Err(BadText)
          case Some(v) => Ok(v)
  }

  lemma {:induction false} RSplitAfterName(name: string, digits: string)
    requires AllDigits(digits)
    ensures RSplitVersion(name + ":v" + digits) == Some((name, digits))
  {
    var k := name + ":v" + digits;
    if digits == "" {
      assert k[|k| - 2..] == ":v" && k[..|k| - 2] == name;
    } else {
      assert k[..|k| - 1] == name + ":v" + digits[..|digits| - 1];
      assert k[|k| - 2..][1] == digits[|digits| - 1];
      RSplitAfterName(name, digits[..|digits| - 1]);
      assert digits[..|digits| - 1] + [digits[|digits| - 1]] == digits;
    }
  }

  // Whatever the name, even one with ":v" in it, the version reads back from the key id; and the
  // id of a differently named key is refused.
  lemma KidReadsBack(name: string, version: nat, other: string, latest: nat)
    requires version <= MAX_VERSION
    ensures TokenVersion(Some(Kid(name, version)), other, latest) == if name == other then Ok(version) else Err(WrongType)
  {
    RSplitAfterName(name, Decimal(version));
    ParseDecimal(version, 0x8000_0000);
  }

  // ----- sealed material -------------------------------------------------------------

  function MaterialAad(id: Id, version: nat): Bytes {
    AAD_LABEL + id + [0] + BigEndian(4, version)
  }

  // One version of one key: no other pair has its associated data.
  lemma MaterialAadInjective(id: Id, v: nat, id': Id, v': nat)
    requires v <= MAX_VERSION && v' <= MAX_VERSION && MaterialAad(id, v) == MaterialAad(id', v')
    ensures id == id' && v == v'
  {
    var a, b, n := MaterialAad(id, v), MaterialAad(id', v'), |AAD_LABEL|;
    assert a[|a| - 4..] == BigEndian(4, v) && b[|b| - 4..] == BigEndian(4, v');
    assert a[n..|a| - 5] == id && b[n..|b| - 5] == id';
    Pow256Values();
    BigEndianInjective(4, v, v');
  }

  function SealMaterial(s: Server, id: Id, version: nat, material: Key, nonce: Nonce): Result<Bytes, Error> {
    match SealAad(s.aead, material, s.kek, MaterialAad(id, version), nonce)
    case Err(_) => Err(SealingFailed)
    case Ok(b) => Ok(b)
  }

  function LoadMaterial(s: Server, st: Store, key: Snapshot, version: nat): Result<Bytes, Error> {
    if version < 1 || version > key.latest then Err(UnknownVersion)
    else if (key.id, version) !in st.versions then Err(MissingMaterial)
    else match OpenAad(s.aead, st.versions[(key.id, version)], s.kek, MaterialAad(key.id, version))
      case Err(_) => Err(IntegrityFailed)
      case Ok(m) => Ok(m)
  }

  // ----- lifecycle -------------------------------------------------------------------

  function Look(st: Store, slot: Slot): Result<Snapshot, Error> {
    if slot in st.names && st.names[slot] in st.rows
    then Ok(Snapshot(st.names[slot], st.rows[st.names[slot]].keyType, st.rows[st.names[slot]].latest))
    else Err(NotFound)
  }

  function Created(s: Server, st: Store, slot: Slot, id: Id, keyType: KeyType, material: Key, nonce: Nonce): Result<Store, Error> {
    if slot in st.names then Err(AlreadyExists)
    else match SealMaterial(s, id, 1, material, nonce)
      case Err(e) => Err(e)
      case Ok(sealed) =>
        Ok(Store(st.names[slot := id], st.rows[id := Row(keyType, 1)], st.versions[(id, 1) := sealed]))
  }

  function Rotated(s: Server, st: Store, key: Snapshot, material: Key, nonce: Nonce): Result<Store, Error> {
    if key.id !in st.rows then Err(NotFound)
    else if st.rows[key.id].latest + 1 > MAX_VERSION then Err(VersionsExhausted)
    else
      var version := st.rows[key.id].latest + 1;
      match SealMaterial(s, key.id, version, material, nonce)
      case Err(e) => Err(e)
      case Ok(sealed) =>
        Ok(st.(rows := st.rows[key.id := st.rows[key.id].(latest := version)],
               versions := st.versions[(key.id, version) := sealed]))
  }

  // The versions go with the key.
  function Deleted(st: Store, key: Snapshot): Store {
    Store(map n | n in st.names && st.names[n] != key.id :: st.names[n],
          st.rows - {key.id},
          map kv | kv in st.versions && kv.0 != key.id :: st.versions[kv])
  }

  class KeyStore {
    const server: Server
    var names: map<Slot, Id>
    var rows: map<Id, Row>
    var versions: map<(Id, nat), Bytes>

    constructor (server: Server)
      ensures this.server == server && State() == Store(map[], map[], map[])
    {
      this.server := server;
      names, rows, versions := map[], map[], map[];
    }

    ghost function State(): Store
      reads this
    {
      Store(names, rows, versions)
    }

    method CreateKey(slot: Slot, id: Id, keyType: KeyType, material: Key, nonce: Nonce) returns (r: Result<(), Error>)
      modifies this`names, this`rows, this`versions
      ensures match Created(server, old(State()), slot, id, keyType, material, nonce) {
                case Ok(st) => r == Ok(()) && State() == st
                case Err(e) => r == Err(e) && State() == old(State())
              }
    {
      if slot in names {
        return Err(AlreadyExists);
      }
      var sealed :- SealMaterial(server, id, 1, material, nonce);
      names := names[slot := id];
      rows := rows[id := Row(keyType, 1)];
      versions := versions[(id, 1) := sealed];
      return Ok(());
    }

    // Bumping the counter and storing the version are one transaction.
    method RotateKey(key: Snapshot, material: Key, nonce: Nonce) returns (r: Result<nat, Error>)
      modifies this`rows, this`versions
      ensures match Rotated(server, old(State()), key, material, nonce) {
                case Ok(st) => State() == st && key.id in rows && r == Ok(rows[key.id].latest)
                case Err(e) => r == Err(e) && State() == old(State())
              }
    {
      if key.id !in rows {
        return Err(NotFound);
      }
      var version := rows[key.id].latest + 1;
      if version > MAX_VERSION {
        return Err(VersionsExhausted);
      }
      var sealed :- SealMaterial(server, key.id, version, material, nonce);
      rows := rows[key.id := rows[key.id].(latest := version)];
      versions := versions[(key.id, version) := sealed];
      return Ok(version);
    }

    method DeleteKey(key: Snapshot)
      modifies this`names, this`rows, this`versions
      ensures State() == Deleted(old(State()), key)
    {
      rows := rows - {key.id};
      versions := map kv | kv in versions && kv.0 != key.id :: versions[kv];
      names := map n | n in names && names[n] != key.id :: names[n];
    }
  }

  // ----- use -------------------------------------------------------------------------

  // The ciphertext, untagged: made under the version the caller's snapshot names.
  function EncryptRaw(s: Server, st: Store, key: Snapshot, plaintext: Bytes, aad: Bytes, nonce: Nonce): Result<Bytes, Error> {
    if !key.keyType.Aes256Gcm? then Err(WrongType)
    else match LoadMaterial(s, st, key, key.latest)
      case Err(e) => Err(e)
      case Ok(m) =>
        match SealAad(s.aead, plaintext, m, aad, nonce)
        case Err(_) => Err(SealingFailed)
        case Ok(ct) => Ok(ct)
  }

  function Encrypt(s: Server, st: Store, key: Snapshot, plaintext: Bytes, aad: Bytes, nonce: Nonce): Result<string, Error> {
    match EncryptRaw(s, st, key, plaintext, aad, nonce)
    case Err(e) => Err(e)
    case Ok(ct) => Ok(Versioned(s, key.latest, ct))
  }

  // A fresh data key, in the clear and wrapped.
  function Datakey(s: Server, st: Store, key: Snapshot, dek: Key, nonce: Nonce): Result<(Key, string), Error> {
    match Encrypt(s, st, key, dek, [], nonce)
    case Err(e) => Err(e)
    case Ok(text) => Ok((dek, text))
  }

  function Decrypt(s: Server, st: Store, key: Snapshot, text: string, aad: Bytes): Result<Bytes, Error> {
    match ParseVersioned(s, text)
    case Err(e) => Err(e)
    case Ok((version, ct)) =>
      if !key.keyType.Aes256Gcm? then Err(WrongType)
      else match LoadMaterial(s, st, key, version)
        case Err(e) => Err(e)
        case Ok(m) =>
          match OpenAad(s.aead, ct, m, aad)
          case Err(_) => Err(DecryptFailed)
          case Ok(p) => Ok(p)
  }

  // ----- runs ------------------------------------------------------------------------

  // A ciphertext handed out, with what went into it.
  datatype Issued = Issued(id: Id, version: nat, ct: Bytes, text: string, plaintext: Bytes, aad: Bytes)

  // `used` is every id ever drawn: ids are 256-bit random draws and are taken not to repeat.
  datatype World = World(st: Store, used: set<Id>, looks: seq<Snapshot>, issued: seq<Issued>)

  // Each operation names the look its caller took earlier; anything may have happened between.
  datatype Event =
    | Creates(slot: Slot, id: Id, keyType: KeyType, material: Key, nonce: Nonce)
    | Looks(slot: Slot)
    | Rotates(look: nat, material: Key, nonce: Nonce)
    | Deletes(look: nat)
    | Encrypts(look: nat, plaintext: Bytes, aad: Bytes, nonce: Nonce)
    | MakesDatakey(look: nat, dek: Key, nonce: Nonce)

  function EncryptStep(s: Server, w: World, key: Snapshot, plaintext: Bytes, aad: Bytes, nonce: Nonce): World {
    match (EncryptRaw(s, w.st, key, plaintext, aad, nonce), Encrypt(s, w.st, key, plaintext, aad, nonce))
    case (Ok(ct), Ok(text)) => w.(issued := w.issued + [Issued(key.id, key.latest, ct, text, plaintext, aad)])
    case _ => w
  }

  // A wrapped data key is a ciphertext of the clear one, with no associated data.
  function DatakeyStep(s: Server, w: World, key: Snapshot, dek: Key, nonce: Nonce): World {
    match (EncryptRaw(s, w.st, key, dek, [], nonce), Datakey(s, w.st, key, dek, nonce))
    case (Ok(ct), Ok((clear, wrapped))) => w.(issued := w.issued + [Issued(key.id, key.latest, ct, wrapped, clear, [])])
    case _ => w
  }

  function Step(s: Server, w: World, ev: Event): World {
    match ev
    case Creates(slot, id, keyType, material, nonce) =>
      if id in w.used then w
      else
        (match Created(s, w.st, slot, id, keyType, material, nonce)
         case Err(_) => w
         case Ok(st) => w.(st := st, used := w.used + {id}))
    case Looks(slot) =>
      (match Look(w.st, slot)
       case Err(_) => w
       case Ok(key) => w.(looks := w.looks + [key]))
    case Rotates(i, material, nonce) =>
      if i >= |w.looks| then w
      else
        (match Rotated(s, w.st, w.looks[i], material, nonce)
         case Err(_) => w
         case Ok(st) => w.(st := st))
    case Deletes(i) =>
      if i >= |w.looks| then w else w.(st := Deleted(w.st, w.looks[i]))
    case Encrypts(i, plaintext, aad, nonce) =>
      if i >= |w.looks| then w else EncryptStep(s, w, w.looks[i], plaintext, aad, nonce)
    case MakesDatakey(i, dek, nonce) =>
      if i >= |w.looks| then w else DatakeyStep(s, w, w.looks[i], dek, nonce)
  }

  function Run(s: Server, evs: seq<Event>): World {
    if evs == [] then World(Store(map[], map[], map[]), {}, [], [])
    else Step(s, Run(s, evs[..|evs| - 1]), evs[|evs| - 1])
  }

  // ----- invariants ------------------------------------------------------------------

  // Versions 1 to the latest, all there and none besides.
  ghost predicate Dense(st: Store) {
    && (forall id :: id in st.rows ==> 1 <= st.rows[id].latest <= MAX_VERSION)
    && (forall id: Id, v: nat :: (id, v) in st.versions <==> id in st.rows && 1 <= v <= st.rows[id].latest)
  }

  ghost predicate AllOpen(s: Server, st: Store) {
    forall id: Id, v: nat :: (id, v) in st.versions ==>
      OpenAad(s.aead, st.versions[(id, v)], s.kek, MaterialAad(id, v)).Ok?
  }

  // While its key lives, an issued ciphertext opens with the material of its version.
  ghost predicate Readable(s: Server, st: Store, r: Issued) {
    && r.text == Versioned(s, r.version, r.ct)
    && (r.id in st.rows ==>
          && st.rows[r.id].keyType == Aes256Gcm
          && (r.id, r.version) in st.versions
          && OpenAad(s.aead, st.versions[(r.id, r.version)], s.kek, MaterialAad(r.id, r.version)).Ok?
          && OpenAad(s.aead, r.ct, OpenAad(s.aead, st.versions[(r.id, r.version)], s.kek, MaterialAad(r.id, r.version)).value, r.aad)
             == Ok(r.plaintext))
  }

  ghost predicate Current(st: Store, k: Snapshot) {
    && 1 <= k.latest <= MAX_VERSION
    && (k.id in st.rows ==> k.latest <= st.rows[k.id].latest && k.keyType == st.rows[k.id].keyType)
  }

  ghost predicate Inv(s: Server, w: World) {
    && Dense(w.st) && AllOpen(s, w.st)
    && (forall slot :: slot in w.st.names ==> w.st.names[slot] in w.st.rows)
    && (forall id :: id in w.st.rows ==> id in w.used)
    && (forall i :: 0 <= i < |w.looks| ==> w.looks[i].id in w.used && Current(w.st, w.looks[i]))
    && (forall i :: 0 <= i < |w.issued| ==> w.issued[i].id in w.used && 1 <= w.issued[i].version <= MAX_VERSION
                                            && Readable(s, w.st, w.issued[i]))
  }

  // The rows and versions of `ids` are the same in both stores but for later versions.
  ghost predicate Extends(st: Store, st': Store, ids: set<Id>) {
    forall id :: id in ids && id in st'.rows ==>
      && id in st.rows && st.rows[id].latest <= st'.rows[id].latest && st'.rows[id].keyType == st.rows[id].keyType
      && forall v: nat :: (id, v) in st.versions ==> (id, v) in st'.versions && st'.versions[(id, v)] == st.versions[(id, v)]
  }

  lemma ExtendingKeepsInv(s: Server, w: World, st: Store, used: set<Id>)
    requires Inv(s, w) && Dense(st) && AllOpen(s, st)
    requires Extends(w.st, st, w.used) && w.used <= used
    requires forall slot :: slot in st.names ==> st.names[slot] in st.rows
    requires forall id :: id in st.rows ==> id in used
    ensures Inv(s, w.(st := st, used := used))
  {
    forall i | 0 <= i < |w.issued|
      ensures Readable(s, st, w.issued[i])
    {
      assert Readable(s, w.st, w.issued[i]);
    }
    forall i | 0 <= i < |w.looks|
      ensures Current(st, w.looks[i])
    {
      assert Current(w.st, w.looks[i]);
    }
  }

  lemma CreateKeepsInv(s: Server, w: World, slot: Slot, id: Id, keyType: KeyType, material: Key, nonce: Nonce)
    requires Good(s) && Inv(s, w) && id !in w.used
    requires Created(s, w.st, slot, id, keyType, material, nonce).Ok?
    ensures Inv(s, w.(st := Created(s, w.st, slot, id, keyType, material, nonce).value, used := w.used + {id}))
  {
    var st := Created(s, w.st, slot, id, keyType, material, nonce).value;
    SealedOpens(s.aead, material, s.kek, MaterialAad(id, 1), nonce);
    ExtendingKeepsInv(s, w, st, w.used + {id});
  }

  lemma RotateKeepsInv(s: Server, w: World, key: Snapshot, material: Key, nonce: Nonce)
    requires Good(s) && Inv(s, w) && Rotated(s, w.st, key, material, nonce).Ok?
    ensures Inv(s, w.(st := Rotated(s, w.st, key, material, nonce).value))
  {
    var st := Rotated(s, w.st, key, material, nonce).value;
    SealedOpens(s.aead, material, s.kek, MaterialAad(key.id, w.st.rows[key.id].latest + 1), nonce);
    ExtendingKeepsInv(s, w, st, w.used);
  }

  lemma DeleteKeepsInv(s: Server, w: World, key: Snapshot)
    requires Inv(s, w)
    ensures Inv(s, w.(st := Deleted(w.st, key)))
  {
    ExtendingKeepsInv(s, w, Deleted(w.st, key), w.used);
  }

  lemma EncryptKeepsInv(s: Server, w: World, i: nat, plaintext: Bytes, aad: Bytes, nonce: Nonce)
    requires Good(s) && Inv(s, w) && i < |w.looks|
    ensures Inv(s, EncryptStep(s, w, w.looks[i], plaintext, aad, nonce))
  {
    var key := w.looks[i];
    var r := EncryptRaw(s, w.st, key, plaintext, aad, nonce);
    if r.Ok? {
      var m := LoadMaterial(s, w.st, key, key.latest).value;
      SealedOpens(s.aead, plaintext, m, aad, nonce);
      assert Current(w.st, key);
      assert Readable(s, w.st, Issued(key.id, key.latest, r.value, Versioned(s, key.latest, r.value), plaintext, aad));
    }
  }

  lemma LookKeepsInv(s: Server, w: World, slot: Slot)
    requires Inv(s, w)
    ensures Inv(s, Step(s, w, Looks(slot)))
  {
  }

  lemma ChangeKeepsInv(s: Server, w: World, ev: Event)
    requires Good(s) && Inv(s, w) && (ev.Creates? || ev.Rotates? || ev.Deletes?)
    ensures Inv(s, Step(s, w, ev))
  {
    match ev
    case Creates(slot, id, keyType, material, nonce) =>
      if id !in w.used && Created(s, w.st, slot, id, keyType, material, nonce).Ok? {
        CreateKeepsInv(s, w, slot, id, keyType, material, nonce);
      }
    case Rotates(i, material, nonce) =>
      if i < |w.looks| && Rotated(s, w.st, w.looks[i], material, nonce).Ok? {
        RotateKeepsInv(s, w, w.looks[i], material, nonce);
      }
    case Deletes(i) =>
      if i < |w.looks| {
        DeleteKeepsInv(s, w, w.looks[i]);
      }
  }

  lemma UseKeepsInv(s: Server, w: World, ev: Event)
    requires Good(s) && Inv(s, w) && (ev.Encrypts? || ev.MakesDatakey?)
    ensures Inv(s, Step(s, w, ev))
  {
    match ev
    case Encrypts(i, plaintext, aad, nonce) =>
      if i < |w.looks| {
        EncryptKeepsInv(s, w, i, plaintext, aad, nonce);
      }
    case MakesDatakey(i, dek, nonce) =>
      if i < |w.looks| {
        EncryptKeepsInv(s, w, i, dek, [], nonce);
        assert DatakeyStep(s, w, w.looks[i], dek, nonce) == EncryptStep(s, w, w.looks[i], dek, [], nonce);
      }
  }

  lemma {:induction false} RunKeepsInv(s: Server, evs: seq<Event>)
    requires Good(s)
    ensures Inv(s, Run(s, evs))
  {
    if evs != [] {
      var w, ev := Run(s, evs[..|evs| - 1]), evs[|evs| - 1];
      RunKeepsInv(s, evs[..|evs| - 1]);
      if ev.Looks? {
        LookKeepsInv(s, w, ev.slot);
      } else if ev.Encrypts? || ev.MakesDatakey? {
        UseKeepsInv(s, w, ev);
      } else {
        ChangeKeepsInv(s, w, ev);
      }
    }
  }

  // ----- main results ----------------------------------------------------------------

  // In every reachable state a key's stored versions are exactly 1 to its latest.
  lemma VersionsAreDense(s: Server, evs: seq<Event>, id: Id, v: nat)
    requires Good(s)
    ensures var st := Run(s, evs).st;
            (id, v) in st.versions <==> id in st.rows && 1 <= v <= st.rows[id].latest
  {
    RunKeepsInv(s, evs);
  }

  // Every ciphertext ever handed out, as long as its key has not been deleted, decrypts to its
  // plaintext for every caller whose look at the key saw its version, and for the others is
  // refused as an unknown version.
  lemma IssuedDecryptsExactly(s: Server, evs: seq<Event>, n: nat, i: nat)
    requires Good(s)
    requires n < |Run(s, evs).issued| && i < |Run(s, evs).looks|
    requires Run(s, evs).issued[n].id in Run(s, evs).st.rows
    requires Run(s, evs).looks[i].id == Run(s, evs).issued[n].id
    ensures var w := Run(s, evs);
            Decrypt(s, w.st, w.looks[i], w.issued[n].text, w.issued[n].aad)
            == if w.issued[n].version <= w.looks[i].latest then Ok(w.issued[n].plaintext) else Err(UnknownVersion)
  {
    RunKeepsInv(s, evs);
    var w := Run(s, evs);
    var r := w.issued[n];
    assert Readable(s, w.st, r) && Current(w.st, w.looks[i]);
    VersionedRoundTrip(s, r.version, r.ct);
  }

  // A caller who looks now sees them all.
  lemma IssuedDecryptsNow(s: Server, evs: seq<Event>, n: nat, slot: Slot)
    requires Good(s)
    requires n < |Run(s, evs).issued| && Look(Run(s, evs).st, slot).Ok?
    requires Look(Run(s, evs).st, slot).value.id == Run(s, evs).issued[n].id
    ensures var w := Run(s, evs);
            Decrypt(s, w.st, Look(w.st, slot).value, w.issued[n].text, w.issued[n].aad) == Ok(w.issued[n].plaintext)
  {
    RunKeepsInv(s, evs);
    var w := Run(s, evs);
    var r := w.issued[n];
    assert Readable(s, w.st, r);
    VersionedRoundTrip(s, r.version, r.ct);
  }

  // What is handed out is remembered: later events only add to it.
  lemma IssuedIsKept(s: Server, evs: seq<Event>, ev: Event)
    ensures Run(s, evs).issued <= Run(s, evs + [ev]).issued
  {
    assert (evs + [ev])[..|evs|] == evs;
  }

  // ----- which material is used ------------------------------------------------------

  // A new key is found under its name, with the material it was made with as version 1.
  lemma CreatedIsFound(s: Server, st: Store, slot: Slot, id: Id, keyType: KeyType, material: Key, nonce: Nonce)
    requires Good(s) && Created(s, st, slot, id, keyType, material, nonce).Ok?
    ensures var st' := Created(s, st, slot, id, keyType, material, nonce).value;
            && Look(st', slot) == Ok(Snapshot(id, keyType, 1))
            && LoadMaterial(s, st', Snapshot(id, keyType, 1), 1) == Ok(material)
            && (forall other :: other != slot ==> (other in st'.names <==> other in st.names)
                                                  && (other in st.names ==> st'.names[other] == st.names[other]))
  {
    SealedOpens(s.aead, material, s.kek, MaterialAad(id, 1), nonce);
  }

  // A rotation adds the next version, with the material drawn for it, and touches no other.
  lemma RotatedMaterial(s: Server, st: Store, key: Snapshot, material: Key, nonce: Nonce)
    requires Good(s) && Rotated(s, st, key, material, nonce).Ok?
    ensures key.id in st.rows
    ensures var st', v := Rotated(s, st, key, material, nonce).value, st.rows[key.id].latest + 1;
            && key.id in st'.rows && st'.rows[key.id] == Row(st.rows[key.id].keyType, v)
            && LoadMaterial(s, st', Snapshot(key.id, st.rows[key.id].keyType, v), v) == Ok(material)
            && (forall kv :: kv != (key.id, v) ==> (kv in st'.versions <==> kv in st.versions)
                                                   && (kv in st.versions ==> st'.versions[kv] == st.versions[kv]))
  {
    SealedOpens(s.aead, material, s.kek, MaterialAad(key.id, st.rows[key.id].latest + 1), nonce);
  }

  // A ciphertext is tagged with the version the look names and opens under that version's
  // material.
  lemma EncryptsUnderTheLook(s: Server, st: Store, key: Snapshot, plaintext: Bytes, aad: Bytes, nonce: Nonce)
    requires Good(s) && 1 <= key.latest <= MAX_VERSION && Encrypt(s, st, key, plaintext, aad, nonce).Ok?
    ensures LoadMaterial(s, st, key, key.latest).Ok?
    ensures var r := ParseVersioned(s, Encrypt(s, st, key, plaintext, aad, nonce).value);
            && r.Ok? && r.value.0 == key.latest
            && OpenAad(s.aead, r.value.1, LoadMaterial(s, st, key, key.latest).value, aad) == Ok(plaintext)
  {
    var m, ct := LoadMaterial(s, st, key, key.latest).value, EncryptRaw(s, st, key, plaintext, aad, nonce).value;
    SealedOpens(s.aead, plaintext, m, aad, nonce);
    VersionedRoundTrip(s, key.latest, ct);
  }

  // Of a deleted key nothing is left, and of the others everything.
  lemma DeletedIsGone(st: Store, key: Snapshot)
    ensures var st' := Deleted(st, key);
            && key.id !in st'.rows && (forall v: nat :: (key.id, v) !in st'.versions)
            && (forall slot :: slot in st'.names <==> slot in st.names && st.names[slot] != key.id)
            && (forall id :: id != key.id && id in st.rows ==> id in st'.rows && st'.rows[id] == st.rows[id])
            && (forall kv :: kv in st.versions && kv.0 != key.id ==> kv in st'.versions && st'.versions[kv] == st.versions[kv])
  {
  }

  // ----- what does not decrypt -------------------------------------------------------

  // Only a well-formed text naming a stored version of an encryption key decrypts, and to what
  // the cipher makes of it under that version's material and this associated data.
  lemma DecryptsOnly(s: Server, st: Store, key: Snapshot, text: string, aad: Bytes)
    requires Decrypt(s, st, key, text, aad).Ok?
    ensures key.keyType == Aes256Gcm
    ensures exists ver, body :: Trim(text) == PREFIX + ver + ":" + body && ParseI32(ver).Some? && s.decode(body).Some?
                                && var v, ct := ParseI32(ver).value, s.decode(body).value;
                                   1 <= v <= key.latest && LoadMaterial(s, st, key, v).Ok?
                                   && var m := LoadMaterial(s, st, key, v).value;
                                      |m| == KEY_LEN && |ct| >= NONCE_LEN + TAG_LEN
                                      && s.aead.decrypt(m, ct[..NONCE_LEN], aad, ct[NONCE_LEN..])
                                         == Some(Decrypt(s, st, key, text, aad).value)
  {
    var t := Trim(text);
    var (ver, body) := SplitOnce(t[|PREFIX|..], ':').value;
    SplitOnceIs(t[|PREFIX|..], ':');
    assert t == PREFIX + ver + ":" + body;
    var v, ct := ParseI32(ver).value, s.decode(body).value;
    var m := LoadMaterial(s, st, key, v).value;
    assert s.aead.decrypt(m, ct[..NONCE_LEN], aad, ct[NONCE_LEN..]) == Some(Decrypt(s, st, key, text, aad).value);
  }

  // Material put in the place of another version, or of another key's, is refused.
  lemma MovedMaterialRefused(s: Server, st: Store, key: Snapshot, v: nat, id: Id, w: nat, material: Key, nonce: Nonce)
    requires 1 <= v <= key.latest && v <= MAX_VERSION && w <= MAX_VERSION && (key.id, v) in st.versions && (key.id, v) != (id, w)
    requires SealMaterial(s, id, w, material, nonce) == Ok(st.versions[(key.id, v)])
    ensures LoadMaterial(s, st, key, v) == Err(IntegrityFailed)
            || WrongAadOpens(s.aead, s.kek, nonce, MaterialAad(id, w), MaterialAad(key.id, v), material)
  {
    var sealed := st.versions[(key.id, v)];
    assert sealed[..NONCE_LEN] == nonce;
    assert sealed[NONCE_LEN..] == s.aead.encrypt(s.kek, nonce, MaterialAad(id, w), material).value;
    if MaterialAad(id, w) == MaterialAad(key.id, v) {
      MaterialAadInjective(id, w, key.id, v);
    }
  }

  // And so is a ciphertext presented with other associated data.
  lemma OtherAadRefused(s: Server, st: Store, key: Snapshot, plaintext: Bytes, aad: Bytes, other: Bytes, nonce: Nonce)
    requires Good(s) && 1 <= key.latest <= MAX_VERSION && Encrypt(s, st, key, plaintext, aad, nonce).Ok? && aad != other
    ensures LoadMaterial(s, st, key, key.latest).Ok? && |LoadMaterial(s, st, key, key.latest).value| == KEY_LEN
    ensures Decrypt(s, st, key, Encrypt(s, st, key, plaintext, aad, nonce).value, other) == Err(DecryptFailed)
            || WrongAadOpens(s.aead, LoadMaterial(s, st, key, key.latest).value, nonce, aad, other, plaintext)
  {
    var m, ct := LoadMaterial(s, st, key, key.latest).value, EncryptRaw(s, st, key, plaintext, aad, nonce).value;
    VersionedRoundTrip(s, key.latest, ct);
    assert ct[..NONCE_LEN] == nonce && ct[NONCE_LEN..] == s.aead.encrypt(m, nonce, aad, plaintext).value;
  }

  // ----- which version a token names -------------------------------------------------

  lemma {:induction false} RSplitJoins(kid: string)
    requires RSplitVersion(kid).Some?
    ensures kid == RSplitVersion(kid).value.0 + ":v" + RSplitVersion(kid).value.1
  {
    if kid[|kid| - 2..] != ":v" {
      RSplitJoins(kid[..|kid| - 1]);
      assert kid == kid[..|kid| - 1] + [kid[|kid| - 1]];
    }
  }

  // A token without a key id is checked against the latest version, and one with a key id only
  // if that is this key's name, ":v" and a number.
  lemma TokenNamesVersion(kid: Option<string>, name: string, latest: nat)
    ensures TokenVersion(None, name, latest) == Ok(latest)
    ensures kid.Some? && TokenVersion(kid, name, latest).Ok? ==>
              exists ver :: kid.value == name + ":v" + ver && ParseI32(ver) == Some(TokenVersion(kid, name, latest).value)
  {
    if kid.Some? && TokenVersion(kid, name, latest).Ok? {
      RSplitJoins(kid.value);
    }
  }
}
