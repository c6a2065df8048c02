// The master key on disk: wrapped under a data key that a passphrase or a keyfile gives back at
// every boot, rewrapped on request, and migrated once from the older layout.
module MasterDek {
  import opened Base
  import opened Bytes
  import opened Crypto
  import opened Envelope
  import opened KeyBinding

  type Salt = s: Bytes | |s| == 32 witness seq(32, _ => 0)
  type Stamp = s: Bytes | |s| == 5 witness seq(5, _ => 0)

  const MODE_AUTO: byte := 0
  const MODE_PASSPHRASE: byte := 1

  // "blackbook-dek-keyfile/v1" and a zero byte
  const KEYFILE_LABEL: Bytes := [98, 108, 97, 99, 107, 98, 111, 111, 107, 45, 100, 101, 107, 45, 107, 101, 121, 102, 105, 108, 101, 47, 118, 49, 0]

  datatype Suite = Suite(
    aead: Aead,
    hash: Bytes -> Key,
    argon2: (Bytes, Bytes, Costs) -> Option<Key>,
    scrypt: (Bytes, Bytes) -> Key,
    defaults: Costs)

  // `content` is None when the keyfile cannot be read.
  datatype Provider = Passphrase(pass: Bytes) | Keyfile(content: Option<Bytes>)

  datatype Kind = PassphraseKind | KeyfileKind

  datatype Meta = Meta(kind: Kind, salt: Option<Bytes>, costs: Option<Costs>, wrappedDek: Option<Bytes>)

  // The files that matter; `tmp` is the rewrapped key before it is renamed over `master`.
  datatype Disk = Disk(
    meta: Option<Meta>,
    legacyDek: Option<Bytes>,
    legacyMode: Option<Bytes>,
    master: Option<Bytes>,
    tmp: Option<Bytes>)

  datatype Error =
    | KeyfileError
    | ProviderMismatch
    | CorruptMeta
    | KdfFailed
    | SealingFailed
    | MigrationError
    | NoMaster
    | WrongDek

  // The random draws of one fresh data key and one rewrapping.
  datatype Draws = Draws(argonSalt: Bytes, dek: Key, wrapNonce: Nonce, envSalt: Salt, stamp: Stamp)

  // ----- the master key's envelope ---------------------------------------------------

  // Timestamp, salt, then the ciphertext under a key stretched from `key` with that salt.
  function EncryptMaster(s: Suite, data: Bytes, key: Bytes, salt: Salt, stamp: Stamp): Result<Bytes, Error> {
    match s.aead.encrypt(s.scrypt(key, salt), salt[..NONCE_LEN], stamp, data)
    case None => Err(SealingFailed)
    case Some(ct) => Ok(stamp + salt + ct)
  }

  function DecryptMaster(s: Suite, env: Bytes, key: Bytes): Result<Bytes, Error> {
    if |env| < 37 + TAG_LEN then Err(WrongDek)
    else match s.aead.decrypt(s.scrypt(key, env[5..37]), env[5..37][..NONCE_LEN], env[..5], env[37..])
      case None => Err(WrongDek)
      case Some(p) => Ok(p)
  }

  lemma MasterRoundTrip(s: Suite, data: Bytes, key: Bytes, salt: Salt, stamp: Stamp)
    requires Lawful(s.aead) && EncryptMaster(s, data, key, salt, stamp).Ok?
    ensures DecryptMaster(s, EncryptMaster(s, data, key, salt, stamp).value, key) == Ok(data)
  {
    var env := EncryptMaster(s, data, key, salt, stamp).value;
    assert env[..5] == stamp && env[5..37] == salt;
    assert env[37..] == s.aead.encrypt(s.scrypt(key, salt), salt[..NONCE_LEN], stamp, data).value;
  }

  // The time an envelope bears is part of it: under another it is refused.
  lemma OtherStampRefused(s: Suite, data: Bytes, key: Bytes, salt: Salt, stamp: Stamp, other: Stamp)
    requires EncryptMaster(s, data, key, salt, stamp).Ok? && other != stamp
    ensures DecryptMaster(s, other + EncryptMaster(s, data, key, salt, stamp).value[5..], key) == Err(WrongDek)
            || WrongAadOpens(s.aead, s.scrypt(key, salt), salt[..NONCE_LEN], stamp, other, data)
  {
    var env := EncryptMaster(s, data, key, salt, stamp).value;
    var ct := s.aead.encrypt(s.scrypt(key, salt), salt[..NONCE_LEN], stamp, data).value;
    assert env == stamp + (salt + ct);
    assert env[5..] == salt + ct;
    var moved := other + env[5..];
    assert moved[..5] == other && moved[5..37] == salt && moved[37..] == ct;
  }

  // ----- the data key ----------------------------------------------------------------

  function KindOf(p: Provider): Kind {
    if p.Passphrase? then PassphraseKind else KeyfileKind
  }

  function KeyfileKek(s: Suite, content: Option<Bytes>): Result<Key, Error> {
    if content.None? || content.value == [] then Err(KeyfileError) else Ok(s.hash(KEYFILE_LABEL + content.value))
  }

  // A fresh data key and what it takes to get it back.
  function InitDek(s: Suite, p: Provider, r: Draws): Result<(Key, Meta), Error> {
    match p
    case Passphrase(pass) =>
      (match s.argon2(pass, r.argonSalt, s.defaults)
       case None => Err(KdfFailed)
       case Some(dek) => Ok((dek, Meta(PassphraseKind, Some(r.argonSalt), Some(s.defaults), None))))
    case Keyfile(content) =>
      (match KeyfileKek(s, content)
       case Err(e) => Err(e)
       case Ok(kek) =>
         match Seal(s.aead, r.dek, kek, r.wrapNonce)
         case Err(_) => Err(SealingFailed)
         case Ok(wrapped) => Ok((r.dek, Meta(KeyfileKind, None, None, Some(wrapped)))))
  }

  function ReconstructDek(s: Suite, p: Provider, meta: Meta): Result<Key, Error> {
    if meta.kind != KindOf(p) then Err(ProviderMismatch)
    else match p
      case Passphrase(pass) =>
        if meta.salt.None? then Err(CorruptMeta)
        else
          (match s.argon2(pass, meta.salt.value, if meta.costs.Some? then meta.costs.value else Costs(0, 0, 0))
           case None => Err(KdfFailed)
           case Some(dek) => Ok(dek))
      case Keyfile(content) =>
        (match KeyfileKek(s, content)
         case Err(e) => Err(e)
         case Ok(kek) =>
           if meta.wrappedDek.None? then Err(CorruptMeta)
           else match Open(s.aead, meta.wrappedDek.value, kek)
             case Err(_) => Err(KeyfileError)
             case Ok(plain) => if |plain| != KEY_LEN then Err(CorruptMeta) else Ok(plain))
  }

  lemma InitReconstructs(s: Suite, p: Provider, r: Draws)
    requires Lawful(s.aead) && InitDek(s, p, r).Ok?
    ensures ReconstructDek(s, p, InitDek(s, p, r).value.1) == Ok(InitDek(s, p, r).value.0)
  {
    if p.Keyfile? {
      SealedOpens(s.aead, r.dek, KeyfileKek(s, p.content).value, [], r.wrapNonce);
    }
  }

  // ----- operations, as the disks they leave after each write ------------------------

  datatype Outcome<T> = Outcome(writes: seq<Disk>, result: Result<T, Error>)

  function After(d: Disk, writes: seq<Disk>): Disk {
    if writes == [] then d else writes[|writes| - 1]
  }

  // The data key of the older layout: the stored bytes, or stretched from the passphrase.
  function LegacyDek(s: Suite, d: Disk, p: Provider): Result<Bytes, Error> {
    if d.legacyDek.None? then Err(MigrationError)
    else
      var mode := if d.legacyMode.Some? && d.legacyMode.value != [] then d.legacyMode.value[0] else MODE_AUTO;
      if mode == MODE_AUTO then
        if |d.legacyDek.value| != KEY_LEN then Err(MigrationError) else Ok(d.legacyDek.value)
      else if mode == MODE_PASSPHRASE then
        if p.Passphrase? then Ok(s.scrypt(p.pass, d.legacyDek.value)) else Err(MigrationError)
      else Err(MigrationError)
  }

  // The master key as it is, or rewrapped: into the temporary file, then renamed into place.
  function Rewrapped(d: Disk, env: Bytes): seq<Disk> {
    [d.(tmp := Some(env)), d.(tmp := None, master := Some(env))]
  }

  // Metadata in place, then the old material erased.
  function Finished(d: Disk, meta: Meta): seq<Disk> {
    var d1 := d.(meta := Some(meta));
    [d1, d1.(legacyDek := None), d1.(legacyDek := None, legacyMode := None)]
  }

  function Rewrap(s: Suite, d: Disk, oldDek: Bytes, newDek: Bytes, r: Draws): Outcome<()>
    requires d.master.Some?
  {
    match DecryptMaster(s, d.master.value, oldDek)
    case Err(_) => Outcome([], Err(WrongDek))
    case Ok(plain) =>
      match EncryptMaster(s, plain, newDek, r.envSalt, r.stamp)
      case Err(e) => Outcome([], Err(e))
      case Ok(env) => Outcome(Rewrapped(d, env), Ok(()))
  }

  function Migrate(s: Suite, d: Disk, p: Provider, r: Draws): Outcome<()> {
    match LegacyDek(s, d, p)
    case Err(e) => Outcome([], Err(e))
    case Ok(oldDek) =>
      match InitDek(s, p, r)
      case Err(e) => Outcome([], Err(e))
      case Ok((newDek, meta)) =>
        var o := if d.master.Some? then Rewrap(s, d, oldDek, newDek, r) else Outcome([], Ok(()));
        if o.result.Err? then o
        else Outcome(o.writes + Finished(After(d, o.writes), meta), Ok(()))
  }

  predicate IsLegacy(d: Disk) {
    d.meta.None? && (d.legacyDek.Some? || d.legacyMode.Some?)
  }

  function Resolve(s: Suite, d: Disk, p: Provider, r: Draws): (o: Outcome<Key>)
    ensures d.master.Some? ==> After(d, o.writes).master.Some?
  {
    var o := if IsLegacy(d) then Migrate(s, d, p, r) else Outcome([], Ok(()));
    if o.result.Err? then Outcome(o.writes, Err(o.result.error))
    else
      var d1 := After(d, o.writes);
      if d1.meta.Some? then Outcome(o.writes, ReconstructDek(s, p, d1.meta.value))
      else
        match InitDek(s, p, r)
        case Err(e) => Outcome(o.writes, Err(e))
        case Ok((dek, meta)) => Outcome(o.writes + [d1.(meta := Some(meta))], Ok(dek))
  }

  function Rekey(s: Suite, d: Disk, p: Provider, r1: Draws, r2: Draws): Outcome<()> {
    if d.master.None? then Outcome([], Err(NoMaster))
    else
      var o := Resolve(s, d, p, r1);
      if o.result.Err? then Outcome(o.writes, Err(o.result.error))
      else
        var d1 := After(d, o.writes);
        if DecryptMaster(s, d1.master.value, o.result.value).Err? then Outcome(o.writes, Err(WrongDek))
        else
          match InitDek(s, p, r2)
          case Err(e) => Outcome(o.writes, Err(e))
          case Ok((newDek, meta)) =>
            var w := Rewrap(s, d1, o.result.value, newDek, r2);
            if w.result.Err? then Outcome(o.writes, w.result)
            else Outcome(o.writes + (w.writes + [After(d1, w.writes).(meta := Some(meta))]), Ok(()))
  }

  // `minted` is the key generated if there is none.
  function LoadOrInit(s: Suite, d: Disk, dek: Key, minted: Bytes, r: Draws): Outcome<Bytes> {
    match d.master
    case Some(env) => Outcome([], DecryptMaster(s, env, dek))
    case None =>
      match EncryptMaster(s, minted, dek, r.envSalt, r.stamp)
      case Err(e) => Outcome([], Err(e))
      case Ok(env) => Outcome([d.(master := Some(env))], Ok(minted))
  }

  function Boot(s: Suite, d: Disk, p: Provider, minted: Bytes, r1: Draws, r2: Draws): Outcome<Bytes> {
    var o := Resolve(s, d, p, r1);
    if o.result.Err? then Outcome(o.writes, Err(o.result.error))
    else
      var l := LoadOrInit(s, After(d, o.writes), o.result.value, minted, r2);
      Outcome(o.writes + l.writes, l.result)
  }

  // ----- the data directory ----------------------------------------------------------

  class DataDir {
    const suite: Suite
    const provider: Provider
    var disk: Disk
    ghost var written: seq<Disk>

    constructor (suite: Suite, provider: Provider, disk: Disk)
      ensures this.suite == suite && this.provider == provider && this.disk == disk && written == []
    {
      this.suite, this.provider, this.disk, written := suite, provider, disk, [];
    }

    method Write(d: Disk)
      modifies this`disk, this`written
      ensures disk == d && written == old(written) + [d]
    {
      disk := d;
      written := written + [d];
    }

    method MigrateLegacyDek(r: Draws) returns (res: Result<(), Error>)
      modifies this`disk, this`written
      ensures var o := Migrate(suite, old(disk), provider, r);
              res == o.result && written == old(written) + o.writes && disk == After(old(disk), o.writes)
    {
      var oldDek :- LegacyDek(suite, disk, provider);
      var init :- InitDek(suite, provider, r);
      var (newDek, meta) := init;
      if disk.master.Some? {
        var plain := DecryptMaster(suite, disk.master.value, oldDek);
        if plain.Err? {
          return Err(WrongDek);
        }
        var env :- EncryptMaster(suite, plain.value, newDek, r.envSalt, r.stamp);
        Write(disk.(tmp := Some(env)));
        Write(disk.(tmp := None, master := disk.tmp));
      }
      Write(disk.(meta := Some(meta)));
      Write(disk.(legacyDek := None));
      Write(disk.(legacyMode := None));
      return Ok(());
    }

    method ResolveDek(r: Draws) returns (res: Result<Key, Error>)
      modifies this`disk, this`written
      ensures var o := Resolve(suite, old(disk), provider, r);
              res == o.result && written == old(written) + o.writes && disk == After(old(disk), o.writes)
    {
      if disk.meta.None? && (disk.legacyDek.Some? || disk.legacyMode.Some?) {
        var _ :- MigrateLegacyDek(r);
      }
      if disk.meta.Some? {
        return ReconstructDek(suite, provider, disk.meta.value);
      }
      var init :- InitDek(suite, provider, r);
      Write(disk.(meta := Some(init.1)));
      return Ok(init.0);
    }

    method RekeyMasterDek(r1: Draws, r2: Draws) returns (res: Result<(), Error>)
      modifies this`disk, this`written
      ensures var o := Rekey(suite, old(disk), provider, r1, r2);
              res == o.result && written == old(written) + o.writes && disk == After(old(disk), o.writes)
    {
      if disk.master.None? {
        return Err(NoMaster);
      }
      var oldDek :- ResolveDek(r1);
      var plain := DecryptMaster(suite, disk.master.value, oldDek);
      if plain.Err? {
        return Err(WrongDek);
      }
      var init :- InitDek(suite, provider, r2);
      var (newDek, meta) := init;
      var env :- EncryptMaster(suite, plain.value, newDek, r2.envSalt, r2.stamp);
      Write(disk.(tmp := Some(env)));
      Write(disk.(tmp := None, master := disk.tmp));
      Write(disk.(meta := Some(meta)));
      return Ok(());
    }

    method LoadOrInitMaster(dek: Key, minted: Bytes, r: Draws) returns (res: Result<Bytes, Error>)
      modifies this`disk, this`written
      ensures var o := LoadOrInit(suite, old(disk), dek, minted, r);
              res == o.result && written == old(written) + o.writes && disk == After(old(disk), o.writes)
    {
      if disk.master.Some? {
        return DecryptMaster(suite, disk.master.value, dek);
      }
      var env :- EncryptMaster(suite, minted, dek, r.envSalt, r.stamp);
      Write(disk.(master := Some(env)));
      return Ok(minted);
    }
  }

  // ----- which key a disk holds ------------------------------------------------------

  // The provider gets the data key back, from the metadata or from the older files, and it
  // opens the master key's envelope to `key`.
  ghost predicate Holds(s: Suite, d: Disk, p: Provider, key: Bytes) {
    && d.master.Some?
    && if d.meta.Some? then
         ReconstructDek(s, p, d.meta.value).Ok?
         && DecryptMaster(s, d.master.value, ReconstructDek(s, p, d.meta.value).value) == Ok(key)
       else
         IsLegacy(d) && LegacyDek(s, d, p).Ok?
         && DecryptMaster(s, d.master.value, LegacyDek(s, d, p).value) == Ok(key)
  }

  // Between renaming the rewrapped key into place and writing the metadata that goes with it.
  ghost predicate Between(before: Disk, d: Disk, next: Disk) {
    && before.tmp.Some? && d == before.(tmp := None, master := before.tmp)
    && next.meta.Some? && next == d.(meta := next.meta)
  }

  ghost predicate InGap(writes: seq<Disk>, i: nat) {
    0 < i && i + 1 < |writes| && Between(writes[i - 1], writes[i], writes[i + 1])
  }

  // Every disk on the way holds the key, but for that gap.
  ghost predicate KeptThroughout(s: Suite, p: Provider, key: Bytes, writes: seq<Disk>) {
    forall i :: 0 <= i < |writes| ==> Holds(s, writes[i], p, key) || InGap(writes, i)
  }

  lemma KeptConcatenates(s: Suite, p: Provider, key: Bytes, a: seq<Disk>, b: seq<Disk>)
    requires KeptThroughout(s, p, key, a) && KeptThroughout(s, p, key, b)
    ensures KeptThroughout(s, p, key, a + b)
  {
    var ab := a + b;
    forall i | 0 <= i < |ab|
      ensures Holds(s, ab[i], p, key) || InGap(ab, i)
    {
      if i < |a| {
        assert ab[i] == a[i];
        if InGap(a, i) {
          assert ab[i - 1] == a[i - 1] && ab[i + 1] == a[i + 1];
        }
      } else {
        var j := i - |a|;
        assert ab[i] == b[j];
        if InGap(b, j) {
          assert ab[i - 1] == b[j - 1] && ab[i + 1] == b[j + 1];
        }
      }
    }
  }

  // Rewrapping, then the metadata of the new data key.
  lemma RewrapKeeps(s: Suite, d: Disk, p: Provider, oldDek: Bytes, key: Bytes, r: Draws)
    requires Lawful(s.aead) && Holds(s, d, p, key) && InitDek(s, p, r).Ok?
    requires DecryptMaster(s, d.master.value, oldDek) == Ok(key)
    requires Rewrap(s, d, oldDek, InitDek(s, p, r).value.0, r).result.Ok?
    ensures var (dek, meta) := InitDek(s, p, r).value;
            var w := Rewrap(s, d, oldDek, dek, r).writes;
            var last := After(d, w).(meta := Some(meta));
            Holds(s, last, p, key) && KeptThroughout(s, p, key, w + [last])
  {
    var (dek, meta) := InitDek(s, p, r).value;
    var w := Rewrap(s, d, oldDek, dek, r).writes;
    var last := After(d, w).(meta := Some(meta));
    MasterRoundTrip(s, key, dek, r.envSalt, r.stamp);
    InitReconstructs(s, p, r);
    assert Holds(s, w[0], p, key);
    var all := w + [last];
    assert all[0] == w[0] && all[1] == w[1] && all[2] == last;
    assert Between(all[0], all[1], all[2]);
  }

  lemma MigrationKeeps(s: Suite, d: Disk, p: Provider, key: Bytes, r: Draws)
    requires Lawful(s.aead) && IsLegacy(d) && Holds(s, d, p, key)
    ensures var o := Migrate(s, d, p, r);
            && KeptThroughout(s, p, key, o.writes) && Holds(s, After(d, o.writes), p, key)
            && (o.result.Ok? ==> After(d, o.writes).meta.Some?) && (o.result.Err? ==> o.writes == [])
  {
    var o := Migrate(s, d, p, r);
    if o.result.Ok? {
      var oldDek := LegacyDek(s, d, p).value;
      var (dek, meta) := InitDek(s, p, r).value;
      var w := Rewrap(s, d, oldDek, dek, r).writes;
      var fin := Finished(After(d, w), meta);
      RewrapKeeps(s, d, p, oldDek, key, r);
      assert o.writes == (w + [fin[0]]) + [fin[1], fin[2]];
      KeptConcatenates(s, p, key, w + [fin[0]], [fin[1], fin[2]]);
    }
  }

  lemma ResolvingKeeps(s: Suite, d: Disk, p: Provider, key: Bytes, r: Draws)
    requires Lawful(s.aead) && Holds(s, d, p, key)
    ensures var o := Resolve(s, d, p, r);
            && KeptThroughout(s, p, key, o.writes) && Holds(s, After(d, o.writes), p, key)
            && (o.result.Ok? ==> DecryptMaster(s, After(d, o.writes).master.value, o.result.value) == Ok(key))
  {
    if IsLegacy(d) {
      MigrationKeeps(s, d, p, key, r);
    }
  }

  // ----- main results ----------------------------------------------------------------

  // A boot gives back the key the disk holds, and leaves it held.
  lemma BootKeeps(s: Suite, d: Disk, p: Provider, key: Bytes, minted: Bytes, r1: Draws, r2: Draws)
    requires Lawful(s.aead) && Holds(s, d, p, key)
    ensures var o := Boot(s, d, p, minted, r1, r2);
            && KeptThroughout(s, p, key, o.writes) && Holds(s, After(d, o.writes), p, key)
            && (o.result.Ok? ==> o.result.value == key)
            && (d.meta.Some? ==> o.result == Ok(key) && o.writes == [])
  {
    ResolvingKeeps(s, d, p, key, r1);
    var o := Resolve(s, d, p, r1);
    assert o.writes + [] == o.writes;
  }

  // A rekey that completes leaves the master key sealed under the data key just drawn, and that
  // one's metadata.
  lemma RekeyTakesTheDrawnKey(s: Suite, d: Disk, p: Provider, r1: Draws, r2: Draws)
    requires Lawful(s.aead) && Rekey(s, d, p, r1, r2).result.Ok?
    ensures InitDek(s, p, r2).Ok? && d.master.Some? && Resolve(s, d, p, r1).result.Ok?
    ensures var (dek, meta) := InitDek(s, p, r2).value;
            var d1, d2 := After(d, Resolve(s, d, p, r1).writes), After(d, Rekey(s, d, p, r1, r2).writes);
            && d2.meta == Some(meta) && d1.master.Some? && d2.master.Some? && d2.tmp == None
            && DecryptMaster(s, d1.master.value, Resolve(s, d, p, r1).result.value).Ok?
            && DecryptMaster(s, d2.master.value, dek) == DecryptMaster(s, d1.master.value, Resolve(s, d, p, r1).result.value)
  {
    var o := Resolve(s, d, p, r1);
    var d1 := After(d, o.writes);
    var dek := InitDek(s, p, r2).value.0;
    var plain := DecryptMaster(s, d1.master.value, o.result.value).value;
    MasterRoundTrip(s, plain, dek, r2.envSalt, r2.stamp);
  }

  // A rekey, completed or refused, leaves the same key held at every write but in the gap.
  lemma RekeyKeeps(s: Suite, d: Disk, p: Provider, key: Bytes, r1: Draws, r2: Draws)
    requires Lawful(s.aead) && Holds(s, d, p, key)
    ensures var o := Rekey(s, d, p, r1, r2);
            KeptThroughout(s, p, key, o.writes) && Holds(s, After(d, o.writes), p, key)
  {
    ResolvingKeeps(s, d, p, key, r1);
    var o := Resolve(s, d, p, r1);
    var whole := Rekey(s, d, p, r1, r2);
    if whole.result.Ok? {
      var d1 := After(d, o.writes);
      var (dek, meta) := InitDek(s, p, r2).value;
      var w := Rewrap(s, d1, o.result.value, dek, r2).writes;
      RewrapKeeps(s, d1, p, o.result.value, key, r2);
      KeptConcatenates(s, p, key, o.writes, w + [After(d1, w).(meta := Some(meta))]);
    }
  }

  // The data key the disk and the provider give now, from the metadata or the older files.
  function CurrentDek(s: Suite, d: Disk, p: Provider): Result<Bytes, Error> {
    if d.meta.None? then LegacyDek(s, d, p)
    else match ReconstructDek(s, p, d.meta.value)
      case Err(e) => Err(e)
      case Ok(dek) => Ok(dek)
  }

  // The disk gives a data key and has a master key, and the one does not open the other.
  ghost predicate Stuck(s: Suite, d: Disk, p: Provider) {
    && d.master.Some? && (d.meta.Some? || IsLegacy(d))
    && CurrentDek(s, d, p).Ok? && DecryptMaster(s, d.master.value, CurrentDek(s, d, p).value).Err?
  }

  // The new envelope is in place and its metadata is not.
  function GapDisk(d: Disk, env: Bytes): Disk {
    d.(tmp := None, master := Some(env))
  }

  // In the gap of a rekey or a migration the disk holds the key if old and new data key stretch
  // to one message key under the new salt, and is stuck if they do not; or the new envelope
  // opens under a key it was not made with.
  lemma GapHoldsExactlyIf(s: Suite, d: Disk, p: Provider, key: Bytes, newDek: Key, r: Draws)
    requires Lawful(s.aead) && Holds(s, d, p, key)
    requires EncryptMaster(s, key, newDek, r.envSalt, r.stamp).Ok?
    ensures var gap := GapDisk(d, EncryptMaster(s, key, newDek, r.envSalt, r.stamp).value);
            var made, other := s.scrypt(newDek, r.envSalt), s.scrypt(CurrentDek(s, d, p).value, r.envSalt);
            || WrongKeyOpens(s.aead, made, other, r.envSalt[..NONCE_LEN], r.stamp, key)
            || if made == other then Holds(s, gap, p, key) else Stuck(s, gap, p) && !Holds(s, gap, p, key)
  {
    var env := EncryptMaster(s, key, newDek, r.envSalt, r.stamp).value;
    var gap, dek := GapDisk(d, env), CurrentDek(s, d, p).value;
    assert env[..5] == r.stamp && env[5..37] == r.envSalt;
    assert CurrentDek(s, gap, p) == Ok(dek);
    if s.scrypt(newDek, r.envSalt) == s.scrypt(dek, r.envSalt) {
      SameMessageKeyOpens(s, key, newDek, dek, r.envSalt, r.stamp);
    } else if DecryptMaster(s, env, dek).Err? {
      StuckHoldsNothing(s, gap, p, key);
    } else {
      assert env[37..] == s.aead.encrypt(s.scrypt(newDek, r.envSalt), r.envSalt[..NONCE_LEN], r.stamp, key).value;
    }
  }

  lemma SameMessageKeyOpens(s: Suite, data: Bytes, key: Bytes, other: Bytes, salt: Salt, stamp: Stamp)
    requires Lawful(s.aead) && EncryptMaster(s, data, key, salt, stamp).Ok? && s.scrypt(key, salt) == s.scrypt(other, salt)
    ensures DecryptMaster(s, EncryptMaster(s, data, key, salt, stamp).value, other) == Ok(data)
  {
    var env := EncryptMaster(s, data, key, salt, stamp).value;
    MasterRoundTrip(s, data, key, salt, stamp);
    assert env[5..37] == salt;
  }

  // Stuck and holding exclude one another.
  lemma StuckHoldsNothing(s: Suite, d: Disk, p: Provider, key: Bytes)
    requires Stuck(s, d, p)
    ensures !Holds(s, d, p, key)
  {
  }

  // A stuck disk stays as it is: a boot or a rekey fails and writes nothing.
  lemma StuckFails(s: Suite, d: Disk, p: Provider, op: Op)
    requires Stuck(s, d, p)
    ensures var boot, rekey := Boot(s, d, p, op.minted, op.r1, op.r2), Rekey(s, d, p, op.r1, op.r2);
            && boot.result.Err? && boot.writes == [] && rekey.result.Err? && rekey.writes == []
            && (d.meta.Some? ==> boot.result == Err(WrongDek) && rekey.result == Err(WrongDek))
            && OpStep(s, d, p, op) == d
  {
  }

  lemma {:induction false} StuckForever(s: Suite, d: Disk, p: Provider, ops: seq<Op>)
    requires Stuck(s, d, p)
    ensures Run(s, d, p, ops) == d
  {
    if ops != [] {
      StuckForever(s, d, p, ops[..|ops| - 1]);
      StuckFails(s, d, p, ops[|ops| - 1]);
    }
  }

  // A volume without a master key: new, or stopped after its metadata was written.
  ghost predicate Unkeyed(s: Suite, d: Disk, p: Provider) {
    && d.master.None?
    && if d.meta.Some? then ReconstructDek(s, p, d.meta.value).Ok? else !IsLegacy(d)
  }

  // The first boot mints the key, and a stop on the way leaves a volume that can still be booted.
  lemma FirstBootMints(s: Suite, d: Disk, p: Provider, minted: Bytes, r1: Draws, r2: Draws)
    requires Lawful(s.aead) && Unkeyed(s, d, p)
    ensures var o := Boot(s, d, p, minted, r1, r2);
            && (o.result.Ok? ==> o.result.value == minted && Holds(s, After(d, o.writes), p, minted))
            && forall i :: 0 <= i < |o.writes| ==> Unkeyed(s, o.writes[i], p) || Holds(s, o.writes[i], p, minted)
  {
    var o := Resolve(s, d, p, r1);
    if d.meta.None? && InitDek(s, p, r1).Ok? {
      InitReconstructs(s, p, r1);
    }
    if o.result.Ok? && EncryptMaster(s, minted, o.result.value, r2.envSalt, r2.stamp).Ok? {
      MasterRoundTrip(s, minted, o.result.value, r2.envSalt, r2.stamp);
    }
  }

  // One start of the server or one rekey, stopped after its first `survives` writes if it has more.
  datatype Op = Op(boots: bool, minted: Bytes, r1: Draws, r2: Draws, survives: nat)

  function WritesOf(s: Suite, d: Disk, p: Provider, op: Op): seq<Disk> {
    if op.boots then Boot(s, d, p, op.minted, op.r1, op.r2).writes else Rekey(s, d, p, op.r1, op.r2).writes
  }

  function OpStep(s: Suite, d: Disk, p: Provider, op: Op): Disk {
    var w := WritesOf(s, d, p, op);
    After(d, w[..Min(op.survives, |w|)])
  }

  function Run(s: Suite, d: Disk, p: Provider, ops: seq<Op>): Disk {
    if ops == [] then d else OpStep(s, Run(s, d, p, ops[..|ops| - 1]), p, ops[|ops| - 1])
  }

  // Not stopped in its gap.
  ghost predicate StopsOutsideGap(s: Suite, d: Disk, p: Provider, op: Op) {
    var w := WritesOf(s, d, p, op);
    0 < op.survives < |w| ==> !InGap(w, op.survives - 1)
  }

  ghost predicate NoStopInGap(s: Suite, d: Disk, p: Provider, ops: seq<Op>) {
    forall i :: 0 <= i < |ops| ==> StopsOutsideGap(s, Run(s, d, p, ops[..i]), p, ops[i])
  }

  lemma StoppingKeeps(s: Suite, d: Disk, p: Provider, key: Bytes, writes: seq<Disk>, n: nat)
    requires Holds(s, d, p, key) && KeptThroughout(s, p, key, writes) && Holds(s, After(d, writes), p, key)
    requires n <= |writes| && (0 < n < |writes| ==> !InGap(writes, n - 1))
    ensures Holds(s, After(d, writes[..n]), p, key)
  {
    if n == |writes| {
      assert writes[..n] == writes;
    } else if n > 0 {
      assert After(d, writes[..n]) == writes[n - 1];
    }
  }

  lemma OpKeeps(s: Suite, d: Disk, p: Provider, key: Bytes, op: Op)
    requires Lawful(s.aead) && Holds(s, d, p, key) && StopsOutsideGap(s, d, p, op)
    ensures Holds(s, OpStep(s, d, p, op), p, key)
  {
    if op.boots {
      BootKeeps(s, d, p, key, op.minted, op.r1, op.r2);
    } else {
      RekeyKeeps(s, d, p, key, op.r1, op.r2);
    }
    var w := WritesOf(s, d, p, op);
    StoppingKeeps(s, d, p, key, w, Min(op.survives, |w|));
  }

  lemma GapsInPrefix(s: Suite, d: Disk, p: Provider, ops: seq<Op>)
    requires ops != [] && NoStopInGap(s, d, p, ops)
    ensures NoStopInGap(s, d, p, ops[..|ops| - 1])
    ensures StopsOutsideGap(s, Run(s, d, p, ops[..|ops| - 1]), p, ops[|ops| - 1])
  {
    var init := ops[..|ops| - 1];
    forall i | 0 <= i < |init|
      ensures StopsOutsideGap(s, Run(s, d, p, init[..i]), p, init[i])
    {
      assert ops[..i] == init[..i] && ops[i] == init[i];
    }
  }

  // Over any sequence of boots and rekeys, completed or stopped anywhere else, the disk goes on
  // holding the one master key.
  lemma {:induction false} MasterKeyNeverChanges(s: Suite, d: Disk, p: Provider, key: Bytes, ops: seq<Op>)
    requires Lawful(s.aead) && Holds(s, d, p, key) && NoStopInGap(s, d, p, ops)
    ensures Holds(s, Run(s, d, p, ops), p, key)
  {
    if ops != [] {
      GapsInPrefix(s, d, p, ops);
      MasterKeyNeverChanges(s, d, p, key, ops[..|ops| - 1]);
      OpKeeps(s, Run(s, d, p, ops[..|ops| - 1]), p, key, ops[|ops| - 1]);
    }
  }

  // So every boot that completes, after any such sequence, loads that key.
  lemma EveryBootLoadsTheKey(s: Suite, d: Disk, p: Provider, key: Bytes, ops: seq<Op>, minted: Bytes, r1: Draws, r2: Draws)
    requires Lawful(s.aead) && Holds(s, d, p, key) && NoStopInGap(s, d, p, ops)
    requires Boot(s, Run(s, d, p, ops), p, minted, r1, r2).result.Ok?
    ensures Boot(s, Run(s, d, p, ops), p, minted, r1, r2).result == Ok(key)
  {
    MasterKeyNeverChanges(s, d, p, key, ops);
    BootKeeps(s, Run(s, d, p, ops), p, key, minted, r1, r2);
  }

  // ----- the old material is erased --------------------------------------------------

  predicate OldFiles(d: Disk) {
    d.legacyDek.Some? || d.legacyMode.Some?
  }

  // Old material beside the new metadata: no later start takes the volume for an old one.
  predicate Leftover(d: Disk) {
    OldFiles(d) && d.meta.Some?
  }

  // A migration that succeeds leaves neither the old data key nor its mode on disk.
  lemma MigrationErases(s: Suite, d: Disk, p: Provider, r: Draws)
    requires Migrate(s, d, p, r).result.Ok?
    ensures var d' := After(d, Migrate(s, d, p, r).writes);
            d'.legacyDek == None && d'.legacyMode == None && d'.meta == Some(InitDek(s, p, r).value.1)
  {
  }

  // How many writes the rewrapping takes.
  function RewrapWrites(d: Disk): nat {
    if d.master.Some? then 2 else 0
  }

  // What a migration leaves after its first `n` writes.
  lemma MigrationLeaves(s: Suite, d: Disk, p: Provider, r: Draws, n: nat)
    requires IsLegacy(d) && Migrate(s, d, p, r).result.Ok? && n <= |Migrate(s, d, p, r).writes|
    ensures |Migrate(s, d, p, r).writes| == RewrapWrites(d) + 3
    ensures var d' := After(d, Migrate(s, d, p, r).writes[..n]);
            && (d'.meta.Some? <==> n > RewrapWrites(d))
            && d'.legacyDek == (if n >= RewrapWrites(d) + 2 then None else d.legacyDek)
            && d'.legacyMode == (if n >= RewrapWrites(d) + 3 then None else d.legacyMode)
  {
    var w := Migrate(s, d, p, r).writes;
    if n > 0 {
      assert After(d, w[..n]) == w[n - 1];
    }
  }

  // One operation that migrates, and is stopped after its metadata and before the last erasure
  // that has something to erase.
  ghost predicate StopsErasing(s: Suite, d: Disk, p: Provider, op: Op) {
    && IsLegacy(d) && Migrate(s, d, p, op.r1).result.Ok? && (op.boots || d.master.Some?)
    && (op.survives == RewrapWrites(d) + 1 || (op.survives == RewrapWrites(d) + 2 && d.legacyMode.Some?))
  }

  // The writes of a start or a rekey begin with the migration's, and the others leave the old
  // files and the metadata's presence as they are.
  ghost predicate KeepsOldFiles(d: Disk, writes: seq<Disk>) {
    forall i :: 0 <= i < |writes| ==>
      writes[i].legacyDek == d.legacyDek && writes[i].legacyMode == d.legacyMode && (d.meta.Some? ==> writes[i].meta.Some?)
  }

  lemma ResolvingKeepsOldFiles(s: Suite, d: Disk, p: Provider, r: Draws)
    requires !IsLegacy(d)
    ensures KeepsOldFiles(d, Resolve(s, d, p, r).writes)
    ensures Resolve(s, d, p, r).result.Ok? ==> After(d, Resolve(s, d, p, r).writes).meta.Some?
    ensures var d' := After(d, Resolve(s, d, p, r).writes);
            d'.legacyDek == d.legacyDek && d'.legacyMode == d.legacyMode && (d.meta.Some? ==> d'.meta.Some?)
  {
  }

  lemma LaterWritesKeep(d: Disk, first: seq<Disk>, rest: seq<Disk>)
    requires KeepsOldFiles(d, first) && KeepsOldFiles(After(d, first), rest)
    ensures KeepsOldFiles(d, first + rest)
  {
  }

  lemma BootKeepsOldFiles(s: Suite, d: Disk, p: Provider, minted: Bytes, r1: Draws, r2: Draws)
    requires !IsLegacy(d)
    ensures KeepsOldFiles(d, Boot(s, d, p, minted, r1, r2).writes)
  {
    ResolvingKeepsOldFiles(s, d, p, r1);
    var o := Resolve(s, d, p, r1);
    if o.result.Ok? {
      LaterWritesKeep(d, o.writes, LoadOrInit(s, After(d, o.writes), o.result.value, minted, r2).writes);
    }
  }

  // What a rekey writes after it has the data key.
  function RekeyRest(s: Suite, d: Disk, p: Provider, dek: Key, r: Draws): seq<Disk>
    requires d.master.Some?
  {
    match InitDek(s, p, r)
    case Err(_) => []
    case Ok((newDek, meta)) =>
      var w := Rewrap(s, d, dek, newDek, r);
      if w.result.Err? then [] else w.writes + [After(d, w.writes).(meta := Some(meta))]
  }

  lemma RekeyWrites(s: Suite, d: Disk, p: Provider, r1: Draws, r2: Draws)
    requires d.master.Some?
    ensures var o := Resolve(s, d, p, r1);
            Rekey(s, d, p, r1, r2).writes == o.writes + (if o.result.Err? then [] else RekeyRest(s, After(d, o.writes), p, o.result.value, r2))
  {
    var o := Resolve(s, d, p, r1);
    assert o.writes + [] == o.writes;
  }

  lemma RestKeepsOldFiles(s: Suite, d: Disk, p: Provider, dek: Key, r: Draws)
    requires d.master.Some?
    ensures KeepsOldFiles(d, RekeyRest(s, d, p, dek, r))
  {
  }

  lemma RekeyKeepsOldFiles(s: Suite, d: Disk, p: Provider, r1: Draws, r2: Draws)
    requires !IsLegacy(d)
    ensures KeepsOldFiles(d, Rekey(s, d, p, r1, r2).writes)
  {
    if d.master.Some? {
      var o := Resolve(s, d, p, r1);
      RekeyWrites(s, d, p, r1, r2);
      ResolvingKeepsOldFiles(s, d, p, r1);
      if o.result.Ok? {
        RestKeepsOldFiles(s, After(d, o.writes), p, o.result.value, r2);
        LaterWritesKeep(d, o.writes, RekeyRest(s, After(d, o.writes), p, o.result.value, r2));
      } else {
        assert o.writes + [] == o.writes;
      }
    }
  }

  lemma WritesKeepOldFiles(s: Suite, d: Disk, p: Provider, op: Op)
    requires !IsLegacy(d)
    ensures KeepsOldFiles(d, WritesOf(s, d, p, op))
  {
    if op.boots {
      BootKeepsOldFiles(s, d, p, op.minted, op.r1, op.r2);
    } else {
      RekeyKeepsOldFiles(s, d, p, op.r1, op.r2);
    }
  }

  lemma LegacyWrites(s: Suite, d: Disk, p: Provider, op: Op)
    requires IsLegacy(d)
    ensures var m, w := Migrate(s, d, p, op.r1), WritesOf(s, d, p, op);
            if m.result.Err? || (!op.boots && d.master.None?) then w == []
            else m.writes <= w && KeepsOldFiles(After(d, m.writes), w[|m.writes|..])
  {
    var m, w := Migrate(s, d, p, op.r1), WritesOf(s, d, p, op);
    if m.result.Ok? && (op.boots || d.master.Some?) {
      MigrationErases(s, d, p, op.r1);
      var d1 := After(d, m.writes);
      assert !IsLegacy(d1) && Resolve(s, d, p, op.r1).writes == m.writes;
    }
  }

  lemma StepLeaves(s: Suite, d: Disk, p: Provider, op: Op)
    requires !Leftover(d)
    ensures Leftover(OpStep(s, d, p, op)) <==> StopsErasing(s, d, p, op)
  {
    if IsLegacy(d) {
      LegacyStepLeaves(s, d, p, op);
    } else {
      var w := WritesOf(s, d, p, op);
      var n := Min(op.survives, |w|);
      WritesKeepOldFiles(s, d, p, op);
      assert n > 0 ==> After(d, w[..n]) == w[n - 1];
    }
  }

  lemma LegacyStepLeaves(s: Suite, d: Disk, p: Provider, op: Op)
    requires IsLegacy(d)
    ensures Leftover(OpStep(s, d, p, op)) <==> StopsErasing(s, d, p, op)
  {
    LegacyWrites(s, d, p, op);
    var m := Migrate(s, d, p, op.r1);
    if m.result.Ok? && (op.boots || d.master.Some?) {
      PrefixLeaves(s, d, p, op.r1, WritesOf(s, d, p, op), Min(op.survives, |WritesOf(s, d, p, op)|));
    }
  }

  // The migration's writes come first, and what follows changes nothing of the old files.
  lemma PrefixLeaves(s: Suite, d: Disk, p: Provider, r: Draws, w: seq<Disk>, n: nat)
    requires IsLegacy(d) && Migrate(s, d, p, r).result.Ok? && n <= |w|
    requires var m := Migrate(s, d, p, r).writes; m <= w && KeepsOldFiles(After(d, m), w[|m|..])
    ensures Leftover(After(d, w[..n])) <==> n == RewrapWrites(d) + 1 || (n == RewrapWrites(d) + 2 && d.legacyMode.Some?)
  {
    var m := Migrate(s, d, p, r).writes;
    MigrationLeaves(s, d, p, r, Min(n, |m|));
    if n <= |m| {
      assert w[..n] == m[..n];
    } else {
      assert After(d, w[..n]) == w[|m|..][n - 1 - |m|];
      assert m[..|m|] == m;
    }
  }

  lemma LeftoverStays(s: Suite, d: Disk, p: Provider, op: Op)
    requires Leftover(d)
    ensures Leftover(OpStep(s, d, p, op))
    ensures OpStep(s, d, p, op).legacyDek == d.legacyDek && OpStep(s, d, p, op).legacyMode == d.legacyMode
  {
    var w := WritesOf(s, d, p, op);
    var n := Min(op.survives, |w|);
    WritesKeepOldFiles(s, d, p, op);
    assert n > 0 ==> After(d, w[..n]) == w[n - 1];
  }

  ghost predicate SomeStop(s: Suite, d: Disk, p: Provider, ops: seq<Op>) {
    exists i :: 0 <= i < |ops| && StopsErasing(s, Run(s, d, p, ops[..i]), p, ops[i])
  }

  lemma SomeStopSnoc(s: Suite, d: Disk, p: Provider, init: seq<Op>, last: Op)
    ensures SomeStop(s, d, p, init + [last]) <==> SomeStop(s, d, p, init) || StopsErasing(s, Run(s, d, p, init), p, last)
  {
    var ops := init + [last];
    assert ops[..|init|] == init && ops[|init|] == last;
    forall i | 0 <= i < |init|
      ensures ops[..i] == init[..i] && ops[i] == init[i]
    {
    }
    if SomeStop(s, d, p, init) {
      var i :| 0 <= i < |init| && StopsErasing(s, Run(s, d, p, init[..i]), p, init[i]);
      assert StopsErasing(s, Run(s, d, p, ops[..i]), p, ops[i]);
    }
  }

  lemma NextLeftover(s: Suite, d: Disk, p: Provider, op: Op)
    ensures Leftover(OpStep(s, d, p, op)) <==> Leftover(d) || StopsErasing(s, d, p, op)
  {
    if Leftover(d) {
      LeftoverStays(s, d, p, op);
    } else {
      StepLeaves(s, d, p, op);
    }
  }

  lemma RunSnoc(s: Suite, d: Disk, p: Provider, init: seq<Op>, last: Op)
    ensures Run(s, d, p, init + [last]) == OpStep(s, Run(s, d, p, init), p, last)
  {
    assert (init + [last])[..|init|] == init;
  }

  lemma LeftoverSnoc(s: Suite, d: Disk, p: Provider, init: seq<Op>, last: Op)
    requires Leftover(Run(s, d, p, init)) <==> SomeStop(s, d, p, init)
    ensures Leftover(Run(s, d, p, init + [last])) <==> SomeStop(s, d, p, init + [last])
  {
    RunSnoc(s, d, p, init, last);
    SomeStopSnoc(s, d, p, init, last);
    NextLeftover(s, Run(s, d, p, init), p, last);
  }

  // Old material survives a run beside the metadata exactly if some start or rekey in it was
  // stopped between the two; nothing later erases it.
  lemma {:induction false} ErasedUnlessStopped(s: Suite, d: Disk, p: Provider, ops: seq<Op>)
    requires !Leftover(d)
    ensures Leftover(Run(s, d, p, ops)) <==> SomeStop(s, d, p, ops)
  {
    if ops != [] {
      assert ops[..|ops| - 1] + [ops[|ops| - 1]] == ops;
      ErasedUnlessStopped(s, d, p, ops[..|ops| - 1]);
      LeftoverSnoc(s, d, p, ops[..|ops| - 1], ops[|ops| - 1]);
    }
  }

  // ----- the older layout ------------------------------------------------------------

  // A volume of the older layout whose master key was sealed under the stored bytes, or under
  // what its passphrase stretches to with them, holds that key.
  lemma OlderVolumesHold(s: Suite, d: Disk, p: Provider, key: Bytes, stored: Bytes, salt: Salt, stamp: Stamp)
    requires Lawful(s.aead) && d.meta == None && d.legacyDek == Some(stored) && d.master.Some?
    ensures (d.legacyMode == None || d.legacyMode == Some([]) || (d.legacyMode.Some? && d.legacyMode.value[0] == MODE_AUTO))
            && |stored| == KEY_LEN && EncryptMaster(s, key, stored, salt, stamp) == Ok(d.master.value)
            ==> Holds(s, d, p, key)
    ensures d.legacyMode.Some? && d.legacyMode.value != [] && d.legacyMode.value[0] == MODE_PASSPHRASE && p.Passphrase?
            && EncryptMaster(s, key, s.scrypt(p.pass, stored), salt, stamp) == Ok(d.master.value)
            ==> Holds(s, d, p, key)
  {
    if EncryptMaster(s, key, stored, salt, stamp).Ok? {
      MasterRoundTrip(s, key, stored, salt, stamp);
    }
    if p.Passphrase? && EncryptMaster(s, key, s.scrypt(p.pass, stored), salt, stamp).Ok? {
      MasterRoundTrip(s, key, s.scrypt(p.pass, stored), salt, stamp);
    }
  }

  // Metadata of one kind of provider is refused by the other, and a keyfile other than the one
  // the data key was wrapped under does not unwrap it, unless the cipher opens under a wrong key.
  lemma OtherProviderRefused(s: Suite, p: Provider, other: Provider, r: Draws)
    requires InitDek(s, p, r).Ok?
    ensures var meta := InitDek(s, p, r).value.1;
            && (KindOf(other) != KindOf(p) ==> ReconstructDek(s, other, meta) == Err(ProviderMismatch))
            && (p.Keyfile? && other.Keyfile? && KeyfileKek(s, other.content).Ok?
                && KeyfileKek(s, other.content) != KeyfileKek(s, p.content) ==>
                  || ReconstructDek(s, other, meta) == Err(KeyfileError)
                  || WrongKeyOpens(s.aead, KeyfileKek(s, p.content).value, KeyfileKek(s, other.content).value, r.wrapNonce, [], r.dek))
  {
    if p.Keyfile? {
      var wrapped := InitDek(s, p, r).value.1.wrappedDek.value;
      assert wrapped[..NONCE_LEN] == r.wrapNonce;
      assert wrapped[NONCE_LEN..] == s.aead.encrypt(KeyfileKek(s, p.content).value, r.wrapNonce, [], r.dek).value;
    }
  }

  // Nor does another passphrase give the data key, unless two passphrases stretch alike.
  lemma OtherPassphraseGivesAnotherKey(s: Suite, p: Provider, other: Provider, r: Draws)
    requires p.Passphrase? && other.Passphrase? && InitDek(s, p, r).Ok?
    ensures var (dek, meta) := InitDek(s, p, r).value;
            ReconstructDek(s, other, meta) == Ok(dek)
            <==> s.argon2(other.pass, r.argonSalt, s.defaults) == s.argon2(p.pass, r.argonSalt, s.defaults)
  {
    var meta := InitDek(s, p, r).value.1;
    assert meta.salt == Some(r.argonSalt) && meta.costs == Some(s.defaults);
  }

  // ----- the gap loses a key ---------------------------------------------------------

  // What a rekey stopped in its gap leaves behind, for good: the key, if the two data keys
  // stretch alike, and else a disk on which nothing will ever load; or a wrong key opens.
  lemma StoppedRekey(s: Suite, d: Disk, p: Provider, key: Bytes, r1: Draws, r2: Draws, ops: seq<Op>)
    requires Lawful(s.aead) && Holds(s, d, p, key) && d.meta.Some? && Rekey(s, d, p, r1, r2).result.Ok?
    ensures InitDek(s, p, r2).Ok? && |Rekey(s, d, p, r1, r2).writes| == 3 && InGap(Rekey(s, d, p, r1, r2).writes, 1)
    ensures var stopped := Rekey(s, d, p, r1, r2).writes[1];
            var made := s.scrypt(InitDek(s, p, r2).value.0, r2.envSalt);
            var other := s.scrypt(CurrentDek(s, d, p).value, r2.envSalt);
            || WrongKeyOpens(s.aead, made, other, r2.envSalt[..NONCE_LEN], r2.stamp, key)
            || if made == other then Holds(s, stopped, p, key)
               else Run(s, stopped, p, ops) == stopped && Stuck(s, stopped, p)
  {
    var newDek := InitDek(s, p, r2).value.0;
    GapHoldsExactlyIf(s, d, p, key, newDek, r2);
    var stopped := Rekey(s, d, p, r1, r2).writes[1];
    assert stopped == GapDisk(d, EncryptMaster(s, key, newDek, r2.envSalt, r2.stamp).value);
    if Stuck(s, stopped, p) {
      StuckForever(s, stopped, p, ops);
    }
  }

  // A key gives itself when stretched, and the tag is its first half.
  function PlainSuite(): Suite {
    var zeros: Key := seq(KEY_LEN, _ => 0);
    Suite(HalfKeyCipher(), (b: Bytes) => zeros, (pass: Bytes, salt: Bytes, costs: Costs) => None,
          (key: Bytes, salt: Bytes) => if |key| == KEY_LEN then key else zeros, Costs(0, 0, 0))
  }

  function PlainDraws(dek: Key): Draws {
    Draws([], dek, seq(NONCE_LEN, _ => 0), seq(32, _ => 0), seq(5, _ => 0))
  }

  // A first boot, then a rekey to a key with another first half, stopped after its second write:
  // the key minted at boot was held, and from then on no boot loads anything.
  lemma StoppedRekeyLosesTheKey(minted: Bytes, dek: Key, newDek: Key, ops: seq<Op>, next: Op)
    requires dek[..TAG_LEN] != newDek[..TAG_LEN]
    ensures var s, p, empty := PlainSuite(), Keyfile(Some([1])), Disk(None, None, None, None, None);
            var boot := Op(true, minted, PlainDraws(dek), PlainDraws(dek), 2);
            var rekey := Op(false, minted, PlainDraws(dek), PlainDraws(newDek), 2);
            var booted := OpStep(s, empty, p, boot);
            var stopped := OpStep(s, booted, p, rekey);
            && Lawful(s.aead)
            && Holds(s, booted, p, minted)
            && !StopsOutsideGap(s, booted, p, rekey)
            && Run(s, stopped, p, ops) == stopped
            && Boot(s, Run(s, stopped, p, ops), p, next.minted, next.r1, next.r2).result == Err(WrongDek)
  {
    var s, p, empty := PlainSuite(), Keyfile(Some([1])), Disk(None, None, None, None, None);
    var boot := Op(true, minted, PlainDraws(dek), PlainDraws(dek), 2);
    var rekey := Op(false, minted, PlainDraws(dek), PlainDraws(newDek), 2);
    HalfKeyCipherIsLawful();
    FirstBootMints(s, empty, p, minted, PlainDraws(dek), PlainDraws(dek));
    var booted := OpStep(s, empty, p, boot);
    var stopped := OpStep(s, booted, p, rekey);
    InitReconstructs(s, p, PlainDraws(dek));
    StoppedRekey(s, booted, p, minted, PlainDraws(dek), PlainDraws(newDek), ops);
    StuckFails(s, stopped, p, next);
  }
}
