# A verified model of Blackbook's core protocols

Blackbook is a secrets server with a command-line client. This project models the parts of it
that hold state or make promises over whole runs, and proves those promises:

- the client-to-client **tunnel**: handshake, sealed channel with counter nonces, and stream
  multiplexer, over a relay that may drop, repeat, reorder, alter or inject anything
  (`Handshake`, `Channel`, `Mux`, `MuxSafety`, one stream's life in `StreamLife`, all of it together in
  `Tunnel`, and particular runs in `MuxRuns`, `EarlyReply` and `IdClash`);
- the tamper-evident **audit log** and its archives (`AuditChain`, `RowChain`, `AuditArchive`, `Hex`, `Utf8`);
- the **access decision**: glob matcher, schedule masks, rule limits, and the per-client token
  bucket (`Glob`, `Cron`, `Acl`, `RateLimiter`, `LockOrder`, with `Text` for the string operations);
- **key lifecycles**: managed key versions and the master key on disk (`ManagedKeys`, `MasterDek`, `KeyBinding`);
- what the **client** seals by itself (`Envelope`, `ClientKeys`), and three codecs: iterated key
  wrap, compact tokens, and the console's tokenizer (`KeyWrap`, `Tokens`, `Tokenizer`).

`dafny verify dfyconfig.toml` checks everything.

## How to read it

Code that updates state is a class or a loop here too: `Channel.Session`, `Mux.Engine`,
`AuditChain.AuditLog`, `Acl.AclTable`, `RateLimiter.NetRateLimiter`, `ManagedKeys.KeyStore` and
`MasterDek.DataDir`, and the loops of the glob matcher, the cron scanner, the archive verifier,
the key wrap, the tokenizer and the envelope codec. Each is proved equal to a function of the old
state, and the properties over runs are proved about those functions.

Primitives are records of functions with stated laws, nothing more: an authenticated cipher that
opens what it sealed and adds 16 bytes (`Crypto.Lawful`, which `Crypto.LawfulCipherExists` and
`KeyBinding.HalfKeyCipherIsLawful` show can be met), a commuting key agreement (`Handshake.Commutes`), an invertible and, for one
result, exact wrap step (`KeyWrap.Wraps`, `KeyWrap.UnwrapsOnlyWraps`), and faithful JSON and base64 (`Tokens.Faithful`, `ManagedKeys.Good`,
`ClientKeys.GoodSuite`). No hash is assumed collision-free and no cipher or signature
unforgeable. Where security rests on that, the result names the break among the events of the run
at hand: a frame that the cipher accepts although it was never sealed (`Channel.Forged`), a
signature that verifies and nobody made (`Handshake.ForgedSignature`, `Tokens.Forged`), two given
transcripts or two given audit rows with one hash (`Handshake.Collide`, `AuditArchive.CollidesAt`),
a given envelope that opens under a key or associated data it was not made with
(`KeyBinding.WrongKeyOpens`, `KeyBinding.WrongAadOpens`). The breaks are stated by the primitive's
own answer, so code that does not ask it meets none. That no ciphertext ever opens under
another key is not assumed because no cipher with 16-byte tags and 32-byte keys can promise it
(`KeyBinding.NoCipherBindsEveryKey`).

Random draws, clock readings and what the relay or other callers do are parameters of the steps.
Text that is only hashed or compared is its UTF-8 bytes. A base64 or JSON field is its decoded
value, or `None` when it does not decode. Error messages are reduced to constructors.

## Where the code and what is said about it differ

- **Glob.** A pattern's `*` is meant to match any sequence, but literal equality is tested first
  (src/auth.rs:351), so a `*` in the text uses up a `*` of the pattern. Acceptance is always
  right. A text gets the right answer under every pattern exactly when it contains no `*`
  (`Glob.RightExactlyOnStarlessTexts`), and a pattern gives the right answer on every text exactly
  when it contains none (`Glob.RightExactlyOnStarlessPatterns`).
- **Token bucket.** Burst plus refill bounds every run and interval exactly when a bucket refills
  completely during the 300 seconds after which it may be swept, or the capacity is below one and
  nothing is ever allowed (`RateLimiter.BoundedExactlyWhenSafe`). For every other configuration
  `RateLimiter.Flood` is a run that exceeds the bound. All this is for times that do not decrease
  in the order the lock is taken. They can, as a call reads the clock before it takes the lock
  (src/net_ratelimit.rs:63-64): calls at 10, 9 and 10 seconds are then allowed twice within half a
  second on a burst and a refill of one (`LockOrder.OutOfOrderExceeds`). In any order, what bounds
  a client over a stretch of a run is burst plus refill over the upward steps of the times of that
  stretch, under exactly the same condition (`LockOrder.StepBoundedExactlyWhenSafe`). The steps of
  the client's own times suffice if nothing is ever swept (`LockOrder.OwnStepsBound`) and do not
  otherwise (`LockOrder.OwnStepsFallShort`).
- **Round counter.** `round_info` is described as minimal big-endian (src/blackbook_core.rs:492),
  but for rounds above zero it has a zero byte too many exactly when the bit length is a multiple of
  eight, as for 255 (`KeyWrap.RoundInfoIsShortestExactly`). Decoding and distinctness are not affected.
- **Audit row bytes.** The length prefixes are said to keep distinct rows apart
  (src/auth.rs:654-658). They do for rows whose fields are all shorter than a limit exactly if the
  limit is at most 2^32 - 1 (`AuditChain.DeterminedExactlyBelow`): an optional field of 2^32 - 1
  bytes is written with the length that marks an absent one, and two rows of ASCII text then share
  their bytes (`AuditChain.LongestFieldIsAmbiguous`),
  and at 2^32 bytes any length wraps around (`AuditChain.OversizedFieldsAreAmbiguous`).
- **Envelope.** The length casts make the round trip hold exactly for salts under 256 bytes and
  wrapped keys under 2^32 bytes (`Envelope.RoundTripExactly`).
- **Rekeying the master key.** Between renaming the rewrapped key and writing its metadata the
  disk still holds the key exactly if the old and the new data key stretch to one message key under
  the new salt, leaving aside an envelope that opens under a wrong key
  (`MasterDek.GapHoldsExactlyIf`). Otherwise it is stuck: every later boot and rekey fails with the
  wrong data key and writes nothing (`MasterDek.StuckFails`, `MasterDek.StuckForever`), as in the
  run of `MasterDek.StoppedRekeyLosesTheKey`. Every other write boundary is safe.
- **Erasing the raw data key.** A migration is said to leave no raw data key on disk
  (src/persistence.rs:420-423). One that completes does not (`MasterDek.MigrationErases`), but one
  stopped between its metadata and its erasure leaves it there for good, since later boots find the
  metadata and no longer look. Over any sequence of boots and rekeys that is exactly when it stays
  (`MasterDek.ErasedUnlessStopped`).
- **Tunnel to oneself.** Completing a handshake guarantees a partner exactly when the vouched
  identity is not one's own (`Handshake.AgreesExactlyWithOthers`). A side that is vouched its own
  accepts its own signature when it comes back with the ephemeral it was made for, with no one else
  taking part (`Handshake.ReflectionHasNoPartner`). The server refuses to offer such a tunnel
  (src/server.rs:5713-5718).
- **Early replies.** A reply that reaches the listener before the stream's Register has been
  processed is dropped and the next one handed on (`EarlyReply.EarlyRepliesAreLost`). What is handed
  on is a prefix of the replies if it starts at the first, and unless the reply it starts at
  equals the first, only then (`MuxSafety.PrefixExactlyWhenFirst`).
- **Stream ids.** They are distinct for exactly the first 2^32 streams (`MuxSafety.SidsAreDistinct`),
  and streams stay in order towards the target in every unforged run of at most a given number of
  them exactly if that number is at most 2^32 (`IdClash.InOrderExactlyUpTo`).

## Model

| member | source | states |
|---|---|---|
| Channel.Session.Seal | src/tunnel_crypto.rs:341-348 | one more counter is spent before encrypting and nothing else changes; only exhaustion leaves the counter alone |
| Channel.Session.Open | src/tunnel_crypto.rs:352-360 | a frame that does not open leaves the session as it was; one that does advances the receive counter by one |
| Channel.CtrNonceInjective | src/tunnel_crypto.rs:364-368 | distinct 64-bit counters give distinct nonces |
| Channel.OpensExactlyTheNextFrame | src/tunnel_crypto.rs:341-361 | a genuine frame opens, to its plaintext, if and only if it is the next one: replays, reorderings and gaps are refused |
| Channel.OpenedIsAccepted | src/tunnel_crypto.rs:352-361 | nothing opens that the cipher does not decrypt at the expected counter's nonce, and the plaintext is the cipher's |
| Channel.SealKeepsInvariants | src/tunnel_crypto.rs:341-348 | sealing keeps: every use of a key is a submitted plaintext at its own index's nonce, and each side's received list is a prefix of the other's submitted one |
| Channel.DeliverKeepsInvariants | src/tunnel_crypto.rs:352-361 | so does handing either side any bytes that are not a forgery |
| Channel.OpenedIsPrefixOfSealed | src/tunnel_crypto.rs:338-368 | in every run over an arbitrary relay, what either side has opened is an in-order prefix of what the other submitted, or the run contains a forged frame |
| Channel.NoncesNeverRepeat | src/tunnel_crypto.rs:338-368 | no key and nonce are used twice in any run, over both directions and past counter exhaustion, and the last counter value is never used; needs neither the cipher's law nor an honest relay |
| Channel.SharedKeyReusesNonces | src/tunnel_crypto.rs:322-336 | why there are two directional keys: with one, the first frames of the two sides share a nonce |
| Crypto.SealedOpens | src/blackbook_core.rs:640-698 | under the right key and associated data a sealed envelope opens to its plaintext, and it is 28 bytes longer |
| Crypto.SealedOpensAtItsNonce | src/blackbook_core.rs:599-632 | with an expected nonce a sealed frame opens if and only if that is the nonce it was sealed with, and is else refused for its nonce |
| Crypto.LawfulCipherExists | src/blackbook_core.rs:599-632 | the law assumed of the cipher can be met |
| Mux.InnerRoundTrip | src/tunnel_client.rs:65-82 | an inner frame decodes to its kind, stream id and payload |
| Mux.InnerDecodeIsExact | src/tunnel_client.rs:72-82 | whatever decodes re-encodes to the same bytes |
| Mux.Engine.OnCommand | src/tunnel_client.rs:236-245 | sealing a queued frame touches only the session, registering only the table; a sealing error changes no route |
| Mux.Engine.OnFrame | src/tunnel_client.rs:247-274 | an inbound frame has exactly the dispatch's effect on table and streams, which `StreamLife.StreamsLiveUntilClosed` gives for DATA, CLOSE and OPEN in terms of frames; one that does not open changes neither session nor routes |
| MuxSafety.SidsAreDistinct | src/tunnel_client.rs:282-285 | the wrapping counter hands out distinct ids for n streams if and only if n is at most 2^32 |
| MuxSafety.AcceptKeepsInv | src/tunnel_client.rs:294-306 | opening a stream keeps the multiplexer's invariant: OPEN frames in stream order, no data before its OPEN, queued data exactly what each socket produced |
| MuxSafety.RegisteringKeepsInv | src/tunnel_client.rs:304-305 | so does queueing its Register later, other streams' frames in between |
| MuxSafety.UploadKeepsInv | src/tunnel_client.rs:451-468 | so does reading from a socket, at either side |
| MuxSafety.FinishKeepsInv | src/tunnel_client.rs:454-457 | so does sending CLOSE, which carries nothing for any stream |
| MuxSafety.PumpEndsKeepsInv | src/tunnel_client.rs:470-483 | so does a pump that ends and takes its stream out of the table |
| MuxSafety.TakeKeepsInv | src/tunnel_client.rs:236-245 | so does the engine taking one command, sealing it or registering it |
| MuxSafety.RelayKeepsInv | src/tunnel_client.rs:247-274 | so does any frame from the relay that is not a forgery: it opens the listener's next stream, extends one stream's payloads, or changes none |
| MuxSafety.ForwardStreamsArePrefixes | src/tunnel_client.rs:224-384 | at every moment of every run of up to 2^32 streams, the target's k-th stream is the listener's k-th, dialled where that one asked, and has been handed a prefix of what that one sent and nothing else; or a frame was forged |
| MuxSafety.ReverseStreamsAreSlices | src/tunnel_client.rs:224-278 | towards the listener each stream is handed a contiguous run of its own replies, starting at the reply count when its Register was processed, hence a prefix if that was before the first reply |
| MuxSafety.PrefixExactlyWhenFirst | src/tunnel_client.rs:236-264 | in every unforged run, what a registered stream has been handed starts at the reply count when its Register was processed, and is a prefix of the replies if and only if that is zero, unless that reply happens to equal the first |
| StreamLife.UpToCloseMeaning | src/tunnel_client.rs:266-271 | what a stream is told ends with the first CLOSE, and is everything where there is none |
| StreamLife.StreamsLiveUntilClosed | src/tunnel_client.rs:224-278 | at every moment of every unforged run, at either end, what each stream has been handed is every DATA and CLOSE that came in for its id since it entered the table, in order, up to and including the first CLOSE; and it is in the table exactly until that CLOSE, or until its pump ends |
| StreamLife.QueuedIsSaid | src/tunnel_client.rs:440-483 | what a side queues for a stream is what its socket did: each read as DATA, its end as CLOSE, and nothing else |
| StreamLife.HeardIsSaid | src/tunnel_client.rs:224-278 | what comes in for a stream, CLOSE included, is a prefix of what the other end's socket said |
| Mux.DataIsPayloads | src/tunnel_client.rs:260-264 | the payloads among a stream's messages are its DATA, so both readings of a run agree |
| EarlyReply.EarlyRepliesAreLost | src/tunnel_client.rs:236-264 | a concrete run without any forgery in which a reply overtakes the Register, and the listener is handed the second reply alone, no prefix of the two |
| IdClash.LastStreamIsMisfed | src/tunnel_client.rs:282-285 | a concrete unforged run of 2^32 + 1 streams, each opened and registered, in which the target's last stream is handed what only the listener's first one sent |
| IdClash.InOrderExactlyUpTo | src/tunnel_client.rs:224-384 | every unforged run of at most `limit` streams keeps them in order towards the target, if and only if `limit` is at most 2^32 |
| Handshake.PayloadInjective | src/tunnel_crypto.rs:98-108 | a signed payload determines session hash, name and fingerprint |
| Handshake.TranscriptInjective | src/tunnel_crypto.rs:83-95 | a transcript determines the tunnel id and both ephemerals in role order |
| Handshake.CompletionChecks | src/tunnel_crypto.rs:253-320 | a side completes if and only if the certificate has the vouched fingerprint, the message comes from the vouched name, an ephemeral of 32 bytes and a signature are there, and the signature verifies over the expected payload; the session then bears that name and fingerprint |
| Handshake.CompletionImpliesPartner | src/tunnel_crypto.rs:230-314 | a side that completes has a partner: another instance of the vouched identity that signed in the opposite role for the same tunnel and the same two ephemerals; or the signature was forged, or is its own sent back, or the two transcripts collide |
| Handshake.OwnSignatureIsAccepted | src/tunnel_crypto.rs:253-298 | the reflection is real: vouched its own identity, a side accepts its own signature with the ephemeral it was made for |
| Handshake.ReflectionHasNoPartner | src/tunnel_crypto.rs:253-298 | such a completion has no other instance as partner, no forged signature and no colliding transcripts |
| Handshake.AgreesExactlyWithOthers | src/tunnel_crypto.rs:230-314 | whenever a side completes against an identity it has a partner or a primitive broke, for all instances and messages, if and only if that identity is not its own |
| Handshake.CrossedKeys | src/tunnel_crypto.rs:303-336 | opposite roles on the same tunnel and ephemerals derive each other's send and receive keys |
| Handshake.BothCompleteMatched | src/tunnel_client.rs:88-145 | two sides that completed on each other's ephemerals, whatever messages the relay gave them and however many other instances either identity runs, hold matched sessions in opposite roles of one tunnel, each bearing the other's name and fingerprint, unless both met a break |
| Handshake.MatchedMeansExchanged | src/tunnel_crypto.rs:300-336 | and only such sides do: matched sessions were completed on each other's ephemerals, or given transcripts or derived keys collide |
| Handshake.LoneInstancesExchange | src/tunnel_client.rs:88-145 | if neither identity has another instance in the tunnel, two sides that complete did so with one another, or one met a break |
| Handshake.FaithfulRelayCompletes | src/tunnel_client.rs:88-145 | with an honest relay both sides sign and complete, on matched sessions |
| Tunnel.EndToEnd | src/tunnel_client.rs:88-278 | handshake, channel and multiplexer composed: if two sides completed with one another, every stream is in order and unmixed at every moment of every run, or both met a break in the handshake, the directional keys are equal, or a frame was forged |
| Bytes.FieldsInjective | src/tunnel_crypto.rs:83-108 | concatenated length-prefixed fields determine the list of fields |
| Bytes.LenPrefixedPrefixFree | src/auth.rs:689-692 | a length-prefixed field can be told from whatever follows it |
| Hex.HexRoundTrip | src/auth.rs:629-630 | bytes written as lower-case hex decode to themselves |
| Hex.Hex32RoundTrip | src/audit_archive.rs:177-181 | a 32-byte value in hex reads back as that value |
| AuditChain.RowBytesInjective | src/auth.rs:659-698 | the MAC key, the previous hash and all six fields are determined by the hashed bytes, absent fields told from empty ones, for keys and fields under the length limit |
| AuditChain.RowBytesNameTheKey | src/auth.rs:672-676 | whatever the rows, equal hashed bytes were made under one key |
| AuditChain.RowsAreLabelled | src/auth.rs:672-673 | no string without the label is the hashed bytes of a row |
| AuditChain.SameKeyInjective | src/auth.rs:659-698 | under one key of any length, previous hash and fields are determined |
| AuditChain.OversizedFieldsAreAmbiguous | src/auth.rs:689-692 | a concrete pair of different rows with the same hashed bytes under every key, once a field has 2^32 bytes |
| AuditChain.LongestFieldIsAmbiguous | src/auth.rs:659-698 | another such pair, of ASCII text with any short status and no field above 2^32 - 1 bytes |
| AuditChain.DeterminedExactlyBelow | src/auth.rs:659-698 | keys and rows with all fields shorter than a limit are determined by their hashed bytes if and only if the limit is at most 2^32 - 1, and so are those with rows of UTF-8 text |
| Utf8.AsciiIsUtf8 | src/auth.rs:659-668 | bytes below 128 are UTF-8 text |
| AuditChain.AuditLog.Audit | src/auth.rs:563-653 | appends exactly one row linked to the last, or, when encryption or the transaction fails, nothing; a chained log stays chained |
| AuditChain.WrittenIsChained | src/auth.rs:600-653 | every sequence of writes to an empty log leaves one chain from 32 zero bytes, one row a write |
| AuditChain.WrittenHoldsTheWrites | src/auth.rs:600-653 | and each row holds the id and the fields of its write, in order |
| RowChain.ChainsConcatenate | src/audit_archive.rs:140-164 | a concatenation chains if and only if both parts do, the second from where the first ends |
| RowChain.EqualEnds | src/audit_archive.rs:140-172 | two chains from one start with one end share a tail of equal contents, before which nothing is left, two rows collide, or the longer passes through its start again |
| AuditArchive.VerifyArchive | src/audit_archive.rs:122-175 | accepts if and only if the rows chain under this key from the first anchor to the last; a refusal reports the longest chained prefix, the id after it and which link failed |
| AuditArchive.AnotherKeyNeedsACollision | src/audit_archive.rs:122-175 | a non-empty archive that verifies under two keys exhibits two different byte strings with one hash, made from its first row |
| AuditArchive.FirstRowHash | src/audit_archive.rs:140-164 | in a chain the first row carries the hash of its own fields after the anchor |
| AuditArchive.LongestIsExact | src/audit_archive.rs:140-164 | the reported prefix is longest: a prefix of the rows chains if and only if it is no longer |
| AuditArchive.WrittenSlicesAreSound | src/audit_archive.rs:122-175 | any contiguous slice of what the log wrote verifies between the hashes its own end rows carry |
| AuditArchive.SoundArchivesCompose | src/audit_archive.rs:122-175 | an archive and one that starts where it ends join into a verifying archive if and only if the second verifies |
| AuditArchive.SameAnchorsSameRows | src/audit_archive.rs:118-121 | two verified archives with equal anchors and row count have equal hashed fields in order, or two of their own rows are exhibited whose hashed bytes collide |
| AuditArchive.DroppingRowsNeedsABreak | src/audit_archive.rs:118-121 | a shorter archive verifies between the anchors of a longer one only if rows collide or the first anchor recurs inside the longer chain |
| Glob.SqlLikeMatch | src/auth.rs:344-371 | the iterative matcher decides what its scan specification says, in fewer than (pattern + 1)(text + 1) rounds |
| Glob.AcceptedIsMatch | src/auth.rs:344-371 | whatever it accepts matches the recursive meaning of `*` and `_`, for every pattern and text |
| Glob.ScanIsComplete | src/auth.rs:350-366 | from any state of the scan, a match reachable by moving the last `*` is found, if the text has no `*` |
| Glob.AgreesOnStarlessTexts | src/auth.rs:344-371 | on texts without `*` acceptance and meaning are the same |
| Glob.StarredTextsAreMissed | src/auth.rs:351-354 | every text with a `*` has a pattern that matches it and is refused |
| Glob.RightExactlyOnStarlessTexts | src/auth.rs:344-371 | a text gets the right answer under every pattern if and only if it contains no `*` |
| Glob.StarredPatternsMiss | src/auth.rs:351-354 | every pattern with a `*` refuses some text it matches |
| Glob.RightExactlyOnStarlessPatterns | src/auth.rs:344-371 | a pattern gives the right answer on every text if and only if it contains no `*` |
| Text.SplitJoin | src/auth.rs:395 | splitting undoes joining, for parts without the separator |
| Text.ParseDecimal | src/auth.rs:397 | a number written in decimal parses back, below the type's limit |
| Cron.CronField | src/auth.rs:394-419 | the first term that is malformed or has the value decides |
| Cron.CronWindowMatches | src/auth.rs:380-392 | fields are consulted in order until one fails, Sunday being tried as 0 and then 7 |
| Cron.WindowMeaning | src/auth.rs:380-419 | if all terms are well formed the answer is membership of every field in its union of stepped ranges; on any text, true implies membership and an error implies something malformed |
| Cron.TermParses | src/auth.rs:396-414 | `*`, `a`, `a-b`, each with an optional step, parse to the ranges they denote |
| Cron.WrittenFieldMeaning | src/auth.rs:394-419 | a field written from a list of terms is true of exactly the values in the union of what they denote |
| Cron.HasMeaning | src/auth.rs:405-414 | a stepped range has the values reached from its start in whole steps, up to its end |
| Cron.WrittenScheduleMeaning | src/auth.rs:380-419 | five written fields joined by spaces are true of exactly the moments each field's terms denote, weekday 7 being Sunday |
| Cron.ZeroStepIsRefused | src/auth.rs:400-404 | a step of zero is an error for every range |
| Acl.AclCheck | src/auth.rs:258-330 | administrators first, then the first grant in order that permits, each tried at its own reading of the clock, else denied; `Acl.DecisionMeaning` says what permits |
| Acl.AllowedMeaning | src/auth.rs:286-326 | the admin decisions are for exactly the administrators; an allowed grant is of this domain, names the client or one of its groups, was given for a set of actions with this one in it, has started and not expired, has a pattern that matches by meaning, a schedule that contains the moment, and uses left in total and in its window |
| Acl.MaskHasItsActions | src/server.rs:602-617 | a mask made from a set of actions has the bit of exactly those |
| Acl.CandidateMeaning | src/auth.rs:286-301 | the database's part of the decision in the grant's own fields |
| Acl.PermitsMeaning | src/auth.rs:286-326 | a grant that permits entitles in that sense, and conversely on a resource without `*` if its schedule is well formed |
| Acl.ScheduleMeaning | src/auth.rs:373-392 | a schedule lets through only moments inside five written fields, all of them if it is well formed |
| Acl.EntitledIsNotDenied | src/auth.rs:258-330 | a client with an entitling grant, well scheduled, is not denied a resource without `*`, whatever the other grants hold |
| Acl.DecisionMeaning | src/auth.rs:258-330 | for a client without a role the first entitling grant decides, and denial means there is none |
| Acl.DeniedMeaning | src/auth.rs:258-330 | denied if and only if the client has no role and no grant permits |
| Acl.AclTable.RecordUse | src/auth.rs:451-472 | charges the deciding grant once and rolls its window if elapsed; admin decisions charge nothing |
| Acl.UsesAreCapped | src/auth.rs:451-472 | over any sequence of attempts every use is counted, and a grant is used at most `max_uses` times; nothing else about it changes |
| Acl.CheckAndRecordAgree | src/auth.rs:423-472 | the check in code and the update in the database roll the window under the same condition |
| Acl.RateCountIsCapped | src/auth.rs:423-472 | over any sequential run the window count stays between 0 and `rate_max` |
| Acl.UsesPerInterval | src/auth.rs:423-472 | any half-open interval of length T holds at most (ceil(T/period) + 1) times `rate_max` uses |
| RateLimiter.NetRateLimiter.Allow | src/net_ratelimit.rs:59-82 | disabled, it allows and keeps nothing; enabled, it sweeps, refills up to the cap and takes a token if there is one |
| RateLimiter.TokensInRange | src/net_ratelimit.rs:71-81 | every bucket ever stored is between empty and capacity, and its time is that of some call |
| RateLimiter.RunPays | src/net_ratelimit.rs:71-81 | without sweeping: requests allowed since any time, plus tokens left, never exceed burst plus refill |
| RateLimiter.RefusedHasSpent | src/net_ratelimit.rs:71-81 | without sweeping, a client is refused only if since some earlier moment it was allowed more than the burst and refill from then on less one |
| RateLimiter.RefusedByTheLimiter | src/net_ratelimit.rs:59-82 | and so with sweeping, for configurations in which a bucket refills while idle: no refusal loses refill |
| RateLimiter.ForgettingIsRefilling | src/net_ratelimit.rs:66-73 | forgetting any idle bucket equals refilling it if and only if 300 times the refill reaches the capacity |
| RateLimiter.SweepingIsInvisible | src/net_ratelimit.rs:66-73 | with such a configuration, the limiter answers every call of every run as one that never forgets would |
| RateLimiter.BurstPlusRefillBound | src/net_ratelimit.rs:59-82 | and allows one client at most capacity plus refill times T in any interval of length T |
| RateLimiter.FloodIsAllowed | src/net_ratelimit.rs:66-73 | a concrete run for every capacity of at least one, with enough other clients, in which a client twice empties its full bucket within little more than 300 seconds |
| RateLimiter.BoundedExactlyWhenSafe | src/net_ratelimit.rs:59-82 | for every enabled configuration the bound holds over all runs, clients and intervals if and only if the capacity is below one or a bucket refills while idle |
| RateLimiter.SweepingIsInvisibleExactly | src/net_ratelimit.rs:66-73 | exactly those configurations answer every call of every run as without sweeping |
| LockOrder.OutOfOrderExceeds | src/net_ratelimit.rs:63-64 | a concrete run, its times out of order, that exceeds the bound by interval under a safe configuration |
| LockOrder.AllStepsBound | src/net_ratelimit.rs:59-82 | in any order of times, any stretch of a run allows a client at most the burst and the refill over the upward steps of the stretch's times |
| LockOrder.StepBoundedExactlyWhenSafe | src/net_ratelimit.rs:59-82 | for every enabled configuration that bound holds over all runs, stretches and clients if and only if the capacity is below one or a bucket refills while idle |
| LockOrder.RiseInOrder | src/net_ratelimit.rs:76 | for times in order those steps add up to what lies between the first and the last |
| LockOrder.OwnStepsBound | src/net_ratelimit.rs:71-81 | a limiter that never forgets is bounded, for every configuration, by the upward steps of the client's own times |
| LockOrder.OwnStepsFallShort | src/net_ratelimit.rs:66-73 | a concrete run in which one that sweeps is not: the client is forgotten on another's later reading |
| KeyWrap.WrapBytes | src/blackbook_core.rs:439-466 | any secret of 32 bytes wraps, to 32 + 8n bytes; other lengths are refused |
| KeyWrap.Unwrap | src/blackbook_core.rs:469-490 | undoes the rounds last to first, with the blob it holds |
| KeyWrap.RoundsInvert | src/blackbook_core.rs:439-490 | for every number of rounds, under any keys, unwrapping returns the secret and never meets a short blob |
| KeyWrap.UnwrapIsExact | src/blackbook_core.rs:469-490 | if one step unwraps only what it wraps, a blob that unwraps is the wrapping of what it unwraps to, for every number of rounds |
| KeyWrap.RoundKeysDiffer | src/blackbook_core.rs:439-466 | two rounds share a key only if two different salts derive it |
| KeyWrap.RoundInfoIsBigEndian | src/blackbook_core.rs:494-504 | the shifted bytes are the fixed-width big-endian form |
| KeyWrap.RoundInfoDecodes | src/blackbook_core.rs:494-504 | read big-endian, the counter bytes are the round number |
| KeyWrap.RoundSaltsDiffer | src/blackbook_core.rs:494-504 | no two rounds derive their key from the same salt |
| KeyWrap.RoundInfoIsShortestExactly | src/blackbook_core.rs:492-504 | no shorter non-empty string reads back as the round, if and only if the round is zero or its bit length is not a multiple of eight |
| Envelope.ExtEncodeV2 | src/main.rs:1409-1431 | appends field by field to the layout with both lengths cast down |
| Envelope.ExtDecode | src/main.rs:1444-1514 | its cursor stays inside the buffer on every byte string, and it finds the fields where the layout puts them |
| Envelope.RoundTripExactly | src/main.rs:1409-1514 | decoding undoes encoding if and only if the salt is under 256 bytes and the wrapped key under 2^32 |
| Envelope.AcceptedReencodes | src/main.rs:1478-1511 | every accepted version 2 buffer is the encoding of what it decodes to |
| Envelope.DecodedExactly | src/main.rs:1444-1514 | a buffer decodes to given fields if and only if it is one of the two layouts of them, within the length limits |
| Envelope.LegacyRoundTrip | src/main.rs:1450-1477 | version 1 buffers read back with the fixed mode and no costs |
| Envelope.HeaderThenCiphertext | src/main.rs:1372-1404 | a header sealed with empty ciphertext, followed by the ciphertext, is the whole envelope |
| ClientKeys.SealedItemOpens | src/main.rs:1377-1563 | an external item opens to its plaintext for whoever holds the key it was sealed under |
| ClientKeys.OpensForHoldersOnly | src/main.rs:1518-1563 | whatever credentials open an item hold the key it was sealed under, or two passphrases stretch alike, or its wrapped key opens under a wrong key |
| ClientKeys.RekeyingKeepsPlaintext | src/main.rs:2654-2687 | after any sequence of rekeys between managed key and passphrase, from either format version, the item opens to its first plaintext under the last key |
| ClientKeys.OneHalfFixesNothing | src/main.rs:1637-1641 | for each single half every file key is possible, for exactly one other half |
| ClientKeys.ResidentHalves | src/main.rs:1629-1706 | the stash gives the client its half, the server's is the file key XORed with it, and the ciphertext opens under the file key |
| ClientKeys.OtherHalfRefused | src/main.rs:1710-1762 | with any other server half the file is refused, or its ciphertext opens under a wrong key |
| ClientKeys.OtherKeyRefused | src/main.rs:1516-1563 | an item is refused under any other wrapping key, or its wrapped key opens under a wrong key |
| ClientKeys.OlderItemOpens | src/main.rs:1450-1563 | an item in the older format opens with its passphrase |
| ClientKeys.StashRoundTrip | src/main.rs:1672-1706 | a stash parses to the header and ciphertext it was made of |
| ClientKeys.RekeyingKeepsStash | src/main.rs:1764-1837 | rekeys change neither ciphertext, client half nor file name |
| ClientKeys.RekeyingKeepsFile | src/main.rs:1629-1836 | after any sequence of rekeys the file opens with the server half first handed out and the ciphertext first written |
| Bytes.XorCancels | src/main.rs:1754-1755 | joining with a half undoes splitting it off |
| Tokenizer.Tokenize | src/webui.rs:304-347 | the character loop computes the scan, an open quote being the only error |
| Tokenizer.ScanConcatenates | src/webui.rs:311-339 | scanning two pieces one after the other is scanning them joined, unless the first ends on a dangling backslash |
| Tokenizer.JoiningIsConcatenationExactly | src/webui.rs:304-347 | for a line that tokenizes, joining it by a space to any other gives the tokens of both if and only if it has no dangling backslash |
| Tokenizer.QuotedLineRoundTrip | src/webui.rs:304-347 | any list of strings, each quoted and joined by spaces, tokenizes back to the list |
| Tokenizer.WrittenLineTokenizes | src/webui.rs:304-347 | a line of words, each written in pieces that are double-quoted, single-quoted, escaped or bare, between any white space, tokenizes to the words |
| Tokenizer.OpenQuoteIsRefused | src/webui.rs:340-342 | a word that ends in an open quote of either kind is refused |
| Tokens.TokenClaims | src/crypto_ops.rs:450-481 | `iat`, `exp` and `nbf` are the server's, whatever the caller's own claims say; `nbf` is present only if an offset was given |
| Tokens.IssuedTokenSplits | src/crypto_ops.rs:483-556 | an issued token splits into exactly what was joined, and the part verified is the part signed |
| Tokens.HeaderReadsBack | src/crypto_ops.rs:516-530 | algorithm and key id read back from an issued token |
| Tokens.IssuedTokenVerifies | src/crypto_ops.rs:534-588 | with the matching key, the signature of an issued token verifies and the answer is that of its claims' checks; `Tokens.AcceptedExactly` says what any token needs |
| Tokens.PartsMeaning | src/crypto_ops.rs:508-514 | a token has parts exactly if, trimmed, it is three texts without dots joined by dots, the first two not empty, and what is verified is its text before the last dot |
| Tokens.AcceptedExactly | src/crypto_ops.rs:534-588 | any token is accepted with given claims if and only if it has three parts, its header names this key's algorithm, its third part decodes to a signature that verifies over the text before the last dot, and its claims are those, in time and for the audience |
| Tokens.AcceptedWasIssued | src/crypto_ops.rs:534-588 | an accepted token carries claims and key id of a token this key issued, or its signature is a forgery over its own signing input |
| Tokens.SigningInputInjective | src/crypto_ops.rs:483-500 | a signing input determines header and claims |
| Tokens.OtherAlgorithmRefused | src/crypto_ops.rs:541-549 | a token issued for one algorithm is refused by a key of the other |
| Tokens.RefusedExactly | src/crypto_ops.rs:450-481 | a request for claims is refused if and only if its lifetime is out of range or its offset negative |
| Tokens.TokenLifetime | src/crypto_ops.rs:450-588 | a token made at time n is accepted exactly while now <= n + ttl + 60 and, given an offset, now >= n + offset - 60, by the audience it names, and gives back the claims put in |
| ManagedKeys.VersionedRoundTrip | src/crypto_ops.rs:235-249 | version tag and ciphertext read back |
| ManagedKeys.KidReadsBack | src/keys_api.rs:502-518 | the version reads back from the key id of any key name, even one with `:v` in it, and another key's id is refused |
| ManagedKeys.MaterialAadInjective | src/keys_api.rs:195-201 | the associated data belongs to one version of one key |
| ManagedKeys.KeyStore.CreateKey | src/keys_api.rs:525-654 | adds the key with version 1, or changes nothing if the name is taken or sealing fails |
| ManagedKeys.KeyStore.RotateKey | src/keys_api.rs:820-862 | adds the next version of the row as it now is, not as the caller saw it; on any error changes nothing |
| ManagedKeys.KeyStore.DeleteKey | src/keys_api.rs:883-900 | removes the row, its name and all its versions, and no other |
| ManagedKeys.CreatedIsFound | src/keys_api.rs:525-654 | a look at a created key's name finds version 1 with the material drawn; other names are as before |
| ManagedKeys.RotatedMaterial | src/keys_api.rs:820-862 | the new version's material is the one drawn, and every other version's row is as before |
| ManagedKeys.EncryptsUnderTheLook | src/keys_api.rs:965-1006 | a new ciphertext names the latest version the caller's look saw and opens under that version's material |
| ManagedKeys.DecryptsOnly | src/keys_api.rs:1008-1060 | whatever decrypts is tagged with a version the look saw, of a key of the right type, and is accepted by the cipher under that version's material and the given associated data |
| ManagedKeys.DeletedIsGone | src/keys_api.rs:883-900 | deleting leaves no row, version or name of that key and everything of the others |
| ManagedKeys.MovedMaterialRefused | src/keys_api.rs:399-445 | material sealed for another key or version is refused, or opens under the wrong associated data |
| ManagedKeys.OtherAadRefused | src/keys_api.rs:1008-1060 | a ciphertext is refused under associated data it was not made with, or the cipher accepts it |
| ManagedKeys.TokenNamesVersion | src/keys_api.rs:502-518 | a token without a key id is read under the latest version; one with is read under the version it names, of this key |
| ManagedKeys.RunKeepsInv | src/keys_api.rs:525-1100 | every event, with other callers' events between a look and its use, keeps: versions dense, all material unsealable, all issued ciphertexts readable |
| ManagedKeys.VersionsAreDense | src/keys_api.rs:820-862 | in every reachable state a key's stored versions are exactly 1 to its latest |
| ManagedKeys.IssuedDecryptsExactly | src/keys_api.rs:965-1100 | until its key is deleted, every ciphertext ever returned by encrypt or datakey decrypts to its plaintext for a caller whose look saw its version, and is refused as unknown for one whose look is older |
| ManagedKeys.IssuedDecryptsNow | src/keys_api.rs:1008-1060 | a caller who looks now can decrypt all of them |
| ManagedKeys.IssuedIsKept | src/keys_api.rs:965-1100 | no event takes back what was issued |
| MasterDek.MasterRoundTrip | src/blackbook_core.rs:556-726 | the master key's envelope opens to its contents under the key it was made with |
| MasterDek.OtherStampRefused | src/blackbook_core.rs:556-581 | an envelope whose time was changed is refused, or opens under the wrong associated data |
| MasterDek.InitReconstructs | src/persistence.rs:253-352 | the data key comes back from its metadata under the same provider |
| MasterDek.DataDir.MigrateLegacyDek | src/persistence.rs:424-493 | file by file, the disks it leaves and its result are those of the migration, erasing both old files last; a refusal writes nothing |
| MasterDek.DataDir.ResolveDek | src/persistence.rs:364-386 | migrates first, then reconstructs, else mints metadata |
| MasterDek.DataDir.RekeyMasterDek | src/persistence.rs:395-418 | temporary file, rename, metadata, in that order and only after the old data key opened the master key |
| MasterDek.DataDir.LoadOrInitMaster | src/persistence.rs:497-512 | loads what is there, or writes a new key once |
| MasterDek.MigrationKeeps | src/persistence.rs:424-492 | migrating keeps the master key at every write boundary but the gap between rename and metadata |
| MasterDek.MigrationErases | src/persistence.rs:484-487 | a migration that completes leaves neither the raw data key nor its mode, and its metadata |
| MasterDek.MigrationLeaves | src/persistence.rs:478-487 | what of the three is on disk at each write boundary of a migration |
| MasterDek.LeftoverStays | src/persistence.rs:364-493 | an old file beside metadata is never touched again by a boot or rekey |
| MasterDek.ErasedUnlessStopped | src/persistence.rs:364-493 | from a disk without old files beside metadata, over any sequence of boots and rekeys, there are some if and only if a migration was stopped after its metadata and before the last erasure of what there was |
| MasterDek.OlderVolumesHold | src/persistence.rs:424-466 | a volume of the old layout, by raw key or by passphrase, holds the key sealed under it |
| MasterDek.OtherProviderRefused | src/persistence.rs:292-352 | metadata is refused by a provider of another kind, and by another keyfile unless the wrapped data key opens under a wrong key |
| MasterDek.OtherPassphraseGivesAnotherKey | src/persistence.rs:253-352 | another passphrase gives the data key back if and only if both stretch to one key |
| MasterDek.BootKeeps | src/persistence.rs:364-512 | a boot returns the key the disk holds and leaves it held; with metadata in place it writes nothing and succeeds |
| MasterDek.RekeyKeeps | src/persistence.rs:395-418 | a rekey, completed or refused, keeps it at every write boundary but the gap |
| MasterDek.RekeyTakesTheDrawnKey | src/persistence.rs:395-418 | a rekey that completes leaves the same master key sealed under the data key just drawn, with that one's metadata |
| MasterDek.GapHoldsExactlyIf | src/persistence.rs:415-416 | in the gap of a rekey or migration the disk holds the key if old and new data key stretch to one message key, and if not is stuck and holds nothing; or the new envelope opens under a key it was not made with |
| MasterDek.StuckHoldsNothing | src/persistence.rs:364-512 | a stuck disk holds no key at all |
| MasterDek.StuckFails | src/persistence.rs:364-512 | on a stuck disk every boot and rekey fails and writes nothing, with the wrong-data-key error once there is metadata |
| MasterDek.StuckForever | src/persistence.rs:364-512 | so no sequence of boots and rekeys changes a stuck disk |
| MasterDek.StoppedRekey | src/persistence.rs:395-418 | what any rekey stopped after its rename leaves, for good, in those terms |
| MasterDek.StoppedRekeyLosesTheKey | src/persistence.rs:395-418 | a concrete cipher and run, from an empty disk, in which the minted key is held and then lost |
| KeyBinding.HalfKeyCipherIsLawful | src/blackbook_core.rs:599-632 | the cipher of that run keeps the law, and opens under no key with another first half |
| KeyBinding.NoCipherBindsEveryKey | src/blackbook_core.rs:640-698 | of the plaintexts of any one length, some ciphertext opens under a key it was not made with, for every lawful cipher |
| MasterDek.FirstBootMints | src/persistence.rs:364-512 | on a new volume the first boot mints the key, and stopping it anywhere leaves a volume that boots |
| MasterDek.MasterKeyNeverChanges | src/persistence.rs:364-512 | over any sequence of boots and rekeys, each completed or stopped anywhere but in its gap, the disk goes on holding the one master key |
| MasterDek.EveryBootLoadsTheKey | src/persistence.rs:364-512 | so every boot that completes after any such sequence loads that key |

## Left out

- HTTP handlers, SQL, TLS, WebSockets, prompts and file permissions: the database is a map or a list of rows, the disk a record of optional files, the relay an arbitrary step.
- The ciphers, hashes, key derivations, signatures, gzip and JSON themselves: functions with the laws above. That the two directional tunnel keys differ is a named hypothesis (`Channel.DistinctKeys`).
- MuxSafety.ReverseStreamsAreSlices: a full prefix is not claimed when a reply comes in before the stream's Register has been taken from the queue, because it then fails (`EarlyReply.EarlyRepliesAreLost`).
- Which instances the server pairs, and that an identity may attach twice: no pairing is assumed, and results about two sides say which completed on whose ephemeral.
- Half-close and liveness of the pumps: their upload task is aborted on close, so only safety is stated.
- Mux.Engine.OnFrame: a stream's inbound queue is the list of everything pushed to it; sends to a pump that has ended go there too.
- The audit table emptied by pruning: the writer then restarts from zeros. Prune anchors, live-chain verification, and archive ids and counts, which the row hash does not cover, have no claims.
- Archive containers (`build_archive`, `open_archive`), `base85_encode`, local envelopes (`datakey_seal` and its siblings), sign, HMAC and verify endpoints: they would add only easy members.
- Acl.UsesPerInterval: the check reads the server's clock and the record the database's; both are put on one timeline, on which a use is recorded no earlier than it was checked and before the next check. `Acl.RateCountIsCapped` takes the same.
- Acl.UsesAreCapped: states sequential runs; check and record are separate database calls, and what concurrent ones do between them is not modelled. Overflow of the 32-bit counters is not modelled either.
- RateLimiter.NetRateLimiter.Allow: tokens and times are exact reals; rounding of `f64` is left out.
- KeyWrap.RoundInfoDecodes: round numbers are unbounded; the 64-bit shift at or above round 2^63 is not modelled.
- Tokens.TokenLifetime: times for which `exp` plus leeway, `nbf`, or, when there is an `nbf`, the present time plus leeway leaves the signed 64-bit range are excluded; they overflow in the code.
- ManagedKeys.KeyStore.CreateKey: key ids are taken not to repeat, being 256-bit random draws; imports and access checks are left out.
- MasterDek.DataDir.Write: writes are whole and ordered; torn writes and a `secure_delete` that fails are not modelled.
- ClientKeys.RekeyingKeepsFile: file headers are taken to stay under 2^32 bytes, which their fixed-size fields and file name give.
- K-of-N approvals, read counters, file and secret retrieval, relay pairing, command-line tables, completion and certificate issuance.
