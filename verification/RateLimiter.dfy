// The per-client token bucket, with idle buckets swept out when the table grows large.
// Times are seconds and token counts are exact reals.
module RateLimiter {
  import opened Text

  datatype Bucket = Bucket(tokens: real, last: real)

  type Buckets = map<string, Bucket>

  // Burst size and sustained rate.
  datatype Config = Config(capacity: real, refill: real)

  const SWEEP_ABOVE := 8192
  const IDLE_SECS := 300.0

  predicate Enabled(c: Config) {
    c.capacity > 0.0 && c.refill > 0.0
  }

  function RMin(x: real, y: real): real {
    if x < y then x else y
  }

  // Never negative, even if the clock reading is older than the bucket's.
  function Elapsed(now: real, last: real): real {
    if now > last then now - last else 0.0
  }

  function Refilled(c: Config, b: Bucket, now: real): real {
    RMin(b.tokens + Elapsed(now, b.last) * c.refill, c.capacity)
  }

  function Take(c: Config, b: Bucket, now: real): (Bucket, bool) {
    var tokens := Refilled(c, b, now);
    if tokens >= 1.0 then (Bucket(tokens - 1.0, now), true) else (Bucket(tokens, now), false)
  }

  function Sweep(m: Buckets, now: real): Buckets {
    if |m| > SWEEP_ABOVE then map k | k in m && Elapsed(now, m[k].last) < IDLE_SECS :: m[k] else m
  }

  function BucketFor(c: Config, m: Buckets, key: string, now: real): Bucket {
    if key in m then m[key] else Bucket(c.capacity, now)
  }

  // One request, with or without sweeping.
  function Request(sweeping: bool, c: Config, m: Buckets, key: string, now: real): (Buckets, bool) {
    var m1 := if sweeping then Sweep(m, now) else m;
    var (b, allowed) := Take(c, BucketFor(c, m1, key, now), now);
    (m1[key := b], allowed)
  }

  class NetRateLimiter {
    const config: Config
    var buckets: Buckets

    constructor (capacity: real, refill: real)
      ensures config == Config(capacity, refill) && buckets == map[]
    {
      config, buckets := Config(capacity, refill), map[];
    }

    method Allow(key: string, now: real) returns (allowed: bool)
      modifies this`buckets
      ensures !Enabled(config) ==> allowed && buckets == old(buckets)
      ensures Enabled(config) ==> (buckets, allowed) == Request(true, config, old(buckets), key, now)
    {
      if !Enabled(config) {
        return true;
      }
      if |buckets| > SWEEP_ABOVE {
        buckets := map k | k in buckets && Elapsed(now, buckets[k].last) < IDLE_SECS :: buckets[k];
      }
      var b := if key in buckets then buckets[key] else Bucket(config.capacity, now);
      var tokens := RMin(b.tokens + Elapsed(now, b.last) * config.refill, config.capacity);
      if tokens >= 1.0 {
        buckets := buckets[key := Bucket(tokens - 1.0, now)];
        allowed := true;
      } else {
        buckets := buckets[key := Bucket(tokens, now)];
        allowed := false;
      }
    }
  }

  // ----- runs ------------------------------------------------------------------------

  datatype Call = Call(key: string, now: real)

  ghost predicate InTimeOrder(calls: seq<Call>) {
    forall i, j :: 0 <= i < j < |calls| ==> calls[i].now <= calls[j].now
  }

  function After(sweeping: bool, c: Config, calls: seq<Call>): Buckets {
    if calls == [] then map[]
    else
      var call := calls[|calls| - 1];
      Request(sweeping, c, After(sweeping, c, calls[..|calls| - 1]), call.key, call.now).0
  }

  // The answer to the last call.
  function Answer(sweeping: bool, c: Config, calls: seq<Call>): bool
    requires calls != []
  {
    var call := calls[|calls| - 1];
    Request(sweeping, c, After(sweeping, c, calls[..|calls| - 1]), call.key, call.now).1
  }

  // How many calls for `key` with a time in [from, upto] were allowed.
  function Allowed(sweeping: bool, c: Config, calls: seq<Call>, key: string, from: real, upto: real): nat {
    if calls == [] then 0
    else
      var call := calls[|calls| - 1];
      Allowed(sweeping, c, calls[..|calls| - 1], key, from, upto)
      + if call.key == key && from <= call.now <= upto && Answer(sweeping, c, calls) then 1 else 0
  }

  // ----- the bound, without sweeping -------------------------------------------------

  // What may have been spent between two times: the burst plus the refill.
  function Credit(c: Config, from: real, upto: real): real {
    c.capacity + c.refill * (upto - from)
  }

  lemma ProductNonNegative(x: real, y: real)
    requires x >= 0.0 && y >= 0.0
    ensures x * y >= 0.0
  {
  }

  lemma Distributes(r: real, x: real, y: real)
    ensures r * x + r * y == r * (x + y)
  {
  }

  lemma CreditGrows(c: Config, x: real, y: real, z: real)
    requires c.refill > 0.0 && x <= y <= z
    ensures Credit(c, x, y) + (z - y) * c.refill == Credit(c, x, z)
    ensures c.capacity <= Credit(c, x, y) <= Credit(c, x, z)
  {
    ProductNonNegative(c.refill, y - x);
    ProductNonNegative(c.refill, z - y);
    Distributes(c.refill, y - x, z - y);
    assert (y - x) + (z - y) == z - x;
  }

  lemma {:induction false} TokensInRange(sweeping: bool, c: Config, calls: seq<Call>, key: string)
    requires Enabled(c)
    requires key in After(sweeping, c, calls)
    ensures 0.0 <= After(sweeping, c, calls)[key].tokens <= c.capacity
    ensures exists i :: 0 <= i < |calls| && calls[i].now == After(sweeping, c, calls)[key].last
  {
    if calls != [] {
      var init, call := calls[..|calls| - 1], calls[|calls| - 1];
      var m := After(sweeping, c, init);
      if key in m {
        TokensInRange(sweeping, c, init, key);
        var i :| 0 <= i < |init| && init[i].now == m[key].last;
        assert calls[i].now == m[key].last;
      }
      if call.key == key {
        assert After(sweeping, c, calls)[key].last == calls[|calls| - 1].now;
        RefillNonNegative(c, BucketFor(c, m, key, call.now), call.now);
      }
    }
  }

  lemma RefillNonNegative(c: Config, b: Bucket, now: real)
    requires Enabled(c) && 0.0 <= b.tokens
    ensures 0.0 <= Refilled(c, b, now) <= c.capacity
  {
    assert Elapsed(now, b.last) * c.refill >= 0.0;
  }

  // Tokens left plus requests allowed since `from` never exceed the burst plus the refill.
  ghost predicate Paid(c: Config, calls: seq<Call>, key: string, from: real, upto: real) {
    var n := Allowed(false, c, calls, key, from, upto) as real;
    var m := After(false, c, calls);
    && n <= Credit(c, from, upto)
    && (key !in m || m[key].last < from ==> n == 0.0)
    && (key in m && from <= m[key].last <= upto ==> n + m[key].tokens <= Credit(c, from, m[key].last))
  }

  lemma RefillPays(c: Config, b: Bucket, from: real, now: real, n: real)
    requires Enabled(c) && 0.0 <= b.tokens && from <= now && b.last <= now
    requires if b.last < from then n == 0.0 else n + b.tokens <= Credit(c, from, b.last)
    ensures n + Refilled(c, b, now) <= Credit(c, from, now)
  {
    if b.last < from {
      CreditGrows(c, from, from, now);
    } else {
      CreditGrows(c, from, b.last, now);
      assert Elapsed(now, b.last) == now - b.last;
    }
  }

  lemma TakePays(c: Config, b: Bucket, from: real, now: real, upto: real, n: real)
    requires Enabled(c) && 0.0 <= b.tokens && from <= now <= upto && b.last <= now
    requires if b.last < from then n == 0.0 else n + b.tokens <= Credit(c, from, b.last)
    ensures var (b', allowed) := Take(c, b, now);
            var n' := if allowed then n + 1.0 else n;
            && n' + b'.tokens <= Credit(c, from, now)
            && n' <= Credit(c, from, upto)
  {
    RefillPays(c, b, from, now, n);
    RefillNonNegative(c, b, now);
    CreditGrows(c, from, now, upto);
    var (b', allowed) := Take(c, b, now);
    var n' := if allowed then n + 1.0 else n;
    assert n' + b'.tokens == n + Refilled(c, b, now);
  }

  lemma CallEffect(c: Config, init: seq<Call>, call: Call, from: real, upto: real)
    ensures var m := After(false, c, init);
            var (b', allowed) := Take(c, BucketFor(c, m, call.key, call.now), call.now);
            var n := Allowed(false, c, init, call.key, from, upto);
            && After(false, c, init + [call]) == m[call.key := b']
            && Allowed(false, c, init + [call], call.key, from, upto) == if allowed && from <= call.now <= upto then n + 1 else n
  {
    assert (init + [call])[..|init|] == init;
  }

  lemma CallPays(c: Config, init: seq<Call>, call: Call, from: real, upto: real)
    requires Enabled(c) && from <= upto && Paid(c, init, call.key, from, upto)
    requires forall i :: 0 <= i < |init| ==> init[i].now <= call.now
    ensures Paid(c, init + [call], call.key, from, upto)
  {
    var m := After(false, c, init);
    var b := BucketFor(c, m, call.key, call.now);
    if call.key in m {
      TokensInRange(false, c, init, call.key);
    }
    CallEffect(c, init, call, from, upto);
    if from <= call.now <= upto {
      CreditGrows(c, from, from, call.now);
      TakePays(c, b, from, call.now, upto, Allowed(false, c, init, call.key, from, upto) as real);
    }
  }

  lemma OtherCallPays(c: Config, init: seq<Call>, call: Call, key: string, from: real, upto: real)
    requires Enabled(c) && call.key != key && Paid(c, init, key, from, upto)
    ensures Paid(c, init + [call], key, from, upto)
  {
    assert (init + [call])[..|init|] == init;
  }

  lemma {:induction false} RunPays(c: Config, calls: seq<Call>, key: string, from: real, upto: real)
    requires Enabled(c) && from <= upto && InTimeOrder(calls)
    ensures Paid(c, calls, key, from, upto)
  {
    if calls == [] {
      CreditGrows(c, from, from, upto);
    } else {
      var init, call := calls[..|calls| - 1], calls[|calls| - 1];
      RunPays(c, init, key, from, upto);
      assert init + [call] == calls;
      if call.key == key {
        CallPays(c, init, call, from, upto);
      } else {
        OtherCallPays(c, init, call, key, from, upto);
      }
    }
  }

  // ----- what a client is allowed at least -------------------------------------------

  // Since some time, the tokens left and what was allowed make up the burst and the refill.
  ghost predicate Spent(c: Config, calls: seq<Call>, key: string, from: real) {
    var m := After(false, c, calls);
    && key in m && from <= m[key].last
    && m[key].tokens + Allowed(false, c, calls, key, from, m[key].last) as real >= Credit(c, from, m[key].last)
  }

  lemma RefillOrFull(c: Config, b: Bucket, t: real)
    requires Enabled(c) && b.last <= t
    ensures Refilled(c, b, t) == c.capacity || Refilled(c, b, t) == b.tokens + (t - b.last) * c.refill
  {
  }

  // Later calls of the client only add to what was allowed since.
  lemma {:induction false} AllowedGrows(c: Config, calls: seq<Call>, key: string, from: real, x: real, y: real)
    requires x <= y
    ensures Allowed(false, c, calls, key, from, x) <= Allowed(false, c, calls, key, from, y)
  {
    if calls != [] {
      AllowedGrows(c, calls[..|calls| - 1], key, from, x, y);
    }
  }

  function AtCall(c: Config, init: seq<Call>, call: Call): real {
    Refilled(c, BucketFor(c, After(false, c, init), call.key, call.now), call.now)
  }

  lemma StretchStarts(c: Config, init: seq<Call>, call: Call)
    requires Enabled(c) && AtCall(c, init, call) == c.capacity
    ensures Spent(c, init + [call], call.key, call.now)
  {
    CreditGrows(c, call.now, call.now, call.now);
    assert Credit(c, call.now, call.now) == c.capacity;
    SpentAfter(c, init, call, call.now, c.capacity);
  }

  lemma StretchGoesOn(c: Config, init: seq<Call>, call: Call, from: real)
    requires Enabled(c) && call.key in After(false, c, init) && Spent(c, init, call.key, from)
    requires After(false, c, init)[call.key].last <= call.now && AtCall(c, init, call) != c.capacity
    ensures Spent(c, init + [call], call.key, from)
  {
    assert AtCall(c, init, call) + Allowed(false, c, init, call.key, from, call.now) as real >= Credit(c, from, call.now) by {
      GoesOnByRefill(c, init, call, from, After(false, c, init)[call.key]);
    }
    SpentAfter(c, init, call, from, AtCall(c, init, call));
  }

  lemma GoesOnByRefill(c: Config, init: seq<Call>, call: Call, from: real, b: Bucket)
    requires Enabled(c) && from <= b.last <= call.now && Refilled(c, b, call.now) != c.capacity
    requires b.tokens + Allowed(false, c, init, call.key, from, b.last) as real >= Credit(c, from, b.last)
    ensures Refilled(c, b, call.now) + Allowed(false, c, init, call.key, from, call.now) as real >= Credit(c, from, call.now)
  {
    RefillIsCredit(c, b, from, call.now);
    AllowedGrows(c, init, call.key, from, b.last, call.now);
    SumsUp(b.tokens, Allowed(false, c, init, call.key, from, b.last), Allowed(false, c, init, call.key, from, call.now),
           Credit(c, from, b.last), Credit(c, from, call.now), Refilled(c, b, call.now));
  }

  lemma RefillIsCredit(c: Config, b: Bucket, from: real, t: real)
    requires Enabled(c) && from <= b.last <= t && Refilled(c, b, t) != c.capacity
    ensures Refilled(c, b, t) == b.tokens + (Credit(c, from, t) - Credit(c, from, b.last))
  {
    RefillOrFull(c, b, t);
    CreditGrows(c, from, b.last, t);
  }

  lemma SumsUp(tokens: real, n: nat, m: nat, before: real, after: real, refilled: real)
    requires tokens + n as real >= before && n <= m && refilled == tokens + (after - before)
    ensures refilled + m as real >= after
  {
  }

  // A call finds the bucket full, and a new stretch starts, or has refilled what it was short.
  lemma CallSpends(c: Config, init: seq<Call>, call: Call, from: real) returns (from': real)
    requires Enabled(c) && (call.key in After(false, c, init) ==>
                              Spent(c, init, call.key, from) && After(false, c, init)[call.key].last <= call.now)
    ensures Spent(c, init + [call], call.key, from')
  {
    if call.key !in After(false, c, init) {
      FullAtStart(c, After(false, c, init), call.key, call.now);
    }
    if AtCall(c, init, call) == c.capacity {
      from' := call.now;
      StretchStarts(c, init, call);
    } else {
      from' := from;
      StretchGoesOn(c, init, call, from);
    }
  }

  lemma FullAtStart(c: Config, m: Buckets, key: string, t: real)
    requires Enabled(c) && key !in m
    ensures Refilled(c, BucketFor(c, m, key, t), t) == c.capacity
  {
  }

  lemma SpentAfter(c: Config, init: seq<Call>, call: Call, from: real, refilled: real)
    requires Enabled(c) && from <= call.now
    requires refilled == Refilled(c, BucketFor(c, After(false, c, init), call.key, call.now), call.now)
    requires refilled + Allowed(false, c, init, call.key, from, call.now) as real >= Credit(c, from, call.now)
    ensures Spent(c, init + [call], call.key, from)
  {
    CallEffect(c, init, call, from, call.now);
  }

  lemma {:induction false} LastIsInOrder(c: Config, calls: seq<Call>, key: string, t: real)
    requires (forall i :: 0 <= i < |calls| ==> calls[i].now <= t) && key in After(false, c, calls)
    ensures After(false, c, calls)[key].last <= t
  {
    if calls != [] && calls[|calls| - 1].key != key {
      LastIsInOrder(c, calls[..|calls| - 1], key, t);
    }
  }

  lemma OthersSpendNothing(c: Config, init: seq<Call>, call: Call, key: string, from: real)
    requires call.key != key && Spent(c, init, key, from)
    ensures Spent(c, init + [call], key, from)
  {
    assert (init + [call])[..|init|] == init;
  }

  lemma {:induction false} RunSpends(c: Config, calls: seq<Call>, key: string) returns (from: real)
    requires Enabled(c) && InTimeOrder(calls) && key in After(false, c, calls)
    ensures Spent(c, calls, key, from)
  {
    var init, call := calls[..|calls| - 1], calls[|calls| - 1];
    assert init + [call] == calls;
    from := 0.0;
    if key in After(false, c, init) {
      from := RunSpends(c, init, key);
      LastIsInOrder(c, init, key, call.now);
    }
    if call.key == key {
      from := CallSpends(c, init, call, from);
    } else {
      OthersSpendNothing(c, init, call, key, from);
    }
  }

  // A client is refused only if over some stretch of time ending now it was allowed more than
  // its credit for that stretch less one request: nothing it accrued is lost.
  lemma RefusedHasSpent(c: Config, calls: seq<Call>) returns (from: real)
    requires Enabled(c) && InTimeOrder(calls) && calls != [] && !Answer(false, c, calls)
    ensures var call := calls[|calls| - 1];
            from <= call.now && Allowed(false, c, calls, call.key, from, call.now) as real > Credit(c, from, call.now) - 1.0
  {
    from := RunSpends(c, calls, calls[|calls| - 1].key);
  }

  // ----- sweeping changes no answer --------------------------------------------------

  // The configurations in which a bucket idle for long enough to be swept is full again anyway.
  predicate RefillsWhileIdle(c: Config) {
    IDLE_SECS * c.refill >= c.capacity
  }

  // It is exactly then that forgetting any idle bucket is the same as refilling it.
  lemma ForgettingIsRefilling(c: Config)
    requires Enabled(c)
    ensures (forall b: Bucket, now: real :: 0.0 <= b.tokens <= c.capacity && Elapsed(now, b.last) >= IDLE_SECS
                                            ==> Refilled(c, b, now) == c.capacity)
            <==> RefillsWhileIdle(c)
  {
    if RefillsWhileIdle(c) {
      forall b: Bucket, now: real | 0.0 <= b.tokens <= c.capacity && Elapsed(now, b.last) >= IDLE_SECS
        ensures Refilled(c, b, now) == c.capacity
      {
        IdleRefills(c, b, now);
      }
    } else {
      var b := Bucket(0.0, 0.0);
      assert Refilled(c, b, IDLE_SECS) == IDLE_SECS * c.refill;
    }
  }

  lemma IdleRefills(c: Config, b: Bucket, now: real)
    requires Enabled(c) && RefillsWhileIdle(c) && 0.0 <= b.tokens && Elapsed(now, b.last) >= IDLE_SECS
    ensures Refilled(c, b, now) == c.capacity
  {
    var extra := Elapsed(now, b.last) - IDLE_SECS;
    assert Elapsed(now, b.last) * c.refill == IDLE_SECS * c.refill + extra * c.refill;
    assert extra * c.refill >= 0.0;
  }

  // The swept table agrees with the full one, and what it has lost has been idle long enough.
  ghost predicate Agrees(m: Buckets, u: Buckets, now: real) {
    && (forall k :: k in m ==> k in u && m[k] == u[k])
    && (forall k :: k in u && k !in m ==> Elapsed(now, u[k].last) >= IDLE_SECS)
  }

  lemma LaterAgrees(m: Buckets, u: Buckets, earlier: real, now: real)
    requires Agrees(m, u, earlier) && earlier <= now
    ensures Agrees(m, u, now)
  {
  }

  lemma RequestAgrees(c: Config, m: Buckets, u: Buckets, key: string, now: real)
    requires Enabled(c) && RefillsWhileIdle(c) && Agrees(m, u, now)
    requires key in u ==> 0.0 <= u[key].tokens
    ensures var (m', swept) := Request(true, c, m, key, now);
            var (u', full) := Request(false, c, u, key, now);
            swept == full && Agrees(m', u', now)
  {
    var s := Sweep(m, now);
    assert Agrees(s, u, now);
    if key in u && key !in s {
      IdleRefills(c, u[key], now);
    }
    assert Refilled(c, BucketFor(c, s, key, now), now) == Refilled(c, BucketFor(c, u, key, now), now);
  }

  lemma {:induction false} SweptRunAgrees(c: Config, calls: seq<Call>, now: real)
    requires Enabled(c) && RefillsWhileIdle(c) && InTimeOrder(calls)
    requires calls != [] ==> calls[|calls| - 1].now <= now
    ensures Agrees(After(true, c, calls), After(false, c, calls), now)
    ensures calls != [] ==> Answer(true, c, calls) == Answer(false, c, calls)
  {
    if calls != [] {
      var init, call := calls[..|calls| - 1], calls[|calls| - 1];
      SweptRunAgrees(c, init, call.now);
      var m, u := After(true, c, init), After(false, c, init);
      if call.key in u {
        TokensInRange(false, c, init, call.key);
      }
      RequestAgrees(c, m, u, call.key, call.now);
      LaterAgrees(Request(true, c, m, call.key, call.now).0, Request(false, c, u, call.key, call.now).0, call.now, now);
    }
  }

  // With such a configuration the limiter answers every call as one that never forgets would.
  lemma SweepingIsInvisible(c: Config, calls: seq<Call>)
    requires Enabled(c) && RefillsWhileIdle(c) && InTimeOrder(calls) && calls != []
    ensures Answer(true, c, calls) == Answer(false, c, calls)
  {
    SweptRunAgrees(c, calls, calls[|calls| - 1].now);
  }

  lemma {:induction false} AllowedAlike(c: Config, calls: seq<Call>, key: string, from: real, upto: real)
    requires Enabled(c) && RefillsWhileIdle(c) && InTimeOrder(calls)
    ensures Allowed(true, c, calls, key, from, upto) == Allowed(false, c, calls, key, from, upto)
  {
    if calls != [] {
      AllowedAlike(c, calls[..|calls| - 1], key, from, upto);
      SweepingIsInvisible(c, calls);
    }
  }

  // So a client of the limiter as it is, in such a configuration, is refused only when it has
  // used its credit.
  lemma RefusedByTheLimiter(c: Config, calls: seq<Call>) returns (from: real)
    requires Enabled(c) && RefillsWhileIdle(c) && InTimeOrder(calls) && calls != [] && !Answer(true, c, calls)
    ensures var call := calls[|calls| - 1];
            from <= call.now && Allowed(true, c, calls, call.key, from, call.now) as real > Credit(c, from, call.now) - 1.0
  {
    SweepingIsInvisible(c, calls);
    from := RefusedHasSpent(c, calls);
    AllowedAlike(c, calls, calls[|calls| - 1].key, from, calls[|calls| - 1].now);
  }

  // ----- the bound, with sweeping ----------------------------------------------------

  ghost predicate Bounded(c: Config, calls: seq<Call>, key: string, from: real, upto: real) {
    Allowed(true, c, calls, key, from, upto) as real <= Credit(c, from, upto)
  }

  lemma BurstPlusRefillBound(c: Config, calls: seq<Call>, key: string, from: real, upto: real)
    requires Enabled(c) && RefillsWhileIdle(c) && InTimeOrder(calls) && from <= upto
    ensures Bounded(c, calls, key, from, upto)
  {
    AllowedAlike(c, calls, key, from, upto);
    RunPays(c, calls, key, from, upto);
  }

  // ----- a client that never gets a token --------------------------------------------

  // Below a capacity of one no request is ever allowed.
  lemma {:induction false} NothingIsAllowed(sweeping: bool, c: Config, calls: seq<Call>, key: string, from: real, upto: real)
    requires c.capacity < 1.0
    ensures Allowed(sweeping, c, calls, key, from, upto) == 0
    ensures calls != [] ==> !Answer(sweeping, c, calls)
  {
    if calls != [] {
      NothingIsAllowed(sweeping, c, calls[..|calls| - 1], key, from, upto);
    }
  }

  // ----- the bound holds for no other configuration ----------------------------------

  // `k` more calls, the i-th of them next(i).
  function Extended(prefix: seq<Call>, next: nat -> Call, k: nat): seq<Call> {
    if k == 0 then prefix else Extended(prefix, next, k - 1) + [next(k - 1)]
  }

  // Whatever one call after another keeps, all of them keep.
  lemma {:induction false} ExtendingKeeps(kept: (seq<Call>, nat) -> bool, prefix: seq<Call>, next: nat -> Call, k: nat)
    requires kept(prefix, 0)
    requires forall before, j: nat :: j < k && kept(before, j) ==> kept(before + [next(j)], j + 1)
    ensures kept(Extended(prefix, next, k), k)
  {
    if k > 0 {
      ExtendingKeeps(kept, prefix, next, k - 1);
    }
  }

  const CLIENT := "cn:a"

  // Always the one client.
  function Client(at: real): nat -> Call {
    (i: nat) => Call(CLIENT, at)
  }

  function Burst(prefix: seq<Call>, k: nat, at: real): seq<Call> {
    Extended(prefix, Client(at), k)
  }

  // A client that has used its whole tokens, `n` of them, gets one more after waiting `d`.
  predicate Waits(c: Config, n: nat, d: real) {
    1 <= n && n as real <= c.capacity < (n + 1) as real && d > 0.0 && d * c.refill == (n + 1) as real - c.capacity
  }

  lemma WaitFor(c: Config) returns (n: nat, d: real)
    requires Enabled(c) && c.capacity >= 1.0
    ensures Waits(c, n, d)
  {
    n := c.capacity.Floor;
    var gap := (n + 1) as real - c.capacity;
    QuotientTimes(gap, c.refill);
    d := gap / c.refill;
  }

  lemma QuotientTimes(x: real, y: real)
    requires x > 0.0 && y > 0.0
    ensures x / y > 0.0 && (x / y) * y == x
  {
  }

  // `n` calls at once and, as soon as there is a token, one more: the bucket is then empty.
  function Drain(prefix: seq<Call>, n: nat, at: real, d: real): seq<Call> {
    Burst(prefix, n, at) + [Call(CLIENT, at + d)]
  }

  // Clients are told apart by the common names of their certificates.
  function Name(i: nat): string {
    "cn:" + Decimal(i)
  }

  lemma NamesDiffer(i: nat, j: nat)
    requires Name(i) == Name(j)
    ensures i == j
  {
    assert Name(i)[3..] == Decimal(i) && Name(j)[3..] == Decimal(j);
    DecimalValue(i);
    DecimalValue(j);
  }

  lemma NameIsAnother(i: nat)
    ensures Name(i) != CLIENT
  {
    assert Name(i)[3] == Decimal(i)[0] && IsDigit(Decimal(i)[0]);
  }

  // Another client each time.
  function Others(at: real): nat -> Call {
    (i: nat) => Call(Name(i), at)
  }

  function Crowd(prefix: seq<Call>, k: nat, at: real): seq<Call> {
    Extended(prefix, Others(at), k)
  }

  ghost predicate OrderedUpto(calls: seq<Call>, t: real) {
    InTimeOrder(calls) && forall i :: 0 <= i < |calls| ==> calls[i].now <= t
  }

  lemma Appended(c: Config, init: seq<Call>, call: Call, from: real, upto: real)
    ensures var calls := init + [call];
            var (m, allowed) := Request(true, c, After(true, c, init), call.key, call.now);
            && After(true, c, calls) == m
            && Allowed(true, c, calls, CLIENT, from, upto)
               == Allowed(true, c, init, CLIENT, from, upto) + if call.key == CLIENT && from <= call.now <= upto && allowed then 1 else 0
  {
    assert (init + [call])[..|init|] == init;
  }

  // The bucket that `k` calls at once leave, if there were tokens for them all.
  function Left(c: Config, k: nat, at: real): Bucket {
    Bucket(c.capacity - k as real, at)
  }

  lemma FirstOfBurst(c: Config, m: Buckets, at: real)
    requires Enabled(c) && c.capacity >= 1.0 && Sweep(m, at) == map[]
    ensures Request(true, c, m, CLIENT, at) == (map[CLIENT := Left(c, 1, at)], true)
  {
    assert Refilled(c, Bucket(c.capacity, at), at) == c.capacity;
    assert Take(c, BucketFor(c, map[], CLIENT, at), at) == (Left(c, 1, at), true);
    assert (map[])[CLIENT := Left(c, 1, at)] == map[CLIENT := Left(c, 1, at)];
  }

  lemma NextOfBurst(c: Config, j: nat, at: real)
    requires Enabled(c) && (j + 1) as real <= c.capacity
    ensures Request(true, c, map[CLIENT := Left(c, j, at)], CLIENT, at) == (map[CLIENT := Left(c, j + 1, at)], true)
  {
    var m := map[CLIENT := Left(c, j, at)];
    assert |m| == 1 && Sweep(m, at) == m;
    assert Refilled(c, m[CLIENT], at) == c.capacity - j as real;
    assert Take(c, m[CLIENT], at) == (Left(c, j + 1, at), true);
    assert m[CLIENT := Left(c, j + 1, at)] == map[CLIENT := Left(c, j + 1, at)];
  }

  lemma {:induction false} ExtendingIsOrdered(prefix: seq<Call>, next: nat -> Call, k: nat, at: real)
    requires OrderedUpto(prefix, at) && forall i: nat :: next(i).now == at
    ensures OrderedUpto(Extended(prefix, next, k), at)
  {
    if k > 0 {
      ExtendingIsOrdered(prefix, next, k - 1, at);
    }
  }

  predicate BurstAllowed(c: Config, prefix: seq<Call>, calls: seq<Call>, k: nat, at: real, upto: real) {
    && Allowed(true, c, calls, CLIENT, 0.0, upto) == Allowed(true, c, prefix, CLIENT, 0.0, upto) + k
    && if k == 0 then Sweep(After(true, c, calls), at) == map[] else After(true, c, calls) == map[CLIENT := Left(c, k, at)]
  }

  lemma BurstStep(c: Config, prefix: seq<Call>, before: seq<Call>, k: nat, at: real, upto: real)
    requires Enabled(c) && (k + 1) as real <= c.capacity && 0.0 <= at <= upto
    requires BurstAllowed(c, prefix, before, k, at, upto)
    ensures BurstAllowed(c, prefix, before + [Call(CLIENT, at)], k + 1, at, upto)
  {
    Appended(c, before, Call(CLIENT, at), 0.0, upto);
    if k == 0 {
      FirstOfBurst(c, After(true, c, before), at);
    } else {
      NextOfBurst(c, k, at);
    }
  }

  lemma BurstIsAllowed(c: Config, prefix: seq<Call>, k: nat, at: real, upto: real)
    requires Enabled(c) && k as real <= c.capacity && 0.0 <= at <= upto
    requires BurstAllowed(c, prefix, prefix, 0, at, upto)
    ensures BurstAllowed(c, prefix, Burst(prefix, k, at), k, at, upto)
  {
    var kept := (calls: seq<Call>, j: nat) => BurstAllowed(c, prefix, calls, j, at, upto);
    forall before, j: nat | j < k && kept(before, j)
      ensures kept(before + [Client(at)(j)], j + 1)
    {
      BurstStep(c, prefix, before, j, at, upto);
    }
    ExtendingKeeps(kept, prefix, Client(at), k);
  }

  lemma WaitRefillsOne(c: Config, n: nat, d: real, at: real)
    requires Enabled(c) && Waits(c, n, d)
    ensures Request(true, c, map[CLIENT := Left(c, n, at)], CLIENT, at + d) == (map[CLIENT := Bucket(0.0, at + d)], true)
  {
    var m := map[CLIENT := Left(c, n, at)];
    assert |m| == 1 && Sweep(m, at + d) == m;
    assert Elapsed(at + d, at) == d && Elapsed(at + d, at) * c.refill == d * c.refill;
    assert Refilled(c, m[CLIENT], at + d) == 1.0;
    assert Take(c, m[CLIENT], at + d) == (Bucket(0.0, at + d), true);
    assert m[CLIENT := Bucket(0.0, at + d)] == map[CLIENT := Bucket(0.0, at + d)];
  }

  lemma DrainIsAllowed(c: Config, prefix: seq<Call>, n: nat, at: real, d: real, upto: real)
    requires Enabled(c) && Waits(c, n, d) && 0.0 <= at && at + d <= upto
    requires Sweep(After(true, c, prefix), at) == map[]
    ensures Allowed(true, c, Drain(prefix, n, at, d), CLIENT, 0.0, upto) == Allowed(true, c, prefix, CLIENT, 0.0, upto) + n + 1
    ensures After(true, c, Drain(prefix, n, at, d)) == map[CLIENT := Bucket(0.0, at + d)]
  {
    WaitRefillsOne(c, n, d, at);
    BurstIsAllowed(c, prefix, n, at, upto);
    Appended(c, Burst(prefix, n, at), Call(CLIENT, at + d), 0.0, upto);
  }

  lemma DrainIsOrdered(prefix: seq<Call>, n: nat, at: real, d: real)
    requires d > 0.0 && OrderedUpto(prefix, at)
    ensures OrderedUpto(Drain(prefix, n, at, d), at + d)
  {
    ExtendingIsOrdered(prefix, Client(at), n, at);
  }

  // The client's and the first `k` others' buckets, all of one time.
  predicate TableOfSize(m: Buckets, k: nat, at: real) {
    |m| == k + 1 && forall key :: key in m ==> m[key].last == at && (key == CLIENT || exists j: nat :: j < k && key == Name(j))
  }

  lemma NewcomerIsNew(m: Buckets, k: nat, at: real)
    requires TableOfSize(m, k, at)
    ensures Name(k) !in m
  {
    NameIsAnother(k);
    if Name(k) in m {
      var j: nat :| j < k && Name(k) == Name(j);
      NamesDiffer(k, j);
    }
  }

  lemma NewcomerEntersTable(c: Config, m: Buckets, k: nat, at: real)
    requires k < SWEEP_ABOVE && TableOfSize(m, k, at)
    ensures TableOfSize(Request(true, c, m, Name(k), at).0, k + 1, at)
  {
    NewcomerIsNew(m, k, at);
    var m' := Request(true, c, m, Name(k), at).0;
    assert m'.Keys == m.Keys + {Name(k)};
    assert |m'| == |m'.Keys| == |m.Keys| + 1;
  }

  predicate CrowdEntered(c: Config, prefix: seq<Call>, calls: seq<Call>, k: nat, at: real, upto: real) {
    && Allowed(true, c, calls, CLIENT, 0.0, upto) == Allowed(true, c, prefix, CLIENT, 0.0, upto)
    && TableOfSize(After(true, c, calls), k, at)
  }

  lemma NewcomerEnters(c: Config, prefix: seq<Call>, before: seq<Call>, k: nat, at: real, upto: real)
    requires k < SWEEP_ABOVE && CrowdEntered(c, prefix, before, k, at, upto)
    ensures CrowdEntered(c, prefix, before + [Call(Name(k), at)], k + 1, at, upto)
  {
    Appended(c, before, Call(Name(k), at), 0.0, upto);
    NewcomerEntersTable(c, After(true, c, before), k, at);
    NameIsAnother(k);
  }

  lemma CrowdFillsTable(c: Config, prefix: seq<Call>, k: nat, at: real, upto: real)
    requires k <= SWEEP_ABOVE && CrowdEntered(c, prefix, prefix, 0, at, upto)
    ensures CrowdEntered(c, prefix, Crowd(prefix, k, at), k, at, upto)
  {
    var kept := (calls: seq<Call>, j: nat) => CrowdEntered(c, prefix, calls, j, at, upto);
    forall before, j: nat | j < k && kept(before, j)
      ensures kept(before + [Others(at)(j)], j + 1)
    {
      NewcomerEnters(c, prefix, before, j, at, upto);
    }
    ExtendingKeeps(kept, prefix, Others(at), k);
  }

  // One client empties its bucket, `k` others come in, and it does so again.
  function Flood(n: nat, d: real, k: nat, again: real): seq<Call> {
    Drain(Crowd(Drain([], n, 0.0, d), k, d), n, again, d)
  }

  lemma FloodIsOrdered(n: nat, d: real, k: nat, again: real)
    requires 0.0 < d <= again
    ensures InTimeOrder(Flood(n, d, k, again))
  {
    DrainIsOrdered([], n, 0.0, d);
    ExtendingIsOrdered(Drain([], n, 0.0, d), Others(d), k, d);
    DrainIsOrdered(Crowd(Drain([], n, 0.0, d), k, d), n, again, d);
  }

  // Enough other clients, and the whole table is swept five minutes later.
  lemma CrowdIsSwept(c: Config, prefix: seq<Call>, k: nat, at: real, upto: real)
    requires k == SWEEP_ABOVE && After(true, c, prefix) == map[CLIENT := Bucket(0.0, at)]
    ensures Sweep(After(true, c, Crowd(prefix, k, at)), at + IDLE_SECS) == map[]
    ensures Allowed(true, c, Crowd(prefix, k, at), CLIENT, 0.0, upto) == Allowed(true, c, prefix, CLIENT, 0.0, upto)
  {
    CrowdFillsTable(c, prefix, k, at, upto);
    IdleTableIsSwept(After(true, c, Crowd(prefix, k, at)), k, at);
  }

  lemma IdleTableIsSwept(m: Buckets, k: nat, at: real)
    requires TableOfSize(m, k, at) && k == SWEEP_ABOVE
    ensures Sweep(m, at + IDLE_SECS) == map[]
  {
  }

  lemma FirstDrainIsAllowed(c: Config, n: nat, d: real, upto: real)
    requires Enabled(c) && Waits(c, n, d) && d <= upto
    ensures Allowed(true, c, Drain([], n, 0.0, d), CLIENT, 0.0, upto) == n + 1
    ensures After(true, c, Drain([], n, 0.0, d)) == map[CLIENT := Bucket(0.0, d)]
  {
    assert Sweep(After(true, c, []), 0.0) == map[];
    DrainIsAllowed(c, [], n, 0.0, d, upto);
  }

  lemma CrowdAfterDrain(c: Config, n: nat, d: real, k: nat, upto: real)
    requires Enabled(c) && Waits(c, n, d) && k == SWEEP_ABOVE && d <= upto
    ensures Allowed(true, c, Crowd(Drain([], n, 0.0, d), k, d), CLIENT, 0.0, upto) == n + 1
    ensures Sweep(After(true, c, Crowd(Drain([], n, 0.0, d), k, d)), d + IDLE_SECS) == map[]
  {
    FirstDrainIsAllowed(c, n, d, upto);
    CrowdIsSwept(c, Drain([], n, 0.0, d), k, d, upto);
  }

  // So all of the client's calls are allowed.
  lemma FloodIsAllowed(c: Config, n: nat, d: real, k: nat, again: real, upto: real)
    requires Enabled(c) && Waits(c, n, d) && k == SWEEP_ABOVE && again == d + IDLE_SECS && upto == again + d
    ensures Allowed(true, c, Flood(n, d, k, again), CLIENT, 0.0, upto) == 2 * (n + 1)
  {
    CrowdAfterDrain(c, n, d, k, upto);
    DrainIsAllowed(c, Crowd(Drain([], n, 0.0, d), k, d), n, again, d, upto);
  }

  lemma CreditFallsShort(c: Config, n: nat, d: real, allowed: nat)
    requires Waits(c, n, d) && allowed == 2 * (n + 1) && !RefillsWhileIdle(c)
    ensures Credit(c, 0.0, d + IDLE_SECS + d) < allowed as real
  {
    assert c.refill * (d + IDLE_SECS + d - 0.0) == c.refill * d + c.refill * IDLE_SECS + c.refill * d;
  }

  // What the flood is allowed exceeds the credit by what does not refill in five minutes.
  lemma FloodExceeds(c: Config, n: nat, d: real, k: nat, again: real, upto: real)
    requires Enabled(c) && Waits(c, n, d) && k == SWEEP_ABOVE && again == d + IDLE_SECS && upto == again + d
    requires !RefillsWhileIdle(c)
    ensures InTimeOrder(Flood(n, d, k, again))
    ensures !Bounded(c, Flood(n, d, k, again), CLIENT, 0.0, upto)
  {
    FloodIsOrdered(n, d, k, again);
    FloodIsAllowed(c, n, d, k, again, upto);
    CreditFallsShort(c, n, d, Allowed(true, c, Flood(n, d, k, again), CLIENT, 0.0, upto));
  }

  // Either no request is ever allowed, or an idle bucket refills before it can be swept.
  predicate SweepsSafely(c: Config) {
    c.capacity < 1.0 || RefillsWhileIdle(c)
  }

  // The bound of burst plus refill holds over every run, client and interval exactly then.
  lemma BoundedExactlyWhenSafe(c: Config)
    requires Enabled(c)
    ensures (forall calls: seq<Call>, key: string, from: real, upto: real ::
               InTimeOrder(calls) && from <= upto ==> Bounded(c, calls, key, from, upto))
            <==> SweepsSafely(c)
  {
    if SweepsSafely(c) {
      forall calls: seq<Call>, key: string, from: real, upto: real | InTimeOrder(calls) && from <= upto
        ensures Bounded(c, calls, key, from, upto)
      {
        SafelyBounded(c, calls, key, from, upto);
      }
    } else {
      var n, d := WaitFor(c);
      var k, again, upto := SWEEP_ABOVE, d + IDLE_SECS, d + IDLE_SECS + d;
      FloodExceeds(c, n, d, k, again, upto);
    }
  }

  lemma SafelyBounded(c: Config, calls: seq<Call>, key: string, from: real, upto: real)
    requires Enabled(c) && SweepsSafely(c) && InTimeOrder(calls) && from <= upto
    ensures Bounded(c, calls, key, from, upto)
  {
    if RefillsWhileIdle(c) {
      BurstPlusRefillBound(c, calls, key, from, upto);
    } else {
      NothingIsAllowed(true, c, calls, key, from, upto);
      CreditGrows(c, from, from, upto);
    }
  }

  ghost predicate SameAnswers(c: Config) {
    forall calls: seq<Call> :: calls != [] && InTimeOrder(calls) ==> Answer(true, c, calls) == Answer(false, c, calls)
  }

  lemma {:induction false} SameAnswersCountAlike(c: Config, calls: seq<Call>, key: string, from: real, upto: real)
    requires SameAnswers(c) && InTimeOrder(calls)
    ensures Allowed(true, c, calls, key, from, upto) == Allowed(false, c, calls, key, from, upto)
  {
    if calls != [] {
      SameAnswersCountAlike(c, calls[..|calls| - 1], key, from, upto);
      assert Answer(true, c, calls) == Answer(false, c, calls);
    }
  }

  // And exactly then sweeping changes no answer of any run.
  lemma SweepingIsInvisibleExactly(c: Config)
    requires Enabled(c)
    ensures SameAnswers(c) <==> SweepsSafely(c)
  {
    if SweepsSafely(c) {
      forall calls: seq<Call> | calls != [] && InTimeOrder(calls)
        ensures Answer(true, c, calls) == Answer(false, c, calls)
      {
        if RefillsWhileIdle(c) {
          SweepingIsInvisible(c, calls);
        } else {
          NothingIsAllowed(true, c, calls, CLIENT, 0.0, 0.0);
          NothingIsAllowed(false, c, calls, CLIENT, 0.0, 0.0);
        }
      }
    } else if SameAnswers(c) {
      var n, d := WaitFor(c);
      var k, again, upto := SWEEP_ABOVE, d + IDLE_SECS, d + IDLE_SECS + d;
      FloodExceeds(c, n, d, k, again, upto);
      SameAnswersCountAlike(c, Flood(n, d, k, again), CLIENT, 0.0, upto);
      RunPays(c, Flood(n, d, k, again), CLIENT, 0.0, upto);
    }
  }
}
