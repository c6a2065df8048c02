// The token bucket when calls take its lock in another order than they read the clock in.
module LockOrder {
  import opened Text
  import opened RateLimiter

  // ----- what time gained, over any order of readings --------------------------------

  // The sum of the upward steps.
  function Rise(ts: seq<real>): (r: real)
    ensures r >= 0.0
  {
    if |ts| <= 1 then 0.0 else Rise(ts[..|ts| - 1]) + Elapsed(ts[|ts| - 1], ts[|ts| - 2])
  }

  function Times(calls: seq<Call>): (ts: seq<real>)
    ensures |ts| == |calls|
  {
    seq(|calls|, i requires 0 <= i < |calls| => calls[i].now)
  }

  // The times of one client's calls.
  function TimesOf(calls: seq<Call>, key: string): seq<real> {
    if calls == [] then []
    else
      var last := calls[|calls| - 1];
      TimesOf(calls[..|calls| - 1], key) + if last.key == key then [last.now] else []
  }

  lemma RiseSnoc(ts: seq<real>, t: real)
    ensures Rise(ts + [t]) == if ts == [] then 0.0 else Rise(ts) + Elapsed(t, ts[|ts| - 1])
  {
    assert (ts + [t])[..|ts|] == ts;
  }

  // Readings in order gain what lies between the first and the last.
  lemma {:induction false} RiseInOrder(ts: seq<real>)
    requires ts != [] && forall i, j :: 0 <= i < j < |ts| ==> ts[i] <= ts[j]
    ensures Rise(ts) == ts[|ts| - 1] - ts[0]
  {
    if |ts| > 1 {
      RiseInOrder(ts[..|ts| - 1]);
    }
  }

  // How many calls of `segment`, made after `before`, were allowed for one client.
  function AllowedAfter(sweeping: bool, c: Config, before: seq<Call>, segment: seq<Call>, key: string): nat {
    if segment == [] then 0
    else
      AllowedAfter(sweeping, c, before, segment[..|segment| - 1], key)
      + if segment[|segment| - 1].key == key && Answer(sweeping, c, before + segment) then 1 else 0
  }

  lemma SegmentSnoc(sweeping: bool, c: Config, before: seq<Call>, init: seq<Call>, call: Call, key: string)
    ensures var (m, allowed) := Request(sweeping, c, After(sweeping, c, before + init), call.key, call.now);
            && After(sweeping, c, before + (init + [call])) == m
            && AllowedAfter(sweeping, c, before, init + [call], key)
               == AllowedAfter(sweeping, c, before, init, key) + (if call.key == key && allowed then 1 else 0)
            && TimesOf(init + [call], key) == TimesOf(init, key) + (if call.key == key then [call.now] else [])
            && Times(init + [call]) == Times(init) + [call.now]
  {
    var calls := before + (init + [call]);
    assert (init + [call])[..|init|] == init && calls[..|calls| - 1] == before + init && calls[|calls| - 1] == call;
    assert Times(init + [call]) == Times(init) + [call.now];
  }

  // ----- the bound in any order ------------------------------------------------------

  // The burst and what is refilled in this time.
  function Cover(c: Config, gained: real): real {
    Credit(c, 0.0, gained)
  }

  lemma CoverGrows(c: Config, gained: real, more: real)
    requires c.refill > 0.0 && more >= 0.0
    ensures Cover(c, gained + more) == Cover(c, gained) + more * c.refill
    ensures Cover(c, gained + more) >= Cover(c, gained)
  {
    Distributes(c.refill, gained, more);
    ProductNonNegative(more, c.refill);
    assert Cover(c, gained + more) == c.capacity + c.refill * (gained + more - 0.0);
    assert Cover(c, gained) == c.capacity + c.refill * (gained - 0.0);
  }

  // ----- without sweeping: the client's own times ------------------------------------

  ghost predicate OwnPaid(c: Config, m: Buckets, key: string, ts: seq<real>, n: nat) {
    if ts == [] then n == 0
    else key in m && m[key].last == ts[|ts| - 1] && n as real + m[key].tokens <= Cover(c, Rise(ts))
  }

  lemma OwnCallPays(c: Config, m: Buckets, key: string, ts: seq<real>, n: nat, t: real)
    requires Enabled(c) && OwnPaid(c, m, key, ts, n)
    ensures var (m', allowed) := Request(false, c, m, key, t);
            OwnPaid(c, m', key, ts + [t], if allowed then n + 1 else n)
  {
    RiseSnoc(ts, t);
    var b := BucketFor(c, m, key, t);
    if ts != [] {
      CoverGrows(c, Rise(ts), Elapsed(t, ts[|ts| - 1]));
    }
    var refilled := Refilled(c, b, t);
    assert Cover(c, 0.0) == c.capacity;
    assert n as real + refilled <= Cover(c, Rise(ts + [t]));
  }

  lemma {:induction false} OwnRunPays(c: Config, before: seq<Call>, segment: seq<Call>, key: string)
    requires Enabled(c)
    ensures OwnPaid(c, After(false, c, before + segment), key, TimesOf(segment, key), AllowedAfter(false, c, before, segment, key))
  {
    if segment != [] {
      var init, call := segment[..|segment| - 1], segment[|segment| - 1];
      assert segment == init + [call];
      OwnRunPays(c, before, init, key);
      SegmentSnoc(false, c, before, init, call, key);
      if call.key == key {
        OwnCallPays(c, After(false, c, before + init), key, TimesOf(init, key), AllowedAfter(false, c, before, init, key), call.now);
      } else {
        assert TimesOf(segment, key) == TimesOf(init, key);
      }
    }
  }

  // Of a limiter that never forgets, any stretch of any run allows a client at most the burst and
  // the refill over the upward steps of its own times.
  lemma OwnStepsBound(c: Config, before: seq<Call>, segment: seq<Call>, key: string)
    requires Enabled(c)
    ensures AllowedAfter(false, c, before, segment, key) as real <= Cover(c, Rise(TimesOf(segment, key)))
  {
    OwnRunPays(c, before, segment, key);
    var ts := TimesOf(segment, key);
    if ts == [] {
      CoverGrows(c, 0.0, 0.0);
    } else {
      TokensInRange(false, c, before + segment, key);
    }
  }

  // ----- with sweeping: everyone's times ---------------------------------------------

  ghost predicate PaidFor(c: Config, n: nat, rest: real, gained: real) {
    n as real + rest <= Cover(c, gained)
  }

  lemma PaidGrows(c: Config, n: nat, rest: real, rest': real, gained: real, more: real)
    requires c.refill > 0.0 && more >= 0.0 && PaidFor(c, n, rest, gained) && rest' <= rest + more * c.refill
    ensures PaidFor(c, n, rest', gained + more)
  {
    CoverGrows(c, gained, more);
  }

  // What a client could still spend now: its tokens and what they have gained since its last
  // call, or a full bucket.
  function Spendable(c: Config, m: Buckets, key: string, t: real): real {
    if key in m then m[key].tokens + Elapsed(t, m[key].last) * c.refill else c.capacity
  }

  // `n` calls allowed so far; `gained` what all times have gained, the last of them `t`.
  ghost predicate AllPaid(c: Config, m: Buckets, key: string, n: nat, gained: real, t: real) {
    n == 0 || PaidFor(c, n, Spendable(c, m, key, t), gained)
  }

  lemma ElapsedAdds(c: Config, last: real, t: real, t': real)
    requires c.refill > 0.0
    ensures Elapsed(t', last) * c.refill <= Elapsed(t, last) * c.refill + Elapsed(t', t) * c.refill
  {
    var x, y, z := Elapsed(t', last), Elapsed(t, last), Elapsed(t', t);
    ProductNonNegative(y + z - x, c.refill);
    Distributes(c.refill, y, z);
    Distributes(c.refill, x, y + z - x);
  }

  lemma IdleCovers(c: Config, idle: real)
    requires c.refill > 0.0 && RefillsWhileIdle(c) && idle >= IDLE_SECS
    ensures c.capacity <= idle * c.refill
  {
    ProductNonNegative(idle - IDLE_SECS, c.refill);
    Distributes(c.refill, IDLE_SECS, idle - IDLE_SECS);
  }

  // As time goes on a client can spend at most what time gained more, forgotten or not.
  lemma SpendableGrows(c: Config, m: Buckets, key: string, t: real, t': real)
    requires c.refill > 0.0 && RefillsWhileIdle(c) && (key in m ==> 0.0 <= m[key].tokens)
    ensures Spendable(c, Sweep(m, t'), key, t') <= Spendable(c, m, key, t) + Elapsed(t', t) * c.refill
  {
    if key in m {
      ElapsedAdds(c, m[key].last, t, t');
      if key !in Sweep(m, t') {
        IdleCovers(c, Elapsed(t', m[key].last));
      }
    } else {
      ProductNonNegative(Elapsed(t', t), c.refill);
    }
  }

  lemma SweepKeepsPaid(c: Config, m: Buckets, key: string, n: nat, gained: real, t: real, t': real)
    requires Enabled(c) && RefillsWhileIdle(c) && AllPaid(c, m, key, n, gained, t)
    requires key in m ==> 0.0 <= m[key].tokens
    ensures AllPaid(c, Sweep(m, t'), key, n, gained + Elapsed(t', t), t')
  {
    SpendableGrows(c, m, key, t, t');
    if n > 0 {
      PaidGrows(c, n, Spendable(c, m, key, t), Spendable(c, Sweep(m, t'), key, t'), gained, Elapsed(t', t));
    }
  }

  // A request spends from that, and from no more than a full bucket.
  lemma RefilledIsSpendable(c: Config, m: Buckets, key: string, t: real)
    ensures Refilled(c, BucketFor(c, m, key, t), t) <= Spendable(c, m, key, t)
    ensures Refilled(c, BucketFor(c, m, key, t), t) <= c.capacity
  {
  }

  lemma TakeKeepsPaid(c: Config, m: Buckets, key: string, n: nat, gained: real, t: real)
    requires Enabled(c) && AllPaid(c, m, key, n, gained, t) && gained >= 0.0
    ensures var (b, allowed) := Take(c, BucketFor(c, m, key, t), t);
            AllPaid(c, m[key := b], key, if allowed then n + 1 else n, gained, t)
  {
    CoverGrows(c, 0.0, gained);
    RefilledIsSpendable(c, m, key, t);
    assert Cover(c, 0.0) == c.capacity;
    var (b, allowed) := Take(c, BucketFor(c, m, key, t), t);
    assert Spendable(c, m[key := b], key, t) == b.tokens;
    assert n as real + Refilled(c, BucketFor(c, m, key, t), t) <= Cover(c, gained);
  }

  lemma AnyCallPays(c: Config, m: Buckets, key: string, n: nat, gained: real, t: real, call: Call)
    requires Enabled(c) && RefillsWhileIdle(c) && AllPaid(c, m, key, n, gained, t) && gained >= 0.0
    requires key in m ==> 0.0 <= m[key].tokens
    ensures var (m', allowed) := Request(true, c, m, call.key, call.now);
            AllPaid(c, m', key, if call.key == key && allowed then n + 1 else n, gained + Elapsed(call.now, t), call.now)
  {
    SweepKeepsPaid(c, m, key, n, gained, t, call.now);
    SweptCallPays(c, Sweep(m, call.now), key, n, gained + Elapsed(call.now, t), call);
  }

  lemma SweptCallPays(c: Config, m: Buckets, key: string, n: nat, gained: real, call: Call)
    requires Enabled(c) && AllPaid(c, m, key, n, gained, call.now) && gained >= 0.0
    ensures var (b, allowed) := Take(c, BucketFor(c, m, call.key, call.now), call.now);
            AllPaid(c, m[call.key := b], key, if call.key == key && allowed then n + 1 else n, gained, call.now)
  {
    if call.key == key {
      TakeKeepsPaid(c, m, key, n, gained, call.now);
    } else {
      OtherKeepsPaid(c, m, key, n, gained, call.now, call.key, Take(c, BucketFor(c, m, call.key, call.now), call.now).0);
    }
  }

  lemma OtherKeepsPaid(c: Config, m: Buckets, key: string, n: nat, gained: real, t: real, other: string, b: Bucket)
    requires AllPaid(c, m, key, n, gained, t) && other != key
    ensures AllPaid(c, m[other := b], key, n, gained, t)
  {
  }

  lemma {:induction false} AnyRunPays(c: Config, before: seq<Call>, segment: seq<Call>, key: string)
    requires Enabled(c) && RefillsWhileIdle(c) && segment != []
    ensures AllPaid(c, After(true, c, before + segment), key, AllowedAfter(true, c, before, segment, key),
                    Rise(Times(segment)), segment[|segment| - 1].now)
  {
    var init, call := segment[..|segment| - 1], segment[|segment| - 1];
    var m, n := After(true, c, before + init), AllowedAfter(true, c, before, init, key);
    assert segment == init + [call];
    SegmentSnoc(true, c, before, init, call, key);
    RiseSnoc(Times(init), call.now);
    if key in m {
      TokensInRange(true, c, before + init, key);
    }
    if init == [] {
      AnyCallPays(c, m, key, n, 0.0, call.now, call);
    } else {
      AnyRunPays(c, before, init, key);
      AnyCallPays(c, m, key, n, Rise(Times(init)), init[|init| - 1].now, call);
    }
  }

  ghost predicate StepBounded(c: Config, before: seq<Call>, segment: seq<Call>, key: string) {
    AllowedAfter(true, c, before, segment, key) as real <= Cover(c, Rise(Times(segment)))
  }

  lemma AllStepsBound(c: Config, before: seq<Call>, segment: seq<Call>, key: string)
    requires Enabled(c) && RefillsWhileIdle(c)
    ensures StepBounded(c, before, segment, key)
  {
    if segment == [] {
      CoverGrows(c, 0.0, 0.0);
      assert Cover(c, 0.0) == c.capacity;
    } else {
      AnyRunPays(c, before, segment, key);
      if key in After(true, c, before + segment) {
        TokensInRange(true, c, before + segment, key);
      }
      PaidIsCovered(c, After(true, c, before + segment), key, AllowedAfter(true, c, before, segment, key),
                    Rise(Times(segment)), segment[|segment| - 1].now);
    }
  }

  lemma PaidIsCovered(c: Config, m: Buckets, key: string, n: nat, gained: real, t: real)
    requires Enabled(c) && AllPaid(c, m, key, n, gained, t) && gained >= 0.0
    requires key in m ==> 0.0 <= m[key].tokens
    ensures n as real <= Cover(c, gained)
  {
    CoverGrows(c, 0.0, gained);
    assert Cover(c, 0.0) == c.capacity;
    if key in m {
      ProductNonNegative(Elapsed(t, m[key].last), c.refill);
    }
  }

  // ----- exactly which configurations ------------------------------------------------

  lemma {:induction false} CountsAtLeast(c: Config, calls: seq<Call>, key: string, from: real, upto: real)
    ensures Allowed(true, c, calls, key, from, upto) <= AllowedAfter(true, c, [], calls, key)
  {
    if calls != [] {
      var init := calls[..|calls| - 1];
      CountsAtLeast(c, init, key, from, upto);
      assert [] + calls == calls;
    }
  }

  lemma {:induction false} NothingAfter(c: Config, before: seq<Call>, segment: seq<Call>, key: string)
    requires c.capacity < 1.0
    ensures AllowedAfter(true, c, before, segment, key) == 0
  {
    if segment != [] {
      NothingAfter(c, before, segment[..|segment| - 1], key);
      NothingIsAllowed(true, c, before + segment, key, 0.0, 0.0);
    }
  }

  lemma {:induction false} ExtendedStarts(prefix: seq<Call>, next: nat -> Call, k: nat)
    ensures prefix <= Extended(prefix, next, k)
    ensures prefix == [] && k > 0 ==> Extended(prefix, next, k) != [] && Extended(prefix, next, k)[0] == next(0)
  {
    if k > 0 {
      ExtendedStarts(prefix, next, k - 1);
    }
  }

  lemma FloodStarts(n: nat, d: real, k: nat, again: real)
    requires n > 0
    ensures Flood(n, d, k, again) != [] && Flood(n, d, k, again)[0].now == 0.0
    ensures Flood(n, d, k, again)[|Flood(n, d, k, again)| - 1].now == again + d
  {
    var first := Drain([], n, 0.0, d);
    ExtendedStarts([], Client(0.0), n);
    ExtendedStarts(first, Others(d), k);
    ExtendedStarts(Crowd(first, k, d), Client(again), n);
    assert Burst([], n, 0.0)[0] == first[0] == Crowd(first, k, d)[0];
  }

  lemma FloodOverruns(c: Config, n: nat, d: real, k: nat, again: real)
    requires Enabled(c) && Waits(c, n, d) && k == SWEEP_ABOVE && again == d + IDLE_SECS && !RefillsWhileIdle(c)
    ensures !StepBounded(c, [], Flood(n, d, k, again), CLIENT)
  {
    FloodExceeds(c, n, d, k, again, again + d);
    FloodStarts(n, d, k, again);
    OrderedOverruns(c, Flood(n, d, k, again), again + d);
  }

  lemma OrderedOverruns(c: Config, calls: seq<Call>, upto: real)
    requires calls != [] && InTimeOrder(calls) && calls[0].now == 0.0 && calls[|calls| - 1].now == upto
    requires !Bounded(c, calls, CLIENT, 0.0, upto)
    ensures !StepBounded(c, [], calls, CLIENT)
  {
    RiseInOrder(Times(calls));
    CountsAtLeast(c, calls, CLIENT, 0.0, upto);
  }

  // In whatever order the lock is taken, a stretch of a run allows a client at most the burst and
  // the refill over the upward steps of the stretch's times, exactly when sweeping is safe.
  lemma StepBoundedExactlyWhenSafe(c: Config)
    requires Enabled(c)
    ensures (forall before: seq<Call>, segment: seq<Call>, key: string :: StepBounded(c, before, segment, key)) <==> SweepsSafely(c)
  {
    if RefillsWhileIdle(c) {
      forall before: seq<Call>, segment: seq<Call>, key: string
        ensures StepBounded(c, before, segment, key)
      {
        AllStepsBound(c, before, segment, key);
      }
    } else if c.capacity < 1.0 {
      forall before: seq<Call>, segment: seq<Call>, key: string
        ensures StepBounded(c, before, segment, key)
      {
        NothingAfter(c, before, segment, key);
        CoverGrows(c, 0.0, Rise(Times(segment)));
        assert Cover(c, 0.0) == c.capacity;
      }
    } else {
      var n, d := WaitFor(c);
      var k, again := SWEEP_ABOVE, d + IDLE_SECS;
      FloodOverruns(c, n, d, k, again);
    }
  }

  // ----- the order is needed for the bound by interval -------------------------------

  // Two calls allowed within half a second, one token a second and no burst: the call between
  // them took the lock with an earlier reading.
  lemma OutOfOrderExceeds()
    ensures var c, calls := Config(1.0, 1.0), [Call(CLIENT, 10.0), Call(CLIENT, 9.0), Call(CLIENT, 10.0)];
            && Enabled(c) && RefillsWhileIdle(c)
            && Allowed(true, c, calls, CLIENT, 9.5, 10.0) == 2
            && !Bounded(c, calls, CLIENT, 9.5, 10.0)
  {
    var c := Config(1.0, 1.0);
    var x, y := Call(CLIENT, 10.0), Call(CLIENT, 9.0);
    Appended(c, [], x, 9.5, 10.0);
    Appended(c, [x], y, 9.5, 10.0);
    Appended(c, [x, y], x, 9.5, 10.0);
    assert [] + [x] == [x] && [x] + [y] == [x, y] && [x, y] + [x] == [x, y, x];
    FirstOfBurst(c, map[], 10.0);
    OneBucket(c, Bucket(0.0, 10.0), 9.0, Bucket(0.0, 9.0), false);
    OneBucket(c, Bucket(0.0, 9.0), 10.0, Bucket(0.0, 10.0), true);
  }

  lemma OneBucket(c: Config, b: Bucket, t: real, b': Bucket, allowed: bool)
    requires Take(c, b, t) == (b', allowed)
    ensures Request(true, c, map[CLIENT := b], CLIENT, t) == (map[CLIENT := b'], allowed)
  {
    var m := map[CLIENT := b];
    assert |m| == 1 && Sweep(m, t) == m;
    assert m[CLIENT := b'] == map[CLIENT := b'];
  }

  // ----- with sweeping the client's own times do not bound it ------------------------

  lemma {:induction false} CrowdIsNotTheClient(prefix: seq<Call>, k: nat, at: real)
    ensures TimesOf(Crowd(prefix, k, at), CLIENT) == TimesOf(prefix, CLIENT)
  {
    if k > 0 {
      var shorter, last := Crowd(prefix, k - 1, at), Call(Name(k - 1), at);
      CrowdIsNotTheClient(prefix, k - 1, at);
      NameIsAnother(k - 1);
      assert Crowd(prefix, k, at) == shorter + [last] && (shorter + [last])[..|shorter|] == shorter;
      assert TimesOf(shorter, CLIENT) + [] == TimesOf(shorter, CLIENT);
    }
  }

  // The client's call, the crowd's, one of them again five minutes later, and then the client's
  // second, with a reading as old as its first.
  function Overtaken(k: nat): seq<Call> {
    Crowd([Call(CLIENT, 0.0)], k, 0.0) + [Call(Name(0), IDLE_SECS)] + [Call(CLIENT, 0.0)]
  }

  lemma OvertakenTimes(k: nat)
    ensures TimesOf(Overtaken(k), CLIENT) == [0.0, 0.0] && Rise([0.0, 0.0]) == 0.0
  {
    var first, crowd := [Call(CLIENT, 0.0)], Crowd([Call(CLIENT, 0.0)], k, 0.0);
    CrowdIsNotTheClient(first, k, 0.0);
    NameIsAnother(0);
    assert TimesOf(first, CLIENT) == [0.0] by {
      assert first[..0] == [];
    }
    var later := crowd + [Call(Name(0), IDLE_SECS)];
    assert later[..|crowd|] == crowd && TimesOf(later, CLIENT) == [0.0];
    assert (later + [Call(CLIENT, 0.0)])[..|later|] == later;
    RiseSnoc([0.0], 0.0);
    assert [0.0] + [0.0] == [0.0, 0.0];
  }

  lemma CrowdThenLater(c: Config, k: nat, upto: real)
    requires c == Config(1.0, 1.0) && k == SWEEP_ABOVE && upto == IDLE_SECS
    ensures Allowed(true, c, Crowd([Call(CLIENT, 0.0)], k, 0.0), CLIENT, 0.0, upto) == 1
    ensures Sweep(After(true, c, Crowd([Call(CLIENT, 0.0)], k, 0.0)), upto) == map[]
  {
    var first := [Call(CLIENT, 0.0)];
    Appended(c, [], Call(CLIENT, 0.0), 0.0, upto);
    assert [] + first == first;
    FirstOfBurst(c, map[], 0.0);
    CrowdIsSwept(c, first, k, 0.0, upto);
  }

  // The two calls are allowed on a burst of one, the client's own times not having moved at all:
  // it was forgotten on another client's later reading.
  lemma OwnStepsFallShort(k: nat)
    requires k == SWEEP_ABOVE
    ensures var c := Config(1.0, 1.0);
            && Enabled(c) && RefillsWhileIdle(c)
            && AllowedAfter(true, c, [], Overtaken(k), CLIENT) >= 2
            && Cover(c, Rise(TimesOf(Overtaken(k), CLIENT))) == 1.0
  {
    OvertakenTimes(k);
    OvertakenIsAllowed(Config(1.0, 1.0), k);
    CountsAtLeast(Config(1.0, 1.0), Overtaken(k), CLIENT, 0.0, IDLE_SECS);
  }

  lemma OvertakenIsAllowed(c: Config, k: nat)
    requires c == Config(1.0, 1.0) && k == SWEEP_ABOVE
    ensures Allowed(true, c, Overtaken(k), CLIENT, 0.0, IDLE_SECS) == 2
  {
    var crowd := Crowd([Call(CLIENT, 0.0)], k, 0.0);
    var later := crowd + [Call(Name(0), IDLE_SECS)];
    CrowdThenLater(c, k, IDLE_SECS);
    NameIsAnother(0);
    Appended(c, crowd, Call(Name(0), IDLE_SECS), 0.0, IDLE_SECS);
    Appended(c, later, Call(CLIENT, 0.0), 0.0, IDLE_SECS);
    NewClientIsAllowed(c, After(true, c, later), 0.0);
  }

  lemma NewClientIsAllowed(c: Config, m: Buckets, t: real)
    requires c.capacity >= 1.0 && |m| == 1 && CLIENT !in m
    ensures Request(true, c, m, CLIENT, t).1
  {
    assert Sweep(m, t) == m;
    assert Elapsed(t, t) == 0.0;
  }
}
