// What the wrapping stream ids cost: one stream more than there are ids, and data goes astray.
module IdClash {
  import opened Base
  import opened Bytes
  import opened Crypto
  import Channel
  import opened Mux
  import opened MuxRuns
  import MuxSafety

  // `n` streams are open at both sides, in order, and registered, and none has carried anything.
  ghost predicate AllOpen(w: World, n: nat)
    requires Shape(w.l) && Shape(w.t)
  {
    && w.l.alive && w.t.alive && w.l.done == |w.l.cmds| && |RegistersOf(w.l.cmds)| == n
    && |w.l.router.all| == |w.t.router.all| == n
    && (forall k :: 0 <= k < n ==> w.l.router.all[k].sid == SidOf(k) && w.l.sent[k] == [] && w.t.router.all[k].got == [])
    && (n > 0 ==> SidOf(n - 1) in w.t.router.table && w.t.router.table[SidOf(n - 1)] == n - 1)
  }

  ghost predicate Flowing(w: World, n: nat) {
    InStep(w, true) && InStep(w, false) && w.net.a.session.sendCtr == n
  }

  function OpenInner(n: nat, addr: Bytes): Bytes {
    InnerEncode(Inner(KIND_OPEN_TCP, SidOf(n), addr))
  }

  // A connection comes in: its OPEN and its Register are queued.
  function Queued(c: Aead, w: World, addr: Bytes): (w': World)
    requires Shape(w.l) && Shape(w.t)
    ensures Shape(w'.l) && Shape(w'.t)
  {
    Step(c, Step(c, w, Accept(false, addr)), Registers)
  }

  // The OPEN is passed on to the target, and the Register taken.
  function Established(c: Aead, w: World, n: nat, addr: Bytes): (w': World)
    requires Shape(w.l) && Shape(w.t)
    ensures Shape(w'.l) && Shape(w'.t)
  {
    EngineStep(c, Passed(c, Queued(c, w, addr), true, OpenInner(n, addr)), true)
  }

  lemma QueuedCommands(c: Aead, w: World, n: nat, addr: Bytes)
    requires Shape(w.l) && Shape(w.t) && AllOpen(w, n)
    ensures var w' := Queued(c, w, addr);
            && w'.l == AcceptOn(w.l, false, addr).(cmds := w.l.cmds + [Send(OpenInner(n, addr)), Register(SidOf(n), n)])
            && |RegistersOf(w'.l.cmds)| == n + 1 && w'.t == w.t && w'.net == w.net
  {
    var open, cmds := Send(OpenInner(n, addr)), w.l.cmds;
    CmdsSnoc(cmds, open);
    CmdsSnoc(cmds + [open], Register(SidOf(n), n));
    assert cmds + [open] + [Register(SidOf(n), n)] == cmds + [open, Register(SidOf(n), n)];
  }

  lemma OpenIsPassed(c: Aead, w: World, n: nat, addr: Bytes)
    requires Lawful(c) && AlwaysEncrypts(c) && Shape(w.l) && Shape(w.t)
    requires AllOpen(w, n) && Flowing(w, n) && n <= U32_LIMIT
    ensures CanPass(Queued(c, w, addr), true, OpenInner(n, addr)) && InStep(Queued(c, w, addr), false)
    ensures var w' := Passed(c, Queued(c, w, addr), true, OpenInner(n, addr));
            && w'.l == Queued(c, w, addr).l.(done := w.l.done + 1) && Flowing(w', n + 1)
            && w'.t == Taken(w.t, true, OpenInner(n, addr))
  {
    QueuedCommands(c, w, n, addr);
    PassEffect(c, Queued(c, w, addr), true, OpenInner(n, addr));
  }

  lemma OneMoreOpens(c: Aead, w: World, n: nat, addr: Bytes)
    requires Lawful(c) && AlwaysEncrypts(c) && Shape(w.l) && Shape(w.t)
    requires AllOpen(w, n) && Flowing(w, n) && n <= U32_LIMIT
    ensures AllOpen(Established(c, w, n, addr), n + 1) && Flowing(Established(c, w, n, addr), n + 1)
  {
    QueuedCommands(c, w, n, addr);
    OpenIsPassed(c, w, n, addr);
    TargetOpens(w.t, n, addr);
  }

  lemma TargetOpens(t: Side, n: nat, addr: Bytes)
    requires Shape(t) && |t.router.all| == n
    ensures var t' := Taken(t, true, OpenInner(n, addr));
            && t'.router == Router(t.router.table[SidOf(n) := n], t.router.all + [Stream(SidOf(n), KIND_OPEN_TCP, addr, [])])
            && t'.alive == t.alive
  {
    InnerRoundTrip(Inner(KIND_OPEN_TCP, SidOf(n), addr));
  }

  lemma RunOneMore(c: Aead, start: World, evs: seq<Event>, w: World, n: nat, addr: Bytes) returns (evs': seq<Event>)
    requires Lawful(c) && AlwaysEncrypts(c) && Shape(start.l) && Shape(start.t) && Shape(w.l) && Shape(w.t)
    requires Reaches(c, start, evs, w) && AllOpen(w, n) && Flowing(w, n) && n <= U32_LIMIT
    ensures Reaches(c, start, evs', Established(c, w, n, addr))
  {
    OpenIsPassed(c, w, n, addr);
    evs' := ThenRound(c, start, evs, w, Accept(false, addr), Registers, OpenInner(n, addr));
  }

  lemma {:induction false} OpenMany(c: Aead, start: World, n: nat, addr: Bytes) returns (evs: seq<Event>, w: World)
    requires Lawful(c) && AlwaysEncrypts(c) && Start(start) && n <= U32_LIMIT + 1
    ensures Shape(w.l) && Shape(w.t) && Reaches(c, start, evs, w) && AllOpen(w, n) && Flowing(w, n)
  {
    if n == 0 {
      evs, w := [], start;
    } else {
      evs, w := OpenMany(c, start, n - 1, addr);
      OneMoreOpens(c, w, n - 1, addr);
      evs := RunOneMore(c, start, evs, w, n - 1, addr);
      w := Established(c, w, n - 1, addr);
    }
  }

  // The first stream's payload, handed to the last one at the target.
  lemma FirstFeedsLast(c: Aead, w: World, n: nat, p: Bytes)
    requires Lawful(c) && AlwaysEncrypts(c) && Shape(w.l) && Shape(w.t)
    requires n == U32_LIMIT + 1 && AllOpen(w, n) && Flowing(w, n)
    ensures var w1, inner := Step(c, w, Upload(true, 0, p)), InnerEncode(Inner(KIND_DATA, SidOf(0), p));
            && CanPass(w1, true, inner) && InStep(w1, false)
            && var w' := Passed(c, w1, true, inner);
               && |w'.l.router.all| == |w'.t.router.all| == n && w'.l.sent[n - 1] == [] && w'.l.sent[0] == [p]
               && MuxSafety.Handed(w', false, n - 1) == [p]
  {
    var w1, inner := Step(c, w, Upload(true, 0, p)), InnerEncode(Inner(KIND_DATA, SidOf(0), p));
    InnerRoundTrip(Inner(KIND_DATA, SidOf(0), p));
    assert SidOf(0) == SidOf(n - 1);
    PassEffect(c, w1, true, inner);
    var w' := Passed(c, w1, true, inner);
    assert w'.t.router.all[n - 1].got == [Data(p)];
    PayloadsSnoc([], Data(p));
    assert [] + [Data(p)] == [Data(p)];
  }

  // With 2^32 + 1 streams and no forgery, the target's last stream can be handed what only the
  // listener's first one sent.
  lemma LastStreamIsMisfed(c: Aead, start: World, addr: Bytes, p: Bytes) returns (evs: seq<Event>)
    requires Lawful(c) && AlwaysEncrypts(c) && Start(start)
    ensures !ForgeryIn(c, start, evs)
    ensures var w := Run(c, start, evs);
            && |w.l.router.all| == |w.t.router.all| == U32_LIMIT + 1
            && MuxSafety.Handed(w, false, U32_LIMIT) == [p] && w.l.sent[U32_LIMIT] == [] && w.l.sent[0] == [p]
  {
    var w: World;
    var n := U32_LIMIT + 1;
    evs, w := OpenMany(c, start, n, addr);
    FirstFeedsLast(c, w, n, p);
    evs := ThenBoth(c, start, evs, w, Upload(true, 0, p), true, InnerEncode(Inner(KIND_DATA, SidOf(0), p)));
  }

  // Every unforged run of at most this many streams keeps them in order towards the target.
  ghost predicate InOrderUpTo(c: Aead, start: World, limit: nat)
    requires Shape(start.l) && Shape(start.t)
  {
    forall evs: seq<Event> :: |Run(c, start, evs).l.router.all| <= limit && !ForgeryIn(c, start, evs)
                              ==> MuxSafety.ForwardInOrder(Run(c, start, evs))
  }

  // That is so for exactly the limits up to 2^32.
  lemma InOrderExactlyUpTo(c: Aead, start: World, limit: nat)
    requires Lawful(c) && AlwaysEncrypts(c) && Start(start)
    ensures InOrderUpTo(c, start, limit) <==> limit <= U32_LIMIT
  {
    if limit <= U32_LIMIT {
      forall evs: seq<Event> | |Run(c, start, evs).l.router.all| <= limit && !ForgeryIn(c, start, evs)
        ensures MuxSafety.ForwardInOrder(Run(c, start, evs))
      {
        MuxSafety.ForwardStreamsArePrefixes(c, start, evs);
      }
    } else {
      var evs := LastStreamIsMisfed(c, start, [], [1]);
      assert !MuxSafety.ForwardInOrder(Run(c, start, evs));
    }
  }
}
