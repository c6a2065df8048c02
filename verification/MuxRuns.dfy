// Building particular runs of the multiplexer, in which the relay passes frames on as they are.
module MuxRuns {
  import opened Base
  import opened Bytes
  import opened Crypto
  import Channel
  import opened Mux

  ghost predicate AlwaysEncrypts(c: Aead) {
    forall k: Key, n: Nonce, aad: Bytes, p: Bytes :: c.encrypt(k, n, aad, p).Some?
  }

  // ----- one frame passed on at once -------------------------------------------------

  // The sender's next nonce is the one its peer expects next.
  ghost predicate InStep(w: World, fromL: bool) {
    var e, o := Channel.EndAt(w.net, fromL).session, Channel.EndAt(w.net, !fromL).session;
    e.sendKey == o.recvKey && e.sendCtr == o.recvCtr && e.sendCtr + 1 < U64_LIMIT
  }

  ghost predicate CanPass(w: World, fromL: bool, inner: Bytes)
    requires Shape(w.l) && Shape(w.t)
  {
    var s := SideAt(w, fromL);
    && InStep(w, fromL) && w.l.alive && w.t.alive
    && s.done < |s.cmds| && s.cmds[s.done] == Send(inner)
  }

  function NextFrame(c: Aead, w: World, fromL: bool, inner: Bytes): Bytes {
    var r := Channel.SealFrame(c, Channel.EndAt(w.net, fromL).session, inner).1;
    if r.Ok? then r.value else []
  }

  // What the receiving side makes of an inner frame.
  function Taken(s: Side, isTarget: bool, inner: Bytes): Side
    requires Shape(s)
  {
    var r := DispatchBytes(s.router, isTarget, inner);
    s.(router := r, sent := Grown(s.sent, |r.all|, []), since := Grown(s.since, |r.all|, Some(0)))
  }

  lemma SealingSucceeds(c: Aead, s: Channel.SessionState, inner: Bytes)
    requires AlwaysEncrypts(c) && s.sendCtr + 1 < U64_LIMIT
    ensures Channel.SealFrame(c, s, inner).1.Ok?
  {
  }

  // The engine seals the frame and the relay hands it straight to the other side.
  function Passed(c: Aead, w: World, fromL: bool, inner: Bytes): (w': World)
    requires Shape(w.l) && Shape(w.t)
    ensures Shape(w'.l) && Shape(w'.t)
  {
    RelayStep(c, EngineStep(c, w, fromL), !fromL, NextFrame(c, w, fromL, inner))
  }

  lemma PassEffect(c: Aead, w: World, fromL: bool, inner: Bytes)
    requires Lawful(c) && AlwaysEncrypts(c) && Shape(w.l) && Shape(w.t)
    requires CanPass(w, fromL, inner) && InStep(w, !fromL)
    ensures !Forgery(c, EngineStep(c, w, fromL), Relay(!fromL, NextFrame(c, w, fromL, inner)))
    ensures var w' := Passed(c, w, fromL, inner);
            var from, to := Channel.EndAt(w.net, fromL), Channel.EndAt(w.net, !fromL);
            var from', to' := Channel.EndAt(w'.net, fromL), Channel.EndAt(w'.net, !fromL);
            && SideAt(w', fromL) == SideAt(w, fromL).(done := SideAt(w, fromL).done + 1)
            && SideAt(w', !fromL) == Taken(SideAt(w, !fromL), fromL, inner)
            && from'.received == from.received && to'.received == to.received + [inner]
            && from'.session == from.session.(sendCtr := from.session.sendCtr + 1)
            && to'.session == to.session.(recvCtr := to.session.recvCtr + 1)
  {
    var e, o := Channel.EndAt(w.net, fromL).session, Channel.EndAt(w.net, !fromL).session;
    SealingSucceeds(c, e, inner);
    Channel.OpensExactlyTheNextFrame(c, e, o, inner);
    var w1, frame, n := EngineStep(c, w, fromL), NextFrame(c, w, fromL, inner), |w.net.ledger|;
    assert w1.net.ledger[n].key == e.sendKey && w1.net.ledger[n].ct.Some?;
    assert frame == w1.net.ledger[n].nonce + w1.net.ledger[n].ct.value;
  }

  // ----- runs, step by step -------------------------------------------------------

  ghost predicate Reaches(c: Aead, start: World, evs: seq<Event>, w: World)
    requires Shape(start.l) && Shape(start.t)
  {
    Run(c, start, evs) == w && !ForgeryIn(c, start, evs)
  }

  lemma Then(c: Aead, start: World, evs: seq<Event>, w: World, ev: Event)
    requires Shape(start.l) && Shape(start.t) && Shape(w.l) && Shape(w.t)
    requires Reaches(c, start, evs, w) && !Forgery(c, w, ev)
    ensures Reaches(c, start, evs + [ev], Step(c, w, ev))
  {
    var evs' := evs + [ev];
    assert evs'[..|evs|] == evs;
    forall i | 0 <= i < |evs'|
      ensures !Forgery(c, Run(c, start, evs'[..i]), evs'[i])
    {
      if i < |evs| {
        assert evs'[..i] == evs[..i] && evs'[i] == evs[i];
      }
    }
  }

  lemma PassIsGenuine(c: Aead, w: World, fromL: bool, inner: Bytes)
    requires Lawful(c) && AlwaysEncrypts(c) && Shape(w.l) && Shape(w.t)
    requires CanPass(w, fromL, inner) && InStep(w, !fromL)
    ensures !Forgery(c, EngineStep(c, w, fromL), Relay(!fromL, NextFrame(c, w, fromL, inner)))
  {
    PassEffect(c, w, fromL, inner);
  }

  lemma ThenTakes(c: Aead, start: World, evs: seq<Event>, w: World, atL: bool)
    requires Shape(start.l) && Shape(start.t) && Shape(w.l) && Shape(w.t) && Reaches(c, start, evs, w)
    ensures Reaches(c, start, evs + [EngineTakes(atL)], EngineStep(c, w, atL))
  {
    Then(c, start, evs, w, EngineTakes(atL));
  }

  lemma ThenRelays(c: Aead, start: World, evs: seq<Event>, w: World, atL: bool, frame: Bytes)
    requires Shape(start.l) && Shape(start.t) && Shape(w.l) && Shape(w.t) && Reaches(c, start, evs, w)
    requires !Forgery(c, w, Relay(atL, frame))
    ensures Reaches(c, start, evs + [Relay(atL, frame)], RelayStep(c, w, atL, frame))
  {
    Then(c, start, evs, w, Relay(atL, frame));
  }

  lemma ThenPasses(c: Aead, start: World, evs: seq<Event>, w: World, fromL: bool, inner: Bytes) returns (evs': seq<Event>)
    requires Lawful(c) && AlwaysEncrypts(c) && Shape(start.l) && Shape(start.t) && Shape(w.l) && Shape(w.t)
    requires Reaches(c, start, evs, w) && CanPass(w, fromL, inner) && InStep(w, !fromL)
    ensures Reaches(c, start, evs', Passed(c, w, fromL, inner))
  {
    var frame := NextFrame(c, w, fromL, inner);
    PassIsGenuine(c, w, fromL, inner);
    ThenTakes(c, start, evs, w, fromL);
    evs' := evs + [EngineTakes(fromL)];
    ThenRelays(c, start, evs', EngineStep(c, w, fromL), !fromL, frame);
    evs' := evs' + [Relay(!fromL, frame)];
  }

  // An event of either side's own, then one frame passed on.
  lemma ThenBoth(c: Aead, start: World, evs: seq<Event>, w: World, ev: Event, fromL: bool, inner: Bytes)
    returns (evs': seq<Event>)
    requires Lawful(c) && AlwaysEncrypts(c) && Shape(start.l) && Shape(start.t) && Shape(w.l) && Shape(w.t)
    requires Reaches(c, start, evs, w) && !Forgery(c, w, ev)
    requires CanPass(Step(c, w, ev), fromL, inner) && InStep(Step(c, w, ev), !fromL)
    ensures Reaches(c, start, evs', Passed(c, Step(c, w, ev), fromL, inner))
  {
    Then(c, start, evs, w, ev);
    evs' := ThenPasses(c, start, evs + [ev], Step(c, w, ev), fromL, inner);
  }

  // Two events of a side's own, one frame passed on, and one more command taken.
  lemma ThenRound(c: Aead, start: World, evs: seq<Event>, w: World, ev1: Event, ev2: Event, inner: Bytes)
    returns (evs': seq<Event>)
    requires Lawful(c) && AlwaysEncrypts(c) && Shape(start.l) && Shape(start.t) && Shape(w.l) && Shape(w.t)
    requires Reaches(c, start, evs, w) && !ev1.Relay? && !ev2.Relay?
    requires CanPass(Step(c, Step(c, w, ev1), ev2), true, inner) && InStep(Step(c, Step(c, w, ev1), ev2), false)
    ensures Reaches(c, start, evs', EngineStep(c, Passed(c, Step(c, Step(c, w, ev1), ev2), true, inner), true))
  {
    Then(c, start, evs, w, ev1);
    evs' := ThenBoth(c, start, evs + [ev1], Step(c, w, ev1), ev2, true, inner);
    ThenTakes(c, start, evs', Passed(c, Step(c, Step(c, w, ev1), ev2), true, inner), true);
    evs' := evs' + [EngineTakes(true)];
  }
}
