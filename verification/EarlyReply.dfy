// A run in which a reply overtakes the listener's own Register, and is lost.
module EarlyReply {
  import opened Base
  import opened Bytes
  import opened Crypto
  import Channel
  import opened Mux
  import opened MuxRuns
  import MuxSafety

  // The listener's only stream: kind, id and address.
  function TheStream(addr: Bytes, got: seq<Msg>): Stream {
    Stream(1, KIND_OPEN_TCP, addr, got)
  }

  function OpenCommand(addr: Bytes): Command {
    Send(InnerEncode(Inner(KIND_OPEN_TCP, 1, addr)))
  }

  function DataFrame(p: Bytes): Bytes {
    InnerEncode(Inner(KIND_DATA, 1, p))
  }

  lemma DataIsDispatched(s: Side, p: Bytes)
    requires Shape(s)
    ensures Taken(s, false, DataFrame(p))
            == if 1 in s.router.table then s.(router := Push(s.router, s.router.table[1], Data(p))) else s
  {
    InnerRoundTrip(Inner(KIND_DATA, 1, p));
  }

  // The target has the stream; the listener has sent its OPEN and queued no Register.
  function Listening(addr: Bytes): Side {
    Side([OpenCommand(addr)], 1, Router(map[], [TheStream(addr, [])]), [[]], [None], true)
  }

  function Replying(addr: Bytes, cmds: seq<Command>, replies: seq<Bytes>): Side {
    Side(cmds, |cmds|, Router(map[1 := 0], [TheStream(addr, [])]), [replies], [Some(0)], true)
  }

  // Both directions are in step, with `n` frames sent by the target.
  ghost predicate Flowing(w: World, n: nat) {
    InStep(w, true) && InStep(w, false) && w.net.b.session.sendCtr == n && w.net.a.session.sendCtr == 1
  }

  ghost predicate AtOpen(w: World, addr: Bytes) {
    && w.l == Listening(addr) && w.t == Replying(addr, [], []) && w.net.a.received == [] && Flowing(w, 0)
  }

  lemma StreamOpens(c: Aead, start: World, addr: Bytes)
    requires Lawful(c) && AlwaysEncrypts(c) && Start(start)
    ensures var w, inner := Step(c, start, Accept(false, addr)), OpenCommand(addr).inner;
            CanPass(w, true, inner) && InStep(w, false) && AtOpen(Passed(c, w, true, inner), addr)
  {
    var w, inner := Step(c, start, Accept(false, addr)), OpenCommand(addr).inner;
    InnerRoundTrip(Inner(KIND_OPEN_TCP, 1, addr));
    PassEffect(c, w, true, inner);
    var w' := Passed(c, w, true, inner);
    assert w'.t.router.table == map[1 := 0];
  }

  // A first reply comes back and finds no stream in the listener's table.
  ghost predicate AtLost(w: World, addr: Bytes, r1: Bytes) {
    && w.l == Listening(addr) && w.t == Replying(addr, [Send(DataFrame(r1))], [r1])
    && w.net.a.received == [DataFrame(r1)] && Flowing(w, 1)
  }

  lemma FirstReplyIsLost(c: Aead, w: World, addr: Bytes, r1: Bytes)
    requires Lawful(c) && AlwaysEncrypts(c) && Shape(w.l) && Shape(w.t) && AtOpen(w, addr)
    ensures var w1 := Step(c, w, Upload(false, 0, r1));
            && CanPass(w1, false, DataFrame(r1)) && InStep(w1, true)
            && AtLost(Passed(c, w1, false, DataFrame(r1)), addr, r1)
  {
    var w1 := Step(c, w, Upload(false, 0, r1));
    assert w1.t.cmds == [Send(DataFrame(r1))] && w1.t.sent[0] == [r1];
    DataIsDispatched(w1.l, r1);
    PassEffect(c, w1, false, DataFrame(r1));
  }

  // Then the Register is queued and taken: the table knows the stream from its second reply on.
  function Registered(addr: Bytes, got: seq<Msg>): Side {
    Side([OpenCommand(addr), Register(1, 0)], 2, Router(map[1 := 0], [TheStream(addr, got)]), [[]], [Some(1)], true)
  }

  ghost predicate AtRegistered(w: World, addr: Bytes, r1: Bytes) {
    w.l == Registered(addr, []) && w.t == Replying(addr, [Send(DataFrame(r1))], [r1]) && Flowing(w, 1)
  }

  lemma RegisterIsTaken(c: Aead, w: World, addr: Bytes, r1: Bytes)
    requires Shape(w.l) && Shape(w.t) && AtLost(w, addr, r1)
    ensures AtRegistered(EngineStep(c, Step(c, w, Registers), true), addr, r1)
  {
    InnerRoundTrip(Inner(KIND_DATA, 1, r1));
    FramesSnoc([], DataFrame(r1), 1);
    assert [] + [DataFrame(r1)] == [DataFrame(r1)];
    CmdsSnoc([], OpenCommand(addr));
    assert [] + [OpenCommand(addr)] == [OpenCommand(addr)];
    var w1 := Step(c, w, Registers);
    assert w1.l.cmds == [OpenCommand(addr), Register(1, 0)];
  }

  ghost predicate AtEnd(w: World, addr: Bytes, r1: Bytes, r2: Bytes) {
    w.l == Registered(addr, [Data(r2)]) && w.t == Replying(addr, [Send(DataFrame(r1)), Send(DataFrame(r2))], [r1, r2])
  }

  lemma SecondReplyIsHanded(addr: Bytes, r2: Bytes)
    ensures Taken(Registered(addr, []), false, DataFrame(r2)) == Registered(addr, [Data(r2)])
  {
    var s := Registered(addr, []);
    DataIsDispatched(s, r2);
    assert Push(s.router, 0, Data(r2)).all[0].got == [Data(r2)];
  }

  lemma SecondReplyArrives(c: Aead, w: World, addr: Bytes, r1: Bytes, r2: Bytes)
    requires Lawful(c) && AlwaysEncrypts(c) && Shape(w.l) && Shape(w.t) && AtRegistered(w, addr, r1)
    ensures var w1 := Step(c, w, Upload(false, 0, r2));
            && CanPass(w1, false, DataFrame(r2)) && InStep(w1, true)
            && AtEnd(Passed(c, w1, false, DataFrame(r2)), addr, r1, r2)
  {
    var w1 := Step(c, w, Upload(false, 0, r2));
    assert w1.t.cmds == [Send(DataFrame(r1)), Send(DataFrame(r2))] && w1.t.sent[0] == [r1, r2];
    SecondReplyIsHanded(addr, r2);
    PassEffect(c, w1, false, DataFrame(r2));
  }

  lemma EndState(w: World, addr: Bytes, r1: Bytes, r2: Bytes)
    requires Shape(w.l) && Shape(w.t) && AtEnd(w, addr, r1, r2)
    ensures |w.l.router.all| == 1 && w.l.since[0] == Some(1)
    ensures MuxSafety.Replies(w, 0) == [r1, r2] && MuxSafety.Handed(w, true, 0) == [r2]
  {
    PayloadsSnoc([], Data(r2));
    assert [] + [Data(r2)] == [Data(r2)];
  }

  // ----- the run ---------------------------------------------------------------------

  lemma ThenRegisters(c: Aead, start: World, evs: seq<Event>, w: World) returns (evs': seq<Event>)
    requires Shape(start.l) && Shape(start.t) && Shape(w.l) && Shape(w.t) && Reaches(c, start, evs, w)
    ensures Reaches(c, start, evs', EngineStep(c, Step(c, w, Registers), true))
  {
    Then(c, start, evs, w, Registers);
    Then(c, start, evs + [Registers], Step(c, w, Registers), EngineTakes(true));
    evs' := evs + [Registers] + [EngineTakes(true)];
  }

  lemma RunToLost(c: Aead, start: World, addr: Bytes, r1: Bytes) returns (evs: seq<Event>, w: World)
    requires Lawful(c) && AlwaysEncrypts(c) && Start(start)
    ensures Shape(w.l) && Shape(w.t) && Reaches(c, start, evs, w) && AtLost(w, addr, r1)
  {
    assert Reaches(c, start, [], start);
    StreamOpens(c, start, addr);
    evs := ThenBoth(c, start, [], start, Accept(false, addr), true, OpenCommand(addr).inner);
    w := Passed(c, Step(c, start, Accept(false, addr)), true, OpenCommand(addr).inner);
    FirstReplyIsLost(c, w, addr, r1);
    evs := ThenBoth(c, start, evs, w, Upload(false, 0, r1), false, DataFrame(r1));
    w := Passed(c, Step(c, w, Upload(false, 0, r1)), false, DataFrame(r1));
  }

  lemma RunToRegistered(c: Aead, start: World, addr: Bytes, r1: Bytes) returns (evs: seq<Event>, w: World)
    requires Lawful(c) && AlwaysEncrypts(c) && Start(start)
    ensures Shape(w.l) && Shape(w.t) && Reaches(c, start, evs, w) && AtRegistered(w, addr, r1)
  {
    evs, w := RunToLost(c, start, addr, r1);
    RegisterIsTaken(c, w, addr, r1);
    evs := ThenRegisters(c, start, evs, w);
    w := EngineStep(c, Step(c, w, Registers), true);
  }

  lemma RunToEnd(c: Aead, start: World, addr: Bytes, r1: Bytes, r2: Bytes) returns (evs: seq<Event>, w: World)
    requires Lawful(c) && AlwaysEncrypts(c) && Start(start)
    ensures Shape(w.l) && Shape(w.t) && Reaches(c, start, evs, w) && AtEnd(w, addr, r1, r2)
  {
    evs, w := RunToRegistered(c, start, addr, r1);
    SecondReplyArrives(c, w, addr, r1, r2);
    evs := ThenBoth(c, start, evs, w, Upload(false, 0, r2), false, DataFrame(r2));
    w := Passed(c, Step(c, w, Upload(false, 0, r2)), false, DataFrame(r2));
  }

  // Of two different replies the listener's socket is handed the second alone, which is no
  // prefix of the two; nothing was forged on the way.
  lemma EarlyRepliesAreLost(c: Aead, start: World, addr: Bytes, r1: Bytes, r2: Bytes) returns (evs: seq<Event>)
    requires Lawful(c) && AlwaysEncrypts(c) && Start(start) && r1 != r2
    ensures !ForgeryIn(c, start, evs)
    ensures var w := Run(c, start, evs);
            && |w.l.router.all| == 1 && w.l.since[0] == Some(1)
            && MuxSafety.Replies(w, 0) == [r1, r2] && MuxSafety.Handed(w, true, 0) == [r2]
            && !(MuxSafety.Handed(w, true, 0) <= MuxSafety.Replies(w, 0))
  {
    var w: World;
    evs, w := RunToEnd(c, start, addr, r1, r2);
    EndState(w, addr, r1, r2);
    assert [r2][0] != [r1, r2][0];
  }
}
