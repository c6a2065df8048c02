// The tunnel's stream multiplexer over the sealed channel: a listener that opens streams, a
// target that serves them, one engine per side, and the relay of module Channel between them.
module Mux {
  import opened Base
  import opened Bytes
  import opened Crypto
  import opened Channel

  const KIND_OPEN_TCP: byte := 1
  const KIND_OPEN_UDP: byte := 2
  const KIND_DATA: byte := 3
  const KIND_CLOSE: byte := 4

  // ----- inner frames ----------------------------------------------------------------

  datatype Inner = Inner(kind: byte, sid: u32, payload: Bytes)

  function InnerEncode(f: Inner): Bytes {
    [f.kind] + BigEndian(4, f.sid) + f.payload
  }

  function InnerDecode(buf: Bytes): Option<Inner> {
    if |buf| < 5 then None
    else
      Pow256Values();
      BigEndianOfBytes(buf[1..5]);
      Some(Inner(buf[0], FromBigEndian(buf[1..5]), buf[5..]))
  }

  lemma InnerRoundTrip(f: Inner)
    ensures InnerDecode(InnerEncode(f)) == Some(f)
  {
    var b := InnerEncode(f);
    assert b[1..5] == BigEndian(4, f.sid) && b[5..] == f.payload;
    Pow256Values();
    BigEndianRoundTrip(4, f.sid);
  }

  lemma InnerDecodeIsExact(buf: Bytes)
    requires InnerDecode(buf).Some?
    ensures InnerEncode(InnerDecode(buf).value) == buf
  {
    BigEndianOfBytes(buf[1..5]);
  }

  // ----- routing inside one engine ---------------------------------------------------

  datatype Msg = Data(bytes: Bytes) | Close

  // `got` is what the engine has pushed into this stream's inbound queue.
  datatype Stream = Stream(sid: u32, kind: byte, addr: Bytes, got: seq<Msg>)

  // `table` maps a live stream id to an index of `all`.
  datatype Router = Router(table: map<u32, nat>, all: seq<Stream>)

  predicate IndicesInRange(r: Router) {
    forall sid :: sid in r.table ==> r.table[sid] < |r.all|
  }

  function Push(r: Router, k: nat, m: Msg): Router
    requires k < |r.all|
  {
    r.(all := r.all[k := r.all[k].(got := r.all[k].got + [m])])
  }

  function OpenStream(r: Router, f: Inner): Router {
    Router(r.table[f.sid := |r.all|], r.all + [Stream(f.sid, f.kind, f.payload, [])])
  }

  function Forget(r: Router, sid: u32): Router {
    r.(table := r.table - {sid})
  }

  function Dispatch(r: Router, isTarget: bool, f: Inner): (r': Router)
    requires IndicesInRange(r)
    ensures IndicesInRange(r') && |r.all| <= |r'.all| <= |r.all| + 1
  {
    if f.kind == KIND_OPEN_TCP || f.kind == KIND_OPEN_UDP then
      if isTarget then OpenStream(r, f) else r
    else if f.kind == KIND_DATA then
      if f.sid in r.table then Push(r, r.table[f.sid], Data(f.payload)) else r
    else if f.kind == KIND_CLOSE then
      if f.sid in r.table then Forget(Push(r, r.table[f.sid], Close), f.sid) else r
    else r
  }

  function DispatchBytes(r: Router, isTarget: bool, inner: Bytes): (r': Router)
    requires IndicesInRange(r)
    ensures IndicesInRange(r') && |r.all| <= |r'.all| <= |r.all| + 1
  {
    match InnerDecode(inner)
    case None => r
    case Some(f) => Dispatch(r, isTarget, f)
  }

  datatype Command = Send(inner: Bytes) | Register(sid: u32, index: nat)

  // The task that owns the session and the routing table.
  class Engine {
    const session: Session
    const isTarget: bool
    var table: map<u32, nat>
    var all: seq<Stream>

    constructor (session: Session, isTarget: bool)
      ensures this.session == session && this.isTarget == isTarget
      ensures Routes() == Router(map[], [])
    {
      this.session, this.isTarget := session, isTarget;
      table, all := map[], [];
    }

    ghost function Routes(): Router
      reads this
    {
      Router(table, all)
    }

    // Runs one command; the frame to put on the wire, nothing, or the error that ends the loop.
    method OnCommand(c: Aead, cmd: Command) returns (r: Result<Option<Bytes>, CryptoError>)
      requires IndicesInRange(Routes()) && (cmd.Register? ==> cmd.index < |all|)
      modifies this`table, session`sendCtr
      ensures IndicesInRange(Routes())
      ensures cmd.Register? ==>
                && Routes() == old(Routes()).(table := old(table)[cmd.sid := cmd.index])
                && session.State() == old(session.State()) && r == Ok(None)
      ensures cmd.Send? ==>
                && Routes() == old(Routes())
                && session.State() == SealFrame(c, old(session.State()), cmd.inner).0
                && match SealFrame(c, old(session.State()), cmd.inner).1 {
                     case Ok(frame) => r == Ok(Some(frame))
                     case Err(e) => r == Err(e)
                   }
    {
      match cmd {
        case Register(sid, index) =>
          table := table[sid := index];
          r := Ok(None);
        case Send(inner) =>
          var frame :- session.Seal(c, inner);
          r := Ok(Some(frame));
      }
    }

    // Handles one inbound frame; an error ends the loop and leaves everything as it was.
    method OnFrame(c: Aead, frame: Bytes) returns (r: Result<(), CryptoError>)
      requires IndicesInRange(Routes())
      modifies this`table, this`all, session`recvCtr
      ensures IndicesInRange(Routes())
      ensures session.State() == OpenFrame(c, old(session.State()), frame).0
      ensures match OpenFrame(c, old(session.State()), frame).1 {
                case Err(e) => r == Err(e) && Routes() == old(Routes())
                case Ok(inner) => r == Ok(()) && Routes() == DispatchBytes(old(Routes()), isTarget, inner)
              }
    {
      var inner :- session.Open(c, frame);
      r := Ok(());
      var decoded := InnerDecode(inner);
      if decoded.None? {
        return;
      }
      var f := decoded.value;
      if f.kind == KIND_OPEN_TCP || f.kind == KIND_OPEN_UDP {
        if isTarget {
          table, all := table[f.sid := |all|], all + [Stream(f.sid, f.kind, f.payload, [])];
        }
      } else if f.kind == KIND_DATA {
        if f.sid in table {
          var k := table[f.sid];
          all := all[k := all[k].(got := all[k].got + [Data(f.payload)])];
        }
      } else if f.kind == KIND_CLOSE {
        if f.sid in table {
          var k := table[f.sid];
          all := all[k := all[k].(got := all[k].got + [Close])];
          table := table - {f.sid};
        }
      }
    }
  }

  // ----- the whole tunnel ------------------------------------------------------------

  // One side of the tunnel. `cmds` is everything ever queued for the engine and `done` how much
  // of it the engine has taken; `sent[k]` is what stream k's local socket produced; `since[k]` is
  // how many DATA frames of stream k's id had come in when the stream was put into the table.
  datatype Side = Side(
    cmds: seq<Command>,
    done: nat,
    router: Router,
    sent: seq<seq<Bytes>>,
    since: seq<Option<nat>>,
    alive: bool)

  datatype World = World(net: Net, l: Side, t: Side)

  datatype Event =
    | Accept(udp: bool, remote: Bytes)
    | Registers
    | Upload(atL: bool, k: nat, payload: Bytes)
    | Finish(atL: bool, k: nat)
    | PumpEnds(atL: bool, k: nat)
    | EngineTakes(atL: bool)
    | Relay(atL: bool, frame: Bytes)

  // The process-wide counter starts at 1 and wraps.
  function SidOf(k: nat): u32 {
    (1 + k) % U32_LIMIT
  }

  predicate Shape(s: Side) {
    && IndicesInRange(s.router)
    && |s.sent| == |s.since| == |s.router.all|
    && s.done <= |s.cmds|
    && forall i :: 0 <= i < |s.cmds| && s.cmds[i].Register? ==> s.cmds[i].index < |s.router.all|
  }

  function SideAt(w: World, atL: bool): Side {
    if atL then w.l else w.t
  }

  function WithSide(w: World, atL: bool, s: Side): World {
    if atL then w.(l := s) else w.(t := s)
  }

  function Queue(s: Side, inner: Inner): Side {
    s.(cmds := s.cmds + [Send(InnerEncode(inner))])
  }

  // The OPEN of a new stream is queued; frames of other streams may come before its Register.
  function AcceptOn(s: Side, udp: bool, remote: Bytes): (s': Side)
    requires Shape(s)
    ensures Shape(s')
  {
    var k := |s.router.all|;
    var open := Inner(if udp then KIND_OPEN_UDP else KIND_OPEN_TCP, SidOf(k), remote);
    s.(cmds := s.cmds + [Send(InnerEncode(open))],
       router := s.router.(all := s.router.all + [Stream(SidOf(k), open.kind, remote, [])]),
       sent := s.sent + [[]],
       since := s.since + [None])
  }

  // The next stream's Register is queued.
  function RegisterOn(s: Side): (s': Side)
    requires Shape(s)
    ensures Shape(s')
  {
    var k := |RegistersOf(s.cmds)|;
    if k >= |s.router.all| then s else s.(cmds := s.cmds + [Register(s.router.all[k].sid, k)])
  }

  function UploadOn(s: Side, k: nat, payload: Bytes): (s': Side)
    requires Shape(s)
    ensures Shape(s')
  {
    if k >= |s.router.all| then s
    else Queue(s, Inner(KIND_DATA, s.router.all[k].sid, payload)).(sent := s.sent[k := s.sent[k] + [payload]])
  }

  function FinishOn(s: Side, k: nat): (s': Side)
    requires Shape(s)
    ensures Shape(s')
  {
    if k >= |s.router.all| then s else Queue(s, Inner(KIND_CLOSE, s.router.all[k].sid, []))
  }

  function PumpEndsOn(s: Side, k: nat): (s': Side)
    requires Shape(s)
    ensures Shape(s')
  {
    if k >= |s.router.all| then s else s.(router := Forget(s.router, s.router.all[k].sid))
  }

  function EngineStep(c: Aead, w: World, atL: bool): (w': World)
    requires Shape(SideAt(w, atL))
    ensures Shape(SideAt(w', atL)) && SideAt(w', !atL) == SideAt(w, !atL)
  {
    var s := SideAt(w, atL);
    if !s.alive || s.done == |s.cmds| then w
    else
      match s.cmds[s.done]
      case Register(sid, k) =>
        WithSide(w, atL, s.(done := s.done + 1,
                            router := s.router.(table := s.router.table[sid := k]),
                            since := s.since[k := Some(|DataOf(EndAt(w.net, atL).received, sid)|)]))
      case Send(inner) =>
        var ok := SealFrame(c, EndAt(w.net, atL).session, inner).1.Ok?;
        WithSide(w, atL, s.(done := s.done + 1, alive := ok)).(net := SealStep(c, w.net, atL, inner))
  }

  function RelayStep(c: Aead, w: World, atL: bool, frame: Bytes): (w': World)
    requires Shape(SideAt(w, atL))
    ensures Shape(SideAt(w', atL)) && SideAt(w', !atL) == SideAt(w, !atL)
  {
    var s := SideAt(w, atL);
    if !s.alive then w
    else
      var w' := w.(net := DeliverStep(c, w.net, atL, frame));
      match OpenFrame(c, EndAt(w.net, atL).session, frame).1
      case Err(_) => WithSide(w', atL, s.(alive := false))
      case Ok(inner) =>
        var r := DispatchBytes(s.router, !atL, inner);
        WithSide(w', atL, s.(router := r,
                             sent := Grown(s.sent, |r.all|, []),
                             since := Grown(s.since, |r.all|, Some(0))))
  }

  // A stream opened by the peer has sent nothing, and its table entry is there from the start.
  function Grown<T>(xs: seq<T>, n: nat, x: T): seq<T> {
    if |xs| < n then xs + [x] else xs
  }

  function Step(c: Aead, w: World, ev: Event): World
    requires Shape(w.l) && Shape(w.t)
    ensures Shape(Step(c, w, ev).l) && Shape(Step(c, w, ev).t)
  {
    match ev
    case Accept(udp, remote) => w.(l := AcceptOn(w.l, udp, remote))
    case Registers => w.(l := RegisterOn(w.l))
    case Upload(atL, k, payload) => WithSide(w, atL, UploadOn(SideAt(w, atL), k, payload))
    case Finish(atL, k) => WithSide(w, atL, FinishOn(SideAt(w, atL), k))
    case PumpEnds(atL, k) => WithSide(w, atL, PumpEndsOn(SideAt(w, atL), k))
    case EngineTakes(atL) => EngineStep(c, w, atL)
    case Relay(atL, frame) => RelayStep(c, w, atL, frame)
  }

  ghost predicate Start(w: World) {
    && Matched(w.net) && DistinctKeys(w.net)
    && w.l == w.t == Side([], 0, Router(map[], []), [], [], true)
  }

  function Run(c: Aead, start: World, evs: seq<Event>): (w: World)
    requires Shape(start.l) && Shape(start.t)
    ensures Shape(w.l) && Shape(w.t)
  {
    if evs == [] then start else Step(c, Run(c, start, evs[..|evs| - 1]), evs[|evs| - 1])
  }

  ghost predicate Forgery(c: Aead, w: World, ev: Event) {
    ev.Relay? && SideAt(w, ev.atL).alive && Forged(c, w.net, DeliverTo(ev.atL, ev.frame))
  }

  ghost predicate ForgeryIn(c: Aead, start: World, evs: seq<Event>)
    requires Shape(start.l) && Shape(start.t)
  {
    exists i :: 0 <= i < |evs| && Forgery(c, Run(c, start, evs[..i]), evs[i])
  }

  // ----- what a sequence of inner frames says ----------------------------------------

  function Decoded(inner: Bytes): Inner {
    match InnerDecode(inner)
    case None => Inner(0, 0, [])
    case Some(f) => f
  }

  predicate IsOpen(f: Inner) {
    f.kind == KIND_OPEN_TCP || f.kind == KIND_OPEN_UDP
  }

  // The DATA payloads carried for one stream id, in order.
  function DataOf(frames: seq<Bytes>, sid: u32): seq<Bytes> {
    if frames == [] then []
    else
      var f := Decoded(frames[|frames| - 1]);
      DataOf(frames[..|frames| - 1], sid) + if f.kind == KIND_DATA && f.sid == sid then [f.payload] else []
  }

  // Everything carried for one stream id: DATA payloads and CLOSEs, in order.
  function MsgsOf(frames: seq<Bytes>, sid: u32): seq<Msg> {
    if frames == [] then [] else MsgsOf(frames[..|frames| - 1], sid) + MsgsIn(Decoded(frames[|frames| - 1]), sid)
  }

  function MsgsIn(f: Inner, sid: u32): seq<Msg> {
    if f.sid != sid then []
    else if f.kind == KIND_DATA then [Data(f.payload)]
    else if f.kind == KIND_CLOSE then [Close]
    else []
  }

  // The OPEN frames, in order.
  function OpensOf(frames: seq<Bytes>): seq<Inner> {
    if frames == [] then []
    else
      var f := Decoded(frames[|frames| - 1]);
      OpensOf(frames[..|frames| - 1]) + if IsOpen(f) then [f] else []
  }

  function SendsOf(cmds: seq<Command>): seq<Bytes> {
    if cmds == [] then []
    else
      var cmd := cmds[|cmds| - 1];
      SendsOf(cmds[..|cmds| - 1]) + if cmd.Send? then [cmd.inner] else []
  }

  function RegistersOf(cmds: seq<Command>): seq<nat> {
    if cmds == [] then []
    else
      var cmd := cmds[|cmds| - 1];
      RegistersOf(cmds[..|cmds| - 1]) + if cmd.Register? then [cmd.index] else []
  }

  function Payloads(ms: seq<Msg>): seq<Bytes> {
    if ms == [] then []
    else
      var m := ms[|ms| - 1];
      Payloads(ms[..|ms| - 1]) + if m.Data? then [m.bytes] else []
  }

  lemma FramesSnoc(xs: seq<Bytes>, x: Bytes, sid: u32)
    ensures DataOf(xs + [x], sid)
            == DataOf(xs, sid) + if Decoded(x).kind == KIND_DATA && Decoded(x).sid == sid then [Decoded(x).payload] else []
    ensures OpensOf(xs + [x]) == OpensOf(xs) + if IsOpen(Decoded(x)) then [Decoded(x)] else []
  {
    assert (xs + [x])[..|xs|] == xs;
  }

  lemma MsgsSnoc(xs: seq<Bytes>, x: Bytes, sid: u32)
    ensures MsgsOf(xs + [x], sid) == MsgsOf(xs, sid) + MsgsIn(Decoded(x), sid)
  {
    assert (xs + [x])[..|xs|] == xs;
  }

  lemma {:induction false} MsgsPrefix(xs: seq<Bytes>, ys: seq<Bytes>, sid: u32)
    requires xs <= ys
    ensures MsgsOf(xs, sid) <= MsgsOf(ys, sid)
  {
    if |xs| < |ys| {
      MsgsPrefix(xs, ys[..|ys| - 1], sid);
    } else {
      assert xs == ys;
    }
  }

  // The data are the payloads among the messages.
  lemma {:induction false} DataIsPayloads(frames: seq<Bytes>, sid: u32)
    ensures DataOf(frames, sid) == Payloads(MsgsOf(frames, sid))
  {
    if frames != [] {
      var init, f := frames[..|frames| - 1], Decoded(frames[|frames| - 1]);
      DataIsPayloads(init, sid);
      PayloadsSnoc(MsgsOf(init, sid), Data(f.payload));
      PayloadsSnoc(MsgsOf(init, sid), Close);
      assert MsgsOf(init, sid) + [] == MsgsOf(init, sid);
    }
  }

  lemma CmdsSnoc(xs: seq<Command>, x: Command)
    ensures SendsOf(xs + [x]) == SendsOf(xs) + if x.Send? then [x.inner] else []
    ensures RegistersOf(xs + [x]) == RegistersOf(xs) + if x.Register? then [x.index] else []
  {
    assert (xs + [x])[..|xs|] == xs;
  }

  lemma PayloadsSnoc(xs: seq<Msg>, x: Msg)
    ensures Payloads(xs + [x]) == Payloads(xs) + if x.Data? then [x.bytes] else []
  {
    assert (xs + [x])[..|xs|] == xs;
  }

  lemma {:induction false} FramesPrefix(xs: seq<Bytes>, ys: seq<Bytes>, sid: u32)
    requires xs <= ys
    ensures DataOf(xs, sid) <= DataOf(ys, sid) && OpensOf(xs) <= OpensOf(ys)
  {
    if |xs| < |ys| {
      FramesPrefix(xs, ys[..|ys| - 1], sid);
    } else {
      assert xs == ys;
    }
  }

  lemma {:induction false} CmdsPrefix(xs: seq<Command>, n: nat)
    requires n <= |xs|
    ensures SendsOf(xs[..n]) <= SendsOf(xs) && RegistersOf(xs[..n]) <= RegistersOf(xs)
  {
    if n < |xs| {
      CmdsPrefix(xs[..|xs| - 1], n);
      assert xs[..|xs| - 1][..n] == xs[..n];
    } else {
      assert xs[..n] == xs;
    }
  }
}
