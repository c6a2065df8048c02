// What every run of the tunnel keeps: streams never mix, and each stream's bytes stay in order.
module MuxSafety {
  import opened Base
  import opened Bytes
  import opened Crypto
  import Channel
  import opened Mux

  // ----- stream ids ------------------------------------------------------------------

  // The wrapping counter hands out distinct ids for exactly the first 2^32 streams.
  lemma SidsAreDistinct(n: nat)
    ensures (forall i, j :: 0 <= i < j < n ==> SidOf(i) != SidOf(j)) <==> n <= U32_LIMIT
  {
    if n > U32_LIMIT {
      assert SidOf(0) == SidOf(U32_LIMIT);
    } else {
      forall i, j | 0 <= i < j < n
        ensures SidOf(i) != SidOf(j)
      {
        assert SidOf(i) == (if i + 1 == U32_LIMIT then 0 else i + 1);
        assert SidOf(j) == (if j + 1 == U32_LIMIT then 0 else j + 1);
      }
    }
  }

  ghost predicate Distinct(all: seq<Stream>) {
    forall i, j :: 0 <= i < j < |all| ==> all[i].sid != all[j].sid
  }

  function OpenFrame(s: Stream): Inner {
    Inner(s.kind, s.sid, s.addr)
  }

  ghost predicate Opened(frames: seq<Bytes>, sid: u32) {
    exists q :: 0 <= q < |OpensOf(frames)| && OpensOf(frames)[q].sid == sid
  }

  // No stream carries anything before it is opened.
  ghost predicate OpenedFirst(frames: seq<Bytes>) {
    forall n, sid: u32 {:trigger MsgsOf(frames[..n], sid)} ::
      0 <= n <= |frames| && !Opened(frames[..n], sid) ==> MsgsOf(frames[..n], sid) == []
  }

  lemma OpenedSnoc(xs: seq<Bytes>, x: Bytes, sid: u32)
    requires Opened(xs, sid)
    ensures Opened(xs + [x], sid)
  {
    FramesSnoc(xs, x, sid);
    var q :| 0 <= q < |OpensOf(xs)| && OpensOf(xs)[q].sid == sid;
    assert OpensOf(xs + [x])[q].sid == sid;
  }

  lemma OpenedFirstSnoc(xs: seq<Bytes>, x: Bytes)
    requires OpenedFirst(xs)
    requires IsOpen(Decoded(x)) || Opened(xs, Decoded(x).sid)
    ensures OpenedFirst(xs + [x])
  {
    forall n, sid: u32 | 0 <= n <= |xs| + 1 && !Opened((xs + [x])[..n], sid)
      ensures MsgsOf((xs + [x])[..n], sid) == []
    {
      if n <= |xs| {
        assert (xs + [x])[..n] == xs[..n];
      } else {
        assert (xs + [x])[..n] == xs + [x] && xs[..|xs|] == xs;
        MsgsSnoc(xs, x, sid);
        if Opened(xs[..|xs|], sid) {
          OpenedSnoc(xs, x, sid);
          assert false;
        }
      }
    }
  }

  // ----- one side --------------------------------------------------------------------

  // Each stream's queued DATA frames are exactly what its socket produced.
  ghost predicate Outbound(s: Side)
    requires Shape(s)
  {
    && (forall k :: 0 <= k < |s.router.all| ==> DataOf(SendsOf(s.cmds), s.router.all[k].sid) == s.sent[k])
    && (forall sid: u32 :: (forall k :: 0 <= k < |s.router.all| ==> s.router.all[k].sid != sid)
                           ==> DataOf(SendsOf(s.cmds), sid) == [])
  }

  ghost predicate Routed(r: Router, k: nat, since: Option<nat>, received: seq<Bytes>)
    requires k < |r.all|
  {
    var sid, got := r.all[k].sid, Payloads(r.all[k].got);
    var arrived := DataOf(received, sid);
    match since
    case None => r.all[k].got == []
    case Some(f) =>
      f <= |arrived| && got <= arrived[f..] && (sid in r.table && r.table[sid] == k ==> got == arrived[f..])
  }

  // Each stream was handed a run of the payloads that arrived for its id, starting where the
  // stream entered the table, and all of them while it is still there.
  ghost predicate Inbound(s: Side, received: seq<Bytes>)
    requires Shape(s)
  {
    && Distinct(s.router.all)
    && (forall sid :: sid in s.router.table ==>
          s.router.all[s.router.table[sid]].sid == sid && s.since[s.router.table[sid]].Some?)
    && (forall k :: 0 <= k < |s.router.all| ==> Routed(s.router, k, s.since[k], received))
  }

  // What the engine has sealed is what it has taken from the queue.
  ghost predicate SealedInOrder(s: Side, e: Channel.End)
    requires Shape(s)
  {
    && e.submitted <= SendsOf(s.cmds)
    && (s.alive ==> e.submitted == SendsOf(s.cmds[..s.done]))
  }

  // The OPEN frames queued are the streams', in order.
  ghost predicate OpensMatch(l: Side) {
    && (forall k :: 0 <= k < |l.router.all| ==> l.router.all[k].sid == SidOf(k))
    && |OpensOf(SendsOf(l.cmds))| == |l.router.all|
    && (forall k :: 0 <= k < |l.router.all| ==> OpensOf(SendsOf(l.cmds))[k] == OpenFrame(l.router.all[k]))
  }

  // The Registers queued are of the first streams, in order, and those taken are the streams that have entered the table.
  ghost predicate RegistersMatch(l: Side)
    requires Shape(l)
  {
    && |RegistersOf(l.cmds)| <= |l.router.all|
    && (forall k :: 0 <= k < |RegistersOf(l.cmds)| ==> RegistersOf(l.cmds)[k] == k)
    && (forall i :: 0 <= i < |l.cmds| && l.cmds[i].Register? ==> l.cmds[i].sid == SidOf(l.cmds[i].index))
    && (forall k :: 0 <= k < |l.router.all| ==> (l.since[k].Some? <==> k < |RegistersOf(l.cmds[..l.done])|))
  }

  ghost predicate ListenerInv(l: Side)
    requires Shape(l)
  {
    OpensMatch(l) && OpenedFirst(SendsOf(l.cmds)) && RegistersMatch(l)
  }

  ghost predicate TargetInv(t: Side, received: seq<Bytes>)
    requires Shape(t)
  {
    && |OpensOf(received)| == |t.router.all|
    && (forall k :: 0 <= k < |t.router.all| ==> OpensOf(received)[k] == OpenFrame(t.router.all[k]))
    && (forall k :: 0 <= k < |t.since| ==> t.since[k] == Some(0))
    && (forall i :: 0 <= i < |t.cmds| ==> t.cmds[i].Send?)
  }

  ghost predicate SideInv(s: Side, e: Channel.End) {
    Shape(s) && Outbound(s) && Inbound(s, e.received) && SealedInOrder(s, e)
  }

  ghost predicate ChannelInv(c: Aead, n: Channel.Net) {
    Channel.Uses(c, n) && Channel.Ordered(n)
  }

  ghost predicate ListenerSideInv(w: World) {
    SideInv(w.l, w.net.a) && ListenerInv(w.l)
  }

  ghost predicate TargetSideInv(w: World) {
    SideInv(w.t, w.net.b) && TargetInv(w.t, w.net.b.received)
  }

  ghost predicate Inv(c: Aead, w: World) {
    ChannelInv(c, w.net) && ListenerSideInv(w) && TargetSideInv(w)
  }

  // ----- queueing --------------------------------------------------------------------

  lemma QueueingKeepsSealed(s: Side, s': Side, e: Channel.End, cmd: Command)
    requires Shape(s) && Shape(s') && SealedInOrder(s, e)
    requires s'.cmds == s.cmds + [cmd] && s'.done == s.done && s'.alive == s.alive
    ensures SealedInOrder(s', e)
    ensures s'.cmds[..s'.done] == s.cmds[..s.done]
  {
    CmdsSnoc(s.cmds, cmd);
    assert s'.cmds[..s'.done] == s.cmds[..s.done];
  }

  lemma RegisterCommands(s: Side)
    requires Shape(s) && |RegistersOf(s.cmds)| < |s.router.all|
    ensures SendsOf(RegisterOn(s).cmds) == SendsOf(s.cmds)
    ensures RegistersOf(RegisterOn(s).cmds) == RegistersOf(s.cmds) + [|RegistersOf(s.cmds)|]
    ensures RegisterOn(s).cmds[..s.done] == s.cmds[..s.done]
  {
    var k := |RegistersOf(s.cmds)|;
    CmdsSnoc(s.cmds, Register(s.router.all[k].sid, k));
  }

  lemma RegisteringKeepsSide(s: Side, e: Channel.End)
    requires SideInv(s, e)
    ensures SideInv(RegisterOn(s), e)
  {
    if |RegistersOf(s.cmds)| < |s.router.all| {
      RegisterCommands(s);
      var s' := RegisterOn(s);
      assert s'.router == s.router && s'.since == s.since && s'.sent == s.sent;
      assert Outbound(s') && SealedInOrder(s', e);
      assert Inbound(s', e.received);
    }
  }

  lemma RegisteringKeepsListener(l: Side)
    requires Shape(l) && ListenerInv(l)
    ensures ListenerInv(RegisterOn(l))
  {
    if |RegistersOf(l.cmds)| < |l.router.all| {
      RegisterCommands(l);
      var l' := RegisterOn(l);
      assert l'.router == l.router && l'.since == l.since && l'.done == l.done;
      assert OpensMatch(l') && OpenedFirst(SendsOf(l'.cmds));
      assert RegistersMatch(l');
    }
  }

  lemma UploadKeepsSide(s: Side, e: Channel.End, k: nat, payload: Bytes)
    requires SideInv(s, e)
    ensures SideInv(UploadOn(s, k, payload), e)
  {
    var s' := UploadOn(s, k, payload);
    if k < |s.router.all| {
      var f := Inner(KIND_DATA, s.router.all[k].sid, payload);
      var cmd := Send(InnerEncode(f));
      InnerRoundTrip(f);
      QueueingKeepsSealed(s, s', e, cmd);
      CmdsSnoc(s.cmds, cmd);
      forall sid: u32
        ensures DataOf(SendsOf(s'.cmds), sid)
                == DataOf(SendsOf(s.cmds), sid) + if sid == f.sid then [payload] else []
      {
        FramesSnoc(SendsOf(s.cmds), cmd.inner, sid);
      }
    }
  }

  lemma FinishKeepsSide(s: Side, e: Channel.End, k: nat)
    requires SideInv(s, e)
    ensures SideInv(FinishOn(s, k), e)
  {
    var s' := FinishOn(s, k);
    if k < |s.router.all| {
      var f := Inner(KIND_CLOSE, s.router.all[k].sid, []);
      var cmd := Send(InnerEncode(f));
      InnerRoundTrip(f);
      QueueingKeepsSealed(s, s', e, cmd);
      CmdsSnoc(s.cmds, cmd);
      forall sid: u32
        ensures DataOf(SendsOf(s'.cmds), sid) == DataOf(SendsOf(s.cmds), sid)
      {
        FramesSnoc(SendsOf(s.cmds), cmd.inner, sid);
      }
    }
  }

  // Queueing DATA or CLOSE for an open stream adds no OPEN and no Register.
  lemma QueueKeepsListener(l: Side, l': Side, f: Inner, k: nat)
    requires Shape(l) && Shape(l') && ListenerInv(l)
    requires k < |l.router.all| && f.sid == l.router.all[k].sid && !IsOpen(f)
    requires l' == Queue(l, f).(sent := l'.sent)
    ensures ListenerInv(l')
  {
    var cmd := Send(InnerEncode(f));
    InnerRoundTrip(f);
    CmdsSnoc(l.cmds, cmd);
    FramesSnoc(SendsOf(l.cmds), cmd.inner, f.sid);
    assert OpensOf(SendsOf(l.cmds))[k].sid == f.sid;
    OpenedFirstSnoc(SendsOf(l.cmds), cmd.inner);
    assert l'.cmds[..l'.done] == l.cmds[..l.done];
  }

  lemma AcceptCommands(l: Side, udp: bool, remote: Bytes)
    requires Shape(l)
    ensures var l' := AcceptOn(l, udp, remote);
            && l'.cmds[..l'.done] == l.cmds[..l.done]
            && SendsOf(l'.cmds) == SendsOf(l.cmds) + [InnerEncode(OpenFrame(l'.router.all[|l.router.all|]))]
            && RegistersOf(l'.cmds) == RegistersOf(l.cmds)
  {
    var l' := AcceptOn(l, udp, remote);
    CmdsSnoc(l.cmds, Send(InnerEncode(OpenFrame(l'.router.all[|l.router.all|]))));
    assert l'.cmds[..l'.done] == l.cmds[..l.done];
  }

  lemma OpenAppended(frames: seq<Bytes>, f: Inner)
    requires IsOpen(f)
    ensures OpensOf(frames + [InnerEncode(f)]) == OpensOf(frames) + [f]
    ensures OpenedFirst(frames) ==> OpenedFirst(frames + [InnerEncode(f)])
    ensures forall sid: u32 :: DataOf(frames + [InnerEncode(f)], sid) == DataOf(frames, sid)
  {
    InnerRoundTrip(f);
    if OpenedFirst(frames) {
      OpenedFirstSnoc(frames, InnerEncode(f));
    }
    forall sid: u32
      ensures DataOf(frames + [InnerEncode(f)], sid) == DataOf(frames, sid)
    {
      FramesSnoc(frames, InnerEncode(f), sid);
    }
    FramesSnoc(frames, InnerEncode(f), 0);
  }

  lemma AcceptKeepsRoutes(l: Side, received: seq<Bytes>, udp: bool, remote: Bytes)
    requires Shape(l) && Inbound(l, received) && |l.router.all| < U32_LIMIT
    requires forall k :: 0 <= k < |l.router.all| ==> l.router.all[k].sid == SidOf(k)
    ensures Inbound(AcceptOn(l, udp, remote), received)
  {
    var l' := AcceptOn(l, udp, remote);
    SidsAreDistinct(|l.router.all| + 1);
    forall j | 0 <= j < |l'.router.all|
      ensures Routed(l'.router, j, l'.since[j], received)
    {
      if j < |l.router.all| {
        assert Routed(l.router, j, l.since[j], received);
      }
    }
  }

  lemma AcceptKeepsOutbound(l: Side, udp: bool, remote: Bytes)
    requires Shape(l) && Outbound(l) && |l.router.all| < U32_LIMIT
    requires forall k :: 0 <= k < |l.router.all| ==> l.router.all[k].sid == SidOf(k)
    ensures Outbound(AcceptOn(l, udp, remote))
  {
    var l' := AcceptOn(l, udp, remote);
    AcceptCommands(l, udp, remote);
    OpenAppended(SendsOf(l.cmds), OpenFrame(l'.router.all[|l.router.all|]));
    SidsAreDistinct(|l.router.all| + 1);
    assert DataOf(SendsOf(l.cmds), SidOf(|l.router.all|)) == [];
    forall sid: u32 | forall k :: 0 <= k < |l'.router.all| ==> l'.router.all[k].sid != sid
      ensures DataOf(SendsOf(l.cmds), sid) == []
    {
      assert forall k :: 0 <= k < |l.router.all| ==> l.router.all[k] == l'.router.all[k];
    }
  }

  lemma AcceptKeepsOpens(l: Side, udp: bool, remote: Bytes)
    requires Shape(l) && OpensMatch(l)
    ensures OpensMatch(AcceptOn(l, udp, remote))
  {
    var l', n := AcceptOn(l, udp, remote), |l.router.all|;
    var opens := OpensOf(SendsOf(l.cmds));
    AcceptCommands(l, udp, remote);
    OpenAppended(SendsOf(l.cmds), OpenFrame(l'.router.all[n]));
    assert OpensOf(SendsOf(l'.cmds)) == opens + [OpenFrame(l'.router.all[n])];
    forall k | 0 <= k < |l'.router.all|
      ensures l'.router.all[k].sid == SidOf(k) && OpensOf(SendsOf(l'.cmds))[k] == OpenFrame(l'.router.all[k])
    {
      if k < n {
        assert l'.router.all[k] == l.router.all[k];
      }
    }
  }

  lemma AcceptKeepsOpenedFirst(l: Side, udp: bool, remote: Bytes)
    requires Shape(l) && OpenedFirst(SendsOf(l.cmds))
    ensures OpenedFirst(SendsOf(AcceptOn(l, udp, remote).cmds))
  {
    AcceptCommands(l, udp, remote);
    OpenAppended(SendsOf(l.cmds), OpenFrame(AcceptOn(l, udp, remote).router.all[|l.router.all|]));
  }

  lemma AcceptKeepsRegisters(l: Side, udp: bool, remote: Bytes)
    requires Shape(l) && RegistersMatch(l)
    ensures RegistersMatch(AcceptOn(l, udp, remote))
  {
    AcceptCommands(l, udp, remote);
    CmdsPrefix(l.cmds, l.done);
  }

  lemma AcceptKeepsListener(l: Side, udp: bool, remote: Bytes)
    requires Shape(l) && ListenerInv(l)
    ensures ListenerInv(AcceptOn(l, udp, remote))
  {
    AcceptKeepsOpens(l, udp, remote);
    AcceptKeepsOpenedFirst(l, udp, remote);
    AcceptKeepsRegisters(l, udp, remote);
  }

  // ----- the engine takes a command --------------------------------------------------

  lemma TakenIsSealed(s: Side)
    requires s.done < |s.cmds|
    ensures SendsOf(s.cmds[..s.done + 1]) == SendsOf(s.cmds[..s.done]) + if s.cmds[s.done].Send? then [s.cmds[s.done].inner] else []
    ensures SendsOf(s.cmds[..s.done + 1]) <= SendsOf(s.cmds)
  {
    assert s.cmds[..s.done + 1] == s.cmds[..s.done] + [s.cmds[s.done]];
    CmdsSnoc(s.cmds[..s.done], s.cmds[s.done]);
    CmdsPrefix(s.cmds, s.done + 1);
  }

  lemma TakeKeepsSealed(c: Aead, w: World, atL: bool)
    requires Shape(SideAt(w, atL)) && SealedInOrder(SideAt(w, atL), Channel.EndAt(w.net, atL))
    ensures SealedInOrder(SideAt(EngineStep(c, w, atL), atL), Channel.EndAt(EngineStep(c, w, atL).net, atL))
  {
    var s := SideAt(w, atL);
    if s.alive && s.done < |s.cmds| {
      TakenIsSealed(s);
    }
  }

  // The Register the engine takes is the next stream's.
  lemma TakenRegister(l: Side)
    requires Shape(l) && ListenerInv(l) && l.done < |l.cmds| && l.cmds[l.done].Register?
    ensures var k := l.cmds[l.done].index;
            && RegistersOf(l.cmds[..l.done + 1]) == RegistersOf(l.cmds[..l.done]) + [k]
            && k == |RegistersOf(l.cmds[..l.done])| < |l.router.all| && l.cmds[l.done].sid == l.router.all[k].sid
  {
    assert l.cmds[..l.done + 1] == l.cmds[..l.done] + [l.cmds[l.done]];
    CmdsSnoc(l.cmds[..l.done], l.cmds[l.done]);
    CmdsPrefix(l.cmds, l.done + 1);
    var regs := RegistersOf(l.cmds[..l.done + 1]);
    assert regs[|regs| - 1] == RegistersOf(l.cmds)[|regs| - 1];
  }

  // The stream enters the table with what has arrived for it so far behind it.
  lemma EnteringKeepsInbound(l: Side, l': Side, received: seq<Bytes>, k: nat)
    requires Shape(l) && Shape(l') && Inbound(l, received) && k < |l.router.all| && l.since[k].None?
    requires l' == l.(done := l'.done, router := l.router.(table := l.router.table[l.router.all[k].sid := k]),
                      since := l.since[k := Some(|DataOf(received, l.router.all[k].sid)|)])
    ensures Inbound(l', received)
  {
    forall j | 0 <= j < |l'.router.all|
      ensures Routed(l'.router, j, l'.since[j], received)
    {
      assert Routed(l.router, j, l.since[j], received);
    }
  }

  lemma RegisterKeepsListener(c: Aead, w: World)
    requires ListenerSideInv(w)
    requires w.l.alive && w.l.done < |w.l.cmds| && w.l.cmds[w.l.done].Register?
    ensures Inbound(EngineStep(c, w, true).l, w.net.a.received) && ListenerInv(EngineStep(c, w, true).l)
  {
    TakenRegister(w.l);
    EnteringKeepsInbound(w.l, EngineStep(c, w, true).l, w.net.a.received, w.l.cmds[w.l.done].index);
  }

  lemma SendKeepsListener(c: Aead, w: World)
    requires Shape(w.l) && ListenerInv(w.l)
    requires w.l.alive && w.l.done < |w.l.cmds| && w.l.cmds[w.l.done].Send?
    ensures ListenerInv(EngineStep(c, w, true).l)
  {
    assert w.l.cmds[..w.l.done + 1] == w.l.cmds[..w.l.done] + [w.l.cmds[w.l.done]];
    CmdsSnoc(w.l.cmds[..w.l.done], w.l.cmds[w.l.done]);
  }

  lemma TakeKeepsListenerSide(c: Aead, w: World)
    requires ListenerSideInv(w)
    ensures ListenerSideInv(EngineStep(c, w, true))
  {
    TakeKeepsSealed(c, w, true);
    if w.l.alive && w.l.done < |w.l.cmds| {
      if w.l.cmds[w.l.done].Register? {
        RegisterKeepsListener(c, w);
      } else {
        SendKeepsListener(c, w);
      }
    }
  }

  lemma TakeKeepsTargetSide(c: Aead, w: World)
    requires TargetSideInv(w)
    ensures TargetSideInv(EngineStep(c, w, false))
  {
    TakeKeepsSealed(c, w, false);
  }

  lemma TakeKeepsOthers(c: Aead, w: World, atL: bool)
    requires Inv(c, w)
    ensures ChannelInv(c, EngineStep(c, w, atL).net)
    ensures if atL then TargetSideInv(EngineStep(c, w, atL)) else ListenerSideInv(EngineStep(c, w, atL))
  {
    var s := SideAt(w, atL);
    if s.alive && s.done < |s.cmds| && s.cmds[s.done].Send? {
      Channel.SealKeepsInvariants(c, w.net, atL, s.cmds[s.done].inner);
    }
  }

  lemma TakeKeepsInv(c: Aead, w: World, atL: bool)
    requires Inv(c, w)
    ensures Inv(c, EngineStep(c, w, atL))
  {
    TakeKeepsOthers(c, w, atL);
    if atL {
      TakeKeepsListenerSide(c, w);
    } else {
      TakeKeepsTargetSide(c, w);
    }
  }

  // ----- a frame comes in ------------------------------------------------------------

  lemma ArrivedGrows(received: seq<Bytes>, inner: Bytes, sid: u32, f: nat)
    requires f <= |DataOf(received, sid)|
    ensures DataOf(received, sid) <= DataOf(received + [inner], sid)
    ensures DataOf(received + [inner], sid)[f..]
            == DataOf(received, sid)[f..]
               + if Decoded(inner).kind == KIND_DATA && Decoded(inner).sid == sid then [Decoded(inner).payload] else []
  {
    FramesSnoc(received, inner, sid);
  }

  // The table leads stream k's id to it.
  ghost predicate Listed(r: Router, k: nat)
    requires k < |r.all|
  {
    r.all[k].sid in r.table && r.table[r.all[k].sid] == k
  }

  // A frame that leaves stream k as it was keeps its routing, if what arrived for its id did not
  // grow or it was not in the table.
  lemma UntouchedRoutes(r: Router, r': Router, k: nat, since: Option<nat>, received: seq<Bytes>, inner: Bytes)
    requires k < |r.all| && k < |r'.all| && r'.all[k] == r.all[k] && Routed(r, k, since, received)
    requires Listed(r', k) ==> Listed(r, k) && DataOf(received + [inner], r.all[k].sid) == DataOf(received, r.all[k].sid)
    ensures Routed(r', k, since, received + [inner])
  {
    if since.Some? {
      ArrivedGrows(received, inner, r.all[k].sid, since.value);
    }
  }

  // A frame for a stream that is in the table is handed on to it.
  lemma HandedOnRoutes(r: Router, k: nat, since: Option<nat>, received: seq<Bytes>, inner: Bytes)
    requires IndicesInRange(r) && k < |r.all| && !IsOpen(Decoded(inner))
    requires Routed(r, k, since, received) && since.Some? && Listed(r, k) && Decoded(inner).sid == r.all[k].sid
    ensures Routed(DispatchBytes(r, true, inner), k, since, received + [inner])
  {
    var f, got := Decoded(inner), r.all[k].got;
    ArrivedGrows(received, inner, f.sid, since.value);
    PayloadsSnoc(got, Data(f.payload));
    PayloadsSnoc(got, Close);
  }

  // One stream's view of an inbound frame that opens nothing: handed on, or dropped because
  // the stream is not in the table.
  lemma DispatchRoutes(r: Router, k: nat, since: Option<nat>, received: seq<Bytes>, inner: Bytes)
    requires IndicesInRange(r) && k < |r.all| && !IsOpen(Decoded(inner))
    requires Routed(r, k, since, received)
    requires forall sid :: sid in r.table && r.table[sid] == k ==> sid == r.all[k].sid && since.Some?
    ensures Routed(DispatchBytes(r, true, inner), k, since, received + [inner])
  {
    if Listed(r, k) && Decoded(inner).sid == r.all[k].sid {
      HandedOnRoutes(r, k, since, received, inner);
    } else {
      FramesSnoc(received, inner, r.all[k].sid);
      assert DispatchBytes(r, true, inner).all[k] == r.all[k];
      UntouchedRoutes(r, DispatchBytes(r, true, inner), k, since, received, inner);
    }
  }

  lemma DispatchKeepsStreams(r: Router, inner: Bytes)
    requires IndicesInRange(r) && !IsOpen(Decoded(inner))
    ensures var r' := DispatchBytes(r, true, inner);
            && r' == DispatchBytes(r, false, inner)
            && |r'.all| == |r.all|
            && (forall k :: 0 <= k < |r.all| ==> r'.all[k].sid == r.all[k].sid && OpenFrame(r'.all[k]) == OpenFrame(r.all[k]))
            && (forall sid :: sid in r'.table ==> sid in r.table && r'.table[sid] == r.table[sid])
  {
  }

  lemma DispatchKeepsInbound(s: Side, received: seq<Bytes>, inner: Bytes)
    requires Shape(s) && Inbound(s, received)
    requires !IsOpen(Decoded(inner))
    ensures Shape(s.(router := DispatchBytes(s.router, true, inner)))
    ensures Inbound(s.(router := DispatchBytes(s.router, true, inner)), received + [inner])
  {
    var r' := DispatchBytes(s.router, true, inner);
    DispatchKeepsStreams(s.router, inner);
    forall k | 0 <= k < |s.router.all|
      ensures Routed(r', k, s.since[k], received + [inner])
    {
      assert Routed(s.router, k, s.since[k], received);
      DispatchRoutes(s.router, k, s.since[k], received, inner);
    }
  }

  // An OPEN frame that the target takes: it is the listener's next stream.
  lemma OpenKeepsTarget(c: Aead, w: World, inner: Bytes)
    requires Inv(c, w) && |w.l.router.all| <= U32_LIMIT
    requires w.net.b.received + [inner] <= SendsOf(w.l.cmds)
    requires IsOpen(Decoded(inner))
    ensures var k := |w.t.router.all|;
            && k < |w.l.router.all| && Decoded(inner) == OpenFrame(w.l.router.all[k])
            && (forall j :: 0 <= j < k ==> w.t.router.all[j].sid != Decoded(inner).sid)
            && MsgsOf(w.net.b.received, Decoded(inner).sid) == [] && DataOf(w.net.b.received, Decoded(inner).sid) == []
            && DataOf(SendsOf(w.t.cmds), Decoded(inner).sid) == []
  {
    var R, all := w.net.b.received, SendsOf(w.l.cmds);
    var f, k := Decoded(inner), |w.t.router.all|;
    FramesSnoc(R, inner, f.sid);
    FramesPrefix(R + [inner], all, f.sid);
    assert OpensOf(all)[k] == OpensOf(R + [inner])[k] == f;
    SidsAreDistinct(|w.l.router.all|);
    forall j | 0 <= j < k
      ensures w.t.router.all[j].sid != f.sid
    {
      assert OpensOf(all)[j] == OpensOf(R + [inner])[j] == OpensOf(R)[j] == OpenFrame(w.t.router.all[j]);
      assert w.l.router.all[j].sid == SidOf(j) && w.l.router.all[k].sid == SidOf(k);
    }
    assert R == all[..|R|];
    forall q | 0 <= q < |OpensOf(R)|
      ensures OpensOf(R)[q].sid != f.sid
    {
      assert OpensOf(R)[q] == OpenFrame(w.t.router.all[q]);
    }
    assert MsgsOf(all[..|R|], f.sid) == [];
    DataIsPayloads(R, f.sid);
  }

  lemma OpenRoutes(r: Router, k: nat, since: Option<nat>, received: seq<Bytes>, inner: Bytes)
    requires k < |r.all| && IsOpen(Decoded(inner)) && Routed(r, k, since, received)
    requires r.all[k].sid != Decoded(inner).sid
    ensures Routed(OpenStream(r, Decoded(inner)), k, since, received + [inner])
  {
    FramesSnoc(received, inner, r.all[k].sid);
  }

  lemma NewStreamRoutes(r: Router, received: seq<Bytes>, inner: Bytes)
    requires IsOpen(Decoded(inner)) && DataOf(received, Decoded(inner).sid) == []
    ensures Routed(OpenStream(r, Decoded(inner)), |r.all|, Some(0), received + [inner])
  {
    FramesSnoc(received, inner, Decoded(inner).sid);
  }

  lemma OpenKeepsInbound(s: Side, received: seq<Bytes>, inner: Bytes)
    requires Shape(s) && Inbound(s, received) && IsOpen(Decoded(inner))
    requires forall j :: 0 <= j < |s.router.all| ==> s.router.all[j].sid != Decoded(inner).sid
    requires DataOf(received, Decoded(inner).sid) == []
    ensures Inbound(s.(router := OpenStream(s.router, Decoded(inner)), sent := s.sent + [[]], since := s.since + [Some(0)]),
                    received + [inner])
  {
    var f := Decoded(inner);
    var r', since' := OpenStream(s.router, f), s.since + [Some(0)];
    NewStreamRoutes(s.router, received, inner);
    forall k | 0 <= k < |r'.all|
      ensures Routed(r', k, since'[k], received + [inner])
    {
      if k < |s.router.all| {
        OpenRoutes(s.router, k, s.since[k], received, inner);
      }
    }
  }

  lemma OpenKeepsOutbound(s: Side, f: Inner)
    requires Shape(s) && Outbound(s) && DataOf(SendsOf(s.cmds), f.sid) == []
    ensures Outbound(s.(router := OpenStream(s.router, f), sent := s.sent + [[]], since := s.since + [Some(0)]))
  {
    var s' := s.(router := OpenStream(s.router, f), sent := s.sent + [[]], since := s.since + [Some(0)]);
    forall sid: u32 | forall k :: 0 <= k < |s'.router.all| ==> s'.router.all[k].sid != sid
      ensures DataOf(SendsOf(s.cmds), sid) == []
    {
      forall k | 0 <= k < |s.router.all|
        ensures s.router.all[k].sid != sid
      {
        assert s'.router.all[k] == s.router.all[k];
      }
    }
  }

  ghost predicate TargetAfter(t: Side, r: Router, received: seq<Bytes>)
    requires Shape(t) && IndicesInRange(r) && |t.router.all| <= |r.all| <= |t.router.all| + 1
  {
    var t' := t.(router := r, sent := Grown(t.sent, |r.all|, []), since := Grown(t.since, |r.all|, Some(0)));
    Shape(t') && Outbound(t') && Inbound(t', received) && TargetInv(t', received)
  }

  lemma OpenRelayedKeepsTarget(c: Aead, w: World, inner: Bytes)
    requires Inv(c, w) && |w.l.router.all| <= U32_LIMIT && IsOpen(Decoded(inner))
    requires w.net.b.received + [inner] <= SendsOf(w.l.cmds)
    ensures TargetAfter(w.t, DispatchBytes(w.t.router, true, inner), w.net.b.received + [inner])
  {
    OpenKeepsTarget(c, w, inner);
    OpenKeepsInbound(w.t, w.net.b.received, inner);
    OpenKeepsOutbound(w.t, Decoded(inner));
    OpenKeepsOpens(w.t, w.net.b.received, inner);
  }

  lemma OpenKeepsOpens(t: Side, received: seq<Bytes>, inner: Bytes)
    requires Shape(t) && TargetInv(t, received) && IsOpen(Decoded(inner))
    ensures TargetInv(t.(router := OpenStream(t.router, Decoded(inner)), sent := t.sent + [[]], since := t.since + [Some(0)]),
                      received + [inner])
  {
    FramesSnoc(received, inner, 0);
  }

  lemma OtherRelayedKeepsTarget(w: World, inner: Bytes)
    requires TargetSideInv(w) && !IsOpen(Decoded(inner))
    ensures TargetAfter(w.t, DispatchBytes(w.t.router, true, inner), w.net.b.received + [inner])
  {
    FramesSnoc(w.net.b.received, inner, 0);
    DispatchKeepsStreams(w.t.router, inner);
    DispatchKeepsInbound(w.t, w.net.b.received, inner);
  }

  lemma RelayKeepsTarget(c: Aead, w: World, inner: Bytes)
    requires Inv(c, w) && |w.l.router.all| <= U32_LIMIT
    requires w.net.b.received + [inner] <= SendsOf(w.l.cmds)
    ensures TargetAfter(w.t, DispatchBytes(w.t.router, true, inner), w.net.b.received + [inner])
  {
    if IsOpen(Decoded(inner)) {
      OpenRelayedKeepsTarget(c, w, inner);
    } else {
      OtherRelayedKeepsTarget(w, inner);
    }
  }

  lemma RelayKeepsListener(w: World, inner: Bytes)
    requires SideInv(w.l, w.net.a) && ListenerInv(w.l)
    ensures var l' := w.l.(router := DispatchBytes(w.l.router, false, inner));
            Shape(l') && Outbound(l') && Inbound(l', w.net.a.received + [inner]) && ListenerInv(l')
            && |l'.router.all| == |w.l.router.all|
  {
    if IsOpen(Decoded(inner)) {
      var l' := w.l.(router := DispatchBytes(w.l.router, false, inner));
      assert l' == w.l;
      forall k | 0 <= k < |w.l.router.all|
        ensures Routed(w.l.router, k, w.l.since[k], w.net.a.received + [inner])
      {
        FramesSnoc(w.net.a.received, inner, w.l.router.all[k].sid);
        assert Routed(w.l.router, k, w.l.since[k], w.net.a.received);
      }
    } else {
      DispatchKeepsStreams(w.l.router, inner);
      DispatchKeepsInbound(w.l, w.net.a.received, inner);
    }
  }

  lemma RelayKeepsInv(c: Aead, w: World, atL: bool, frame: Bytes)
    requires Lawful(c) && Inv(c, w) && |w.l.router.all| <= U32_LIMIT
    requires !Forgery(c, w, Relay(atL, frame))
    ensures Inv(c, RelayStep(c, w, atL, frame))
  {
    if SideAt(w, atL).alive {
      Channel.DeliverKeepsInvariants(c, w.net, atL, frame);
      if atL {
        RelayKeepsListenerSide(c, w, frame);
      } else {
        RelayKeepsTargetSide(c, w, frame);
      }
    }
  }

  lemma RelayKeepsListenerSide(c: Aead, w: World, frame: Bytes)
    requires ListenerSideInv(w) && TargetSideInv(w) && w.l.alive
    ensures ListenerSideInv(RelayStep(c, w, true, frame)) && TargetSideInv(RelayStep(c, w, true, frame))
  {
    var r := Channel.OpenFrame(c, w.net.a.session, frame).1;
    if r.Ok? {
      RelayKeepsListener(w, r.value);
    }
  }

  lemma RelayKeepsTargetSide(c: Aead, w: World, frame: Bytes)
    requires Inv(c, w) && w.t.alive && |w.l.router.all| <= U32_LIMIT
    requires Channel.Ordered(Channel.DeliverStep(c, w.net, false, frame))
    ensures ListenerSideInv(RelayStep(c, w, false, frame)) && TargetSideInv(RelayStep(c, w, false, frame))
  {
    var r := Channel.OpenFrame(c, w.net.b.session, frame).1;
    if r.Ok? {
      RelayKeepsTarget(c, w, r.value);
    }
  }

  // ----- runs ------------------------------------------------------------------------

  lemma PumpEndsKeepsSide(s: Side, e: Channel.End, k: nat)
    requires SideInv(s, e)
    ensures SideInv(PumpEndsOn(s, k), e)
  {
    var s' := PumpEndsOn(s, k);
    forall j | 0 <= j < |s.router.all|
      ensures Routed(s'.router, j, s'.since[j], e.received)
    {
      assert Routed(s.router, j, s.since[j], e.received);
    }
  }

  lemma SideKeepsInv(c: Aead, w: World, atL: bool, s: Side)
    requires Inv(c, w) && SideInv(s, Channel.EndAt(w.net, atL))
    requires if atL then ListenerInv(s) else TargetInv(s, w.net.b.received)
    ensures Inv(c, WithSide(w, atL, s))
  {
  }

  // A DATA or CLOSE frame of one of its streams is queued.
  lemma QueueKeepsInv(c: Aead, w: World, atL: bool, s': Side, f: Inner, k: nat)
    requires Inv(c, w) && k < |SideAt(w, atL).router.all| && !IsOpen(f) && f.sid == SideAt(w, atL).router.all[k].sid
    requires SideInv(s', Channel.EndAt(w.net, atL)) && s' == Queue(SideAt(w, atL), f).(sent := s'.sent)
    ensures Inv(c, WithSide(w, atL, s'))
  {
    if atL {
      QueueKeepsListener(w.l, s', f, k);
    }
    SideKeepsInv(c, w, atL, s');
  }

  lemma UploadKeepsInv(c: Aead, w: World, atL: bool, k: nat, payload: Bytes)
    requires Inv(c, w)
    ensures Inv(c, WithSide(w, atL, UploadOn(SideAt(w, atL), k, payload)))
  {
    var s := SideAt(w, atL);
    UploadKeepsSide(s, Channel.EndAt(w.net, atL), k, payload);
    if k < |s.router.all| {
      QueueKeepsInv(c, w, atL, UploadOn(s, k, payload), Inner(KIND_DATA, s.router.all[k].sid, payload), k);
    } else {
      assert WithSide(w, atL, s) == w;
    }
  }

  lemma FinishKeepsInv(c: Aead, w: World, atL: bool, k: nat)
    requires Inv(c, w)
    ensures Inv(c, WithSide(w, atL, FinishOn(SideAt(w, atL), k)))
  {
    var s := SideAt(w, atL);
    FinishKeepsSide(s, Channel.EndAt(w.net, atL), k);
    if k < |s.router.all| {
      QueueKeepsInv(c, w, atL, FinishOn(s, k), Inner(KIND_CLOSE, s.router.all[k].sid, []), k);
    } else {
      assert WithSide(w, atL, s) == w;
    }
  }

  lemma PumpEndsKeepsInv(c: Aead, w: World, atL: bool, k: nat)
    requires Inv(c, w)
    ensures Inv(c, WithSide(w, atL, PumpEndsOn(SideAt(w, atL), k)))
  {
    PumpEndsKeepsSide(SideAt(w, atL), Channel.EndAt(w.net, atL), k);
    SideKeepsInv(c, w, atL, PumpEndsOn(SideAt(w, atL), k));
  }

  lemma AcceptKeepsInv(c: Aead, w: World, udp: bool, remote: Bytes)
    requires Inv(c, w) && |w.l.router.all| < U32_LIMIT
    ensures Inv(c, w.(l := AcceptOn(w.l, udp, remote)))
  {
    AcceptKeepsRoutes(w.l, w.net.a.received, udp, remote);
    AcceptKeepsOutbound(w.l, udp, remote);
    AcceptKeepsListener(w.l, udp, remote);
    AcceptCommands(w.l, udp, remote);
    SideKeepsInv(c, w, true, AcceptOn(w.l, udp, remote));
  }

  lemma RegisteringKeepsInv(c: Aead, w: World)
    requires Inv(c, w)
    ensures Inv(c, w.(l := RegisterOn(w.l)))
  {
    RegisteringKeepsSide(w.l, w.net.a);
    RegisteringKeepsListener(w.l);
    SideKeepsInv(c, w, true, RegisterOn(w.l));
  }

  lemma StreamStepKeepsInv(c: Aead, w: World, ev: Event)
    requires Inv(c, w) && (ev.Upload? || ev.Finish? || ev.PumpEnds?)
    ensures Inv(c, Step(c, w, ev))
  {
    match ev
    case Upload(atL, k, payload) => UploadKeepsInv(c, w, atL, k, payload);
    case Finish(atL, k) => FinishKeepsInv(c, w, atL, k);
    case PumpEnds(atL, k) => PumpEndsKeepsInv(c, w, atL, k);
  }

  lemma StepKeepsInv(c: Aead, w: World, ev: Event)
    requires Lawful(c) && Inv(c, w) && !Forgery(c, w, ev)
    requires |w.l.router.all| <= |Step(c, w, ev).l.router.all| <= U32_LIMIT
    ensures Inv(c, Step(c, w, ev))
  {
    match ev
    case Accept(udp, remote) => AcceptKeepsInv(c, w, udp, remote);
    case Registers => RegisteringKeepsInv(c, w);
    case Upload(_, _, _) => StreamStepKeepsInv(c, w, ev);
    case Finish(_, _) => StreamStepKeepsInv(c, w, ev);
    case PumpEnds(_, _) => StreamStepKeepsInv(c, w, ev);
    case EngineTakes(atL) => TakeKeepsInv(c, w, atL);
    case Relay(atL, frame) => RelayKeepsInv(c, w, atL, frame);
  }

  lemma StreamsOnlyGrow(c: Aead, w: World, ev: Event)
    requires Shape(w.l) && Shape(w.t)
    ensures |w.l.router.all| <= |Step(c, w, ev).l.router.all|
  {
  }

  lemma ForgeryInPrefix(c: Aead, start: World, evs: seq<Event>)
    requires Shape(start.l) && Shape(start.t) && evs != [] && !ForgeryIn(c, start, evs)
    ensures !ForgeryIn(c, start, evs[..|evs| - 1])
    ensures !Forgery(c, Run(c, start, evs[..|evs| - 1]), evs[|evs| - 1])
  {
    var init := evs[..|evs| - 1];
    forall i | 0 <= i < |init|
      ensures !Forgery(c, Run(c, start, init[..i]), init[i])
    {
      assert evs[..i] == init[..i] && evs[i] == init[i];
    }
  }

  lemma {:induction false} RunKeepsInv(c: Aead, start: World, evs: seq<Event>)
    requires Lawful(c) && Start(start) && !ForgeryIn(c, start, evs)
    requires |Run(c, start, evs).l.router.all| <= U32_LIMIT
    ensures Inv(c, Run(c, start, evs))
  {
    if evs != [] {
      var w, last := Run(c, start, evs[..|evs| - 1]), evs[|evs| - 1];
      ForgeryInPrefix(c, start, evs);
      StreamsOnlyGrow(c, w, last);
      RunKeepsInv(c, start, evs[..|evs| - 1]);
      StepKeepsInv(c, w, last);
    }
  }

  // The payloads handed to stream k on the side named by `atL`.
  function Handed(w: World, atL: bool, k: nat): seq<Bytes>
    requires k < |SideAt(w, atL).router.all|
  {
    Payloads(SideAt(w, atL).router.all[k].got)
  }

  // What stream k's socket at the target sent back; nothing before the target knows the stream.
  function Replies(w: World, k: nat): seq<Bytes>
    requires Shape(w.t)
  {
    if k < |w.t.router.all| then w.t.sent[k] else []
  }

  // The target's k-th stream is the listener's k-th, dialled where that one asked, and is handed
  // a prefix of what that one sent and nothing else.
  ghost predicate ForwardInOrder(w: World)
    requires Shape(w.l) && Shape(w.t)
  {
    && |w.t.router.all| <= |w.l.router.all|
    && forall k :: 0 <= k < |w.t.router.all| ==>
         && OpenFrame(w.t.router.all[k]) == OpenFrame(w.l.router.all[k])
         && Handed(w, false, k) <= w.l.sent[k]
  }

  lemma ForwardStreamsArePrefixes(c: Aead, start: World, evs: seq<Event>)
    requires Lawful(c) && Start(start)
    requires |Run(c, start, evs).l.router.all| <= U32_LIMIT
    ensures ForgeryIn(c, start, evs) || ForwardInOrder(Run(c, start, evs))
  {
    if !ForgeryIn(c, start, evs) {
      RunKeepsInv(c, start, evs);
      var w := Run(c, start, evs);
      var R, all := w.net.b.received, SendsOf(w.l.cmds);
      FramesPrefix(R, all, 0);
      forall k | 0 <= k < |w.t.router.all|
        ensures OpenFrame(w.t.router.all[k]) == OpenFrame(w.l.router.all[k])
        ensures Handed(w, false, k) <= w.l.sent[k]
      {
        assert OpensOf(R)[k] == OpensOf(all)[k];
        FramesPrefix(R, all, w.t.router.all[k].sid);
        assert Routed(w.t.router, k, w.t.since[k], R);
      }
    }
  }

  // Towards the listener: stream k is handed a contiguous run of its replies, starting at the
  // reply count at which its Register was processed; a prefix when that was before the first.
  lemma ReverseStreamsAreSlices(c: Aead, start: World, evs: seq<Event>, k: nat)
    requires Lawful(c) && Start(start)
    requires k < |Run(c, start, evs).l.router.all| <= U32_LIMIT
    ensures var w := Run(c, start, evs);
            ForgeryIn(c, start, evs)
            || match w.l.since[k]
               case None => Handed(w, true, k) == []
               case Some(f) => f <= |Replies(w, k)| && Handed(w, true, k) <= Replies(w, k)[f..]
                               && (f == 0 ==> Handed(w, true, k) <= Replies(w, k))
  {
    if !ForgeryIn(c, start, evs) {
      RunKeepsInv(c, start, evs);
      ForwardStreamsArePrefixes(c, start, evs);
      var w := Run(c, start, evs);
      var R, sid := w.net.a.received, w.l.router.all[k].sid;
      assert Routed(w.l.router, k, w.l.since[k], R);
      FramesPrefix(R, SendsOf(w.t.cmds), sid);
      SidsAreDistinct(|w.l.router.all|);
      if k >= |w.t.router.all| {
        forall j | 0 <= j < |w.t.router.all|
          ensures w.t.router.all[j].sid != sid
        {
          assert OpenFrame(w.t.router.all[j]) == OpenFrame(w.l.router.all[j]);
          assert w.l.router.all[j].sid == SidOf(j) && w.l.router.all[k].sid == SidOf(k);
        }
      } else {
        assert OpenFrame(w.t.router.all[k]) == OpenFrame(w.l.router.all[k]);
      }
      assert DataOf(SendsOf(w.t.cmds), sid) == Replies(w, k);
    }
  }

  // What was handed on starts at reply `f`. It is a prefix of the replies if that is the first,
  // and, unless the first reply equals reply `f`, only then.
  lemma PrefixExactlyWhenFirst(c: Aead, start: World, evs: seq<Event>, k: nat)
    requires Lawful(c) && Start(start) && !ForgeryIn(c, start, evs)
    requires k < |Run(c, start, evs).l.router.all| <= U32_LIMIT
    requires Run(c, start, evs).l.since[k].Some? && Handed(Run(c, start, evs), true, k) != []
    ensures var w := Run(c, start, evs);
            var f, replies, handed := w.l.since[k].value, Replies(w, k), Handed(w, true, k);
            && f < |replies| && handed[0] == replies[f]
            && (f == 0 || replies[0] != replies[f] ==> (handed <= replies <==> f == 0))
  {
    ReverseStreamsAreSlices(c, start, evs, k);
    var w := Run(c, start, evs);
    var f, replies, handed := w.l.since[k].value, Replies(w, k), Handed(w, true, k);
    assert handed[0] == replies[f..][0];
  }
}
