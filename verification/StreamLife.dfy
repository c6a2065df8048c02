// What each stream is told over a whole run, in terms of the frames that came in and of what the
// sockets did: every payload in order, and the end of the other side exactly once.
module StreamLife {
  import opened Base
  import opened Bytes
  import opened Crypto
  import Channel
  import opened Mux
  import opened MuxSafety

  // ----- up to the first CLOSE -------------------------------------------------------

  function UpToClose(ms: seq<Msg>): seq<Msg> {
    if ms == [] then []
    else if Close in ms[..|ms| - 1] then UpToClose(ms[..|ms| - 1])
    else ms
  }

  lemma UpToCloseSnoc(ms: seq<Msg>, m: Msg)
    ensures UpToClose(ms + [m]) == if Close in ms then UpToClose(ms) else ms + [m]
    ensures Close !in ms ==> UpToClose(ms) == ms
  {
    assert (ms + [m])[..|ms|] == ms;
    if ms != [] && Close !in ms {
      assert Close !in ms[..|ms| - 1];
    }
  }

  // It stops at a CLOSE if there is one, and is everything otherwise.
  lemma {:induction false} UpToCloseMeaning(ms: seq<Msg>)
    ensures UpToClose(ms) <= ms
    ensures if Close in ms then UpToClose(ms) != [] && UpToClose(ms)[|UpToClose(ms)| - 1] == Close
                                && Close !in UpToClose(ms)[..|UpToClose(ms)| - 1]
            else UpToClose(ms) == ms
  {
    if ms != [] {
      UpToCloseMeaning(ms[..|ms| - 1]);
      assert ms == ms[..|ms| - 1] + [ms[|ms| - 1]];
    }
  }

  // ----- when a stream is in the table -----------------------------------------------

  function Received(w: World, atL: bool): seq<Bytes> {
    Channel.EndAt(w.net, atL).received
  }

  predicate TakesRegister(w: World, ev: Event, k: nat) {
    && ev == EngineTakes(true) && w.l.alive && w.l.done < |w.l.cmds|
    && w.l.cmds[w.l.done].Register? && w.l.cmds[w.l.done].index == k
  }

  function NextEntered(w: World, ev: Event, atL: bool, k: nat, from: Option<nat>): Option<nat> {
    if atL && TakesRegister(w, ev, k) then Some(|Received(w, atL)|) else from
  }

  function NextEnded(w: World, ev: Event, atL: bool, k: nat, from: Option<nat>, upto: Option<nat>): Option<nat> {
    if ev == PumpEnds(atL, k) && k < |SideAt(w, atL).router.all| && from.Some? && upto.None?
    then Some(|Received(w, atL)|) else upto
  }

  // How many frames had come in when the stream's Register was taken; a stream opened by the
  // peer is there from the start.
  function Entered(c: Aead, start: World, evs: seq<Event>, atL: bool, k: nat): Option<nat>
    requires Shape(start.l) && Shape(start.t)
  {
    if evs == [] then if atL then None else Some(0)
    else
      var init := evs[..|evs| - 1];
      NextEntered(Run(c, start, init), evs[|evs| - 1], atL, k, Entered(c, start, init, atL, k))
  }

  // How many had when its pump first ended after that.
  function Ended(c: Aead, start: World, evs: seq<Event>, atL: bool, k: nat): Option<nat>
    requires Shape(start.l) && Shape(start.t)
  {
    if evs == [] then None
    else
      var init := evs[..|evs| - 1];
      NextEnded(Run(c, start, init), evs[|evs| - 1], atL, k, Entered(c, start, init, atL, k), Ended(c, start, init, atL, k))
  }

  // ----- one stream ------------------------------------------------------------------

  // The stream has been told all of `heard` up to the first CLOSE, and is in the table until then
  // or until its pump has ended.
  ghost predicate Told(r: Router, k: nat, ended: bool, heard: seq<Msg>)
    requires k < |r.all|
  {
    r.all[k].got == UpToClose(heard) && (Listed(r, k) <==> !ended && Close !in heard)
  }

  ghost predicate TableNamesSids(r: Router) {
    IndicesInRange(r) && forall sid :: sid in r.table ==> r.all[r.table[sid]].sid == sid
  }

  lemma UnlistedIsTold(r: Router, r': Router, k: nat, heard: seq<Msg>, m: Msg)
    requires k < |r.all| && k < |r'.all| && Told(r, k, false, heard) && !Listed(r, k)
    requires r'.all[k] == r.all[k] && !Listed(r', k)
    ensures Told(r', k, false, heard + [m])
  {
    UpToCloseSnoc(heard, m);
  }

  lemma UntoldIsUntouched(r: Router, isTarget: bool, k: nat, inner: Bytes)
    requires TableNamesSids(r) && k < |r.all|
    requires !Listed(r, k) || MsgsIn(Decoded(inner), r.all[k].sid) == []
    requires !IsOpen(Decoded(inner)) || Decoded(inner).sid != r.all[k].sid || !isTarget
    ensures var r' := DispatchBytes(r, isTarget, inner);
            r'.all[k] == r.all[k] && (Listed(r, k) <==> Listed(r', k))
  {
  }

  // A DATA or CLOSE for a stream in the table.
  lemma ListedIsTold(r: Router, isTarget: bool, k: nat, heard: seq<Msg>, inner: Bytes)
    requires TableNamesSids(r) && k < |r.all| && Told(r, k, false, heard) && Listed(r, k)
    requires MsgsIn(Decoded(inner), r.all[k].sid) != []
    ensures Told(DispatchBytes(r, isTarget, inner), k, false, heard + MsgsIn(Decoded(inner), r.all[k].sid))
  {
    var m := MsgsIn(Decoded(inner), r.all[k].sid)[0];
    assert MsgsIn(Decoded(inner), r.all[k].sid) == [m];
    UpToCloseSnoc(heard, m);
  }

  lemma FrameIsTold(r: Router, isTarget: bool, k: nat, ended: bool, heard: seq<Msg>, inner: Bytes)
    requires TableNamesSids(r) && k < |r.all| && Told(r, k, ended, heard)
    requires IsOpen(Decoded(inner)) && isTarget ==> Decoded(inner).sid != r.all[k].sid
    ensures Told(DispatchBytes(r, isTarget, inner), k, ended,
                 if ended then heard else heard + MsgsIn(Decoded(inner), r.all[k].sid))
  {
    var r', msgs := DispatchBytes(r, isTarget, inner), MsgsIn(Decoded(inner), r.all[k].sid);
    if Listed(r, k) && msgs != [] {
      ListedIsTold(r, isTarget, k, heard, inner);
    } else {
      UntoldIsUntouched(r, isTarget, k, inner);
      if msgs == [] {
        assert heard + msgs == heard;
      } else if !ended {
        assert msgs == [msgs[0]];
        UnlistedIsTold(r, r', k, heard, msgs[0]);
      }
    }
  }

  // ----- what a stream has heard -----------------------------------------------------

  function Stop(received: seq<Bytes>, upto: Option<nat>): nat {
    if upto.Some? then upto.value else |received|
  }

  // The messages that came in for it between two points.
  function Heard(received: seq<Bytes>, sid: u32, from: nat, upto: Option<nat>): seq<Msg>
    requires from <= Stop(received, upto) <= |received|
  {
    MsgsOf(received[from..Stop(received, upto)], sid)
  }

  lemma HeardGrows(received: seq<Bytes>, inner: Bytes, sid: u32, from: nat, upto: Option<nat>)
    requires from <= Stop(received, upto) <= |received|
    ensures Heard(received + [inner], sid, from, upto)
            == if upto.Some? then Heard(received, sid, from, upto)
               else Heard(received, sid, from, upto) + MsgsIn(Decoded(inner), sid)
  {
    var longer := received + [inner];
    if upto.None? {
      assert longer[from..|longer|] == received[from..|received|] + [inner];
      MsgsSnoc(received[from..|received|], inner, sid);
    } else {
      assert longer[from..upto.value] == received[from..upto.value];
    }
  }

  // A stream not yet in the table has been told nothing; one that has been put there, all it heard.
  ghost predicate Lives(r: Router, k: nat, from: Option<nat>, upto: Option<nat>, received: seq<Bytes>)
    requires k < |r.all|
  {
    match from
    case None => upto.None? && r.all[k].got == [] && !Listed(r, k)
    case Some(p) =>
      p <= Stop(received, upto) <= |received| && Told(r, k, upto.Some?, Heard(received, r.all[k].sid, p, upto))
  }

  lemma FrameLives(r: Router, isTarget: bool, k: nat, from: Option<nat>, upto: Option<nat>, received: seq<Bytes>, inner: Bytes)
    requires TableNamesSids(r) && k < |r.all| && Lives(r, k, from, upto, received)
    requires IsOpen(Decoded(inner)) && isTarget ==> Decoded(inner).sid != r.all[k].sid
    ensures Lives(DispatchBytes(r, isTarget, inner), k, from, upto, received + [inner])
  {
    var sid := r.all[k].sid;
    if from.Some? {
      FrameIsTold(r, isTarget, k, upto.Some?, Heard(received, sid, from.value, upto), inner);
      HeardGrows(received, inner, sid, from.value, upto);
      SidIsKept(r, isTarget, k, inner);
    } else {
      UntoldIsUntouched(r, isTarget, k, inner);
    }
  }

  lemma SidIsKept(r: Router, isTarget: bool, k: nat, inner: Bytes)
    requires IndicesInRange(r) && k < |r.all|
    ensures DispatchBytes(r, isTarget, inner).all[k].sid == r.all[k].sid
  {
  }

  // A stream the peer opens starts with nothing told, nothing having come in for its id.
  lemma NewcomerLives(r: Router, received: seq<Bytes>, inner: Bytes)
    requires IndicesInRange(r) && IsOpen(Decoded(inner)) && MsgsOf(received, Decoded(inner).sid) == []
    ensures Lives(DispatchBytes(r, true, inner), |r.all|, Some(0), None, received + [inner])
  {
    var longer, sid := received + [inner], Decoded(inner).sid;
    MsgsSnoc(received, inner, sid);
    assert longer[0..|longer|] == longer;
    assert Heard(longer, sid, 0, None) == [];
    assert DispatchBytes(r, true, inner) == OpenStream(r, Decoded(inner));
  }

  // The pump of one stream ends.
  lemma PumpEndLives(s: Side, j: nat, k: nat, from: Option<nat>, upto: Option<nat>, received: seq<Bytes>)
    requires Shape(s) && Distinct(s.router.all) && j < |s.router.all| && k < |s.router.all|
    requires Lives(s.router, k, from, upto, received)
    ensures var upto' := if j == k && upto.None? && from.Some? then Some(|received|) else upto;
            Lives(PumpEndsOn(s, j).router, k, from, upto', received)
  {
    assert s.router.all[j].sid == s.router.all[k].sid ==> j == k;
  }

  // The Register of one stream is taken.
  lemma RegisterLives(r: Router, j: nat, k: nat, from: Option<nat>, upto: Option<nat>, received: seq<Bytes>)
    requires Distinct(r.all) && j < |r.all| && k < |r.all| && Lives(r, k, from, upto, received) && (j == k ==> from.None?)
    ensures var r' := r.(table := r.table[r.all[j].sid := j]);
            Lives(r', k, if j == k then Some(|received|) else from, upto, received)
  {
    if j == k {
      assert received[|received|..|received|] == [];
    } else {
      assert r.all[j].sid != r.all[k].sid;
    }
  }

  // ----- one event -------------------------------------------------------------------

  ghost predicate PartLives(s: Side, received: seq<Bytes>, k: nat, from: Option<nat>, upto: Option<nat>)
    requires Shape(s) && k < |s.router.all|
  {
    Lives(s.router, k, from, upto, received) && (from.Some? <==> s.since[k].Some?)
  }

  ghost predicate SideLives(w: World, atL: bool, k: nat, from: Option<nat>, upto: Option<nat>)
    requires Shape(w.l) && Shape(w.t) && k < |SideAt(w, atL).router.all|
  {
    PartLives(SideAt(w, atL), Received(w, atL), k, from, upto)
  }

  ghost predicate NextLives(c: Aead, w: World, ev: Event, atL: bool, k: nat, from: Option<nat>, upto: Option<nat>)
    requires Shape(w.l) && Shape(w.t)
  {
    && k < |SideAt(Step(c, w, ev), atL).router.all|
    && SideLives(Step(c, w, ev), atL, k, NextEntered(w, ev, atL, k, from), NextEnded(w, ev, atL, k, from, upto))
  }

  // It is enough to know the side, its frames and the two points after the event.
  lemma PartIsEnough(c: Aead, w: World, ev: Event, atL: bool, k: nat, from: Option<nat>, upto: Option<nat>,
                     s': Side, received': seq<Bytes>, from': Option<nat>, upto': Option<nat>)
    requires Shape(w.l) && Shape(w.t) && Shape(s') && k < |s'.router.all| && PartLives(s', received', k, from', upto')
    requires SideAt(Step(c, w, ev), atL) == s' && Received(Step(c, w, ev), atL) == received'
    requires NextEntered(w, ev, atL, k, from) == from' && NextEnded(w, ev, atL, k, from, upto) == upto'
    ensures NextLives(c, w, ev, atL, k, from, upto)
  {
  }

  // What of the invariant is needed of one side.
  lemma TableIsSound(c: Aead, w: World, atL: bool)
    requires Inv(c, w)
    ensures TableNamesSids(SideAt(w, atL).router) && Distinct(SideAt(w, atL).router.all)
  {
  }

  // An event that leaves the side's streams, table and frames alone.
  lemma QuietLives(c: Aead, w: World, ev: Event, atL: bool, k: nat, from: Option<nat>, upto: Option<nat>)
    requires Shape(w.l) && Shape(w.t) && k < |SideAt(w, atL).router.all| && SideLives(w, atL, k, from, upto)
    requires SideAt(Step(c, w, ev), atL).router == SideAt(w, atL).router && SideAt(Step(c, w, ev), atL).since == SideAt(w, atL).since
    requires Received(Step(c, w, ev), atL) == Received(w, atL) && ev != PumpEnds(atL, k)
    requires atL ==> !TakesRegister(w, ev, k)
    ensures NextLives(c, w, ev, atL, k, from, upto)
  {
    PartIsEnough(c, w, ev, atL, k, from, upto, SideAt(Step(c, w, ev), atL), Received(w, atL), from, upto);
  }

  lemma AcceptLives(c: Aead, w: World, udp: bool, remote: Bytes, k: nat, from: Option<nat>, upto: Option<nat>)
    requires Shape(w.l) && Shape(w.t) && k < |w.l.router.all| && SideLives(w, true, k, from, upto)
    ensures NextLives(c, w, Accept(udp, remote), true, k, from, upto)
  {
    var l' := AcceptOn(w.l, udp, remote);
    assert l'.router.all[k] == w.l.router.all[k] && l'.since[k] == w.l.since[k];
    PartIsEnough(c, w, Accept(udp, remote), true, k, from, upto, l', Received(w, true), from, upto);
  }

  lemma PumpEndsLives(c: Aead, w: World, atL: bool, j: nat, k: nat, from: Option<nat>, upto: Option<nat>)
    requires Shape(w.l) && Shape(w.t) && Distinct(SideAt(w, atL).router.all)
    requires k < |SideAt(w, atL).router.all| && SideLives(w, atL, k, from, upto)
    ensures NextLives(c, w, PumpEnds(atL, j), atL, k, from, upto)
  {
    var s, received := SideAt(w, atL), Received(w, atL);
    var upto' := if j == k && upto.None? && from.Some? then Some(|received|) else upto;
    if j < |s.router.all| {
      PumpEndLives(s, j, k, from, upto, received);
    }
    PartIsEnough(c, w, PumpEnds(atL, j), atL, k, from, upto, PumpEndsOn(s, j), received, from, upto');
  }

  lemma RegisterTakenLives(c: Aead, w: World, k: nat, from: Option<nat>, upto: Option<nat>)
    requires Shape(w.l) && Shape(w.t) && Distinct(w.l.router.all) && ListenerInv(w.l)
    requires w.l.alive && w.l.done < |w.l.cmds| && w.l.cmds[w.l.done].Register?
    requires k < |w.l.router.all| && SideLives(w, true, k, from, upto)
    ensures NextLives(c, w, EngineTakes(true), true, k, from, upto)
  {
    var j, received := w.l.cmds[w.l.done].index, Received(w, true);
    var from' := if j == k then Some(|received|) else from;
    TakenRegister(w.l);
    RegisterLives(w.l.router, j, k, from, upto, received);
    PartIsEnough(c, w, EngineTakes(true), true, k, from, upto, EngineStep(c, w, true).l, received, from', upto);
  }

  lemma TakesLives(c: Aead, w: World, atL: bool, k: nat, from: Option<nat>, upto: Option<nat>)
    requires Shape(w.l) && Shape(w.t) && Distinct(SideAt(w, atL).router.all)
    requires ListenerInv(w.l) && TargetInv(w.t, w.net.b.received)
    requires k < |SideAt(w, atL).router.all| && SideLives(w, atL, k, from, upto)
    ensures NextLives(c, w, EngineTakes(atL), atL, k, from, upto)
  {
    var s := SideAt(w, atL);
    if s.alive && s.done < |s.cmds| && s.cmds[s.done].Register? {
      RegisterTakenLives(c, w, k, from, upto);
    } else {
      SendsAreQuiet(c, w, atL);
      QuietLives(c, w, EngineTakes(atL), atL, k, from, upto);
    }
  }

  lemma SendsAreQuiet(c: Aead, w: World, atL: bool)
    requires Shape(w.l) && Shape(w.t)
    requires var s := SideAt(w, atL); !(s.alive && s.done < |s.cmds| && s.cmds[s.done].Register?)
    ensures var w' := EngineStep(c, w, atL);
            && SideAt(w', atL).router == SideAt(w, atL).router && SideAt(w', atL).since == SideAt(w, atL).since
            && Received(w', atL) == Received(w, atL)
  {
  }

  // A frame that opens, as one side sees it.
  lemma OpenedLives(c: Aead, w: World, atL: bool, frame: Bytes, inner: Bytes, k: nat, from: Option<nat>, upto: Option<nat>)
    requires Shape(w.l) && Shape(w.t) && TableNamesSids(SideAt(w, atL).router) && SideAt(w, atL).alive
    requires Channel.OpenFrame(c, Channel.EndAt(w.net, atL).session, frame).1 == Ok(inner)
    requires k < |SideAt(w, atL).router.all| && SideLives(w, atL, k, from, upto)
    requires IsOpen(Decoded(inner)) && !atL ==> Decoded(inner).sid != SideAt(w, atL).router.all[k].sid
    ensures NextLives(c, w, Relay(atL, frame), atL, k, from, upto)
  {
    FrameLives(SideAt(w, atL).router, !atL, k, from, upto, Received(w, atL), inner);
    var w' := RelayStep(c, w, atL, frame);
    assert Received(w', atL) == Received(w, atL) + [inner];
    PartIsEnough(c, w, Relay(atL, frame), atL, k, from, upto, SideAt(w', atL), Received(w, atL) + [inner], from, upto);
  }

  lemma RefusedIsQuiet(c: Aead, w: World, atL: bool, frame: Bytes)
    requires Shape(w.l) && Shape(w.t)
    requires !SideAt(w, atL).alive || Channel.OpenFrame(c, Channel.EndAt(w.net, atL).session, frame).1.Err?
    ensures var w' := RelayStep(c, w, atL, frame);
            && SideAt(w', atL).router == SideAt(w, atL).router && SideAt(w', atL).since == SideAt(w, atL).since
            && Received(w', atL) == Received(w, atL)
  {
  }

  // An OPEN that the target takes is not for this stream's id.
  ghost predicate OpensAnother(c: Aead, w: World, atL: bool, frame: Bytes, k: nat)
    requires k < |SideAt(w, atL).router.all|
  {
    var r := Channel.OpenFrame(c, Channel.EndAt(w.net, atL).session, frame).1;
    r.Ok? && IsOpen(Decoded(r.value)) && !atL ==> Decoded(r.value).sid != SideAt(w, atL).router.all[k].sid
  }

  lemma OpenIsAnother(c: Aead, w: World, atL: bool, frame: Bytes, k: nat)
    requires Lawful(c) && Inv(c, w) && |w.l.router.all| <= U32_LIMIT && !Forgery(c, w, Relay(atL, frame))
    requires SideAt(w, atL).alive && k < |SideAt(w, atL).router.all|
    ensures OpensAnother(c, w, atL, frame, k)
  {
    var r := Channel.OpenFrame(c, Channel.EndAt(w.net, atL).session, frame).1;
    if r.Ok? && IsOpen(Decoded(r.value)) && !atL {
      OpenIsNew(c, w, frame, r.value);
    }
  }

  lemma FramesLive(c: Aead, w: World, atL: bool, frame: Bytes, k: nat, from: Option<nat>, upto: Option<nat>)
    requires Shape(w.l) && Shape(w.t) && TableNamesSids(SideAt(w, atL).router)
    requires k < |SideAt(w, atL).router.all| && SideLives(w, atL, k, from, upto)
    requires SideAt(w, atL).alive ==> OpensAnother(c, w, atL, frame, k)
    ensures NextLives(c, w, Relay(atL, frame), atL, k, from, upto)
  {
    var r := Channel.OpenFrame(c, Channel.EndAt(w.net, atL).session, frame).1;
    if SideAt(w, atL).alive && r.Ok? {
      OpenedLives(c, w, atL, frame, r.value, k, from, upto);
    } else {
      RefusedIsQuiet(c, w, atL, frame);
      QuietLives(c, w, Relay(atL, frame), atL, k, from, upto);
    }
  }

  lemma RelayLives(c: Aead, w: World, atL: bool, frame: Bytes, k: nat, from: Option<nat>, upto: Option<nat>)
    requires Lawful(c) && Inv(c, w) && |w.l.router.all| <= U32_LIMIT && !Forgery(c, w, Relay(atL, frame))
    requires k < |SideAt(w, atL).router.all| && SideLives(w, atL, k, from, upto)
    ensures NextLives(c, w, Relay(atL, frame), atL, k, from, upto)
  {
    TableIsSound(c, w, atL);
    if SideAt(w, atL).alive {
      OpenIsAnother(c, w, atL, frame, k);
    }
    FramesLive(c, w, atL, frame, k, from, upto);
  }

  // An OPEN the target takes is for an id that no stream has and nothing came in for.
  lemma OpenIsNew(c: Aead, w: World, frame: Bytes, inner: Bytes)
    requires Lawful(c) && Inv(c, w) && w.t.alive && !Forgery(c, w, Relay(false, frame)) && |w.l.router.all| <= U32_LIMIT
    requires Channel.OpenFrame(c, w.net.b.session, frame).1 == Ok(inner) && IsOpen(Decoded(inner))
    ensures forall j :: 0 <= j < |w.t.router.all| ==> w.t.router.all[j].sid != Decoded(inner).sid
    ensures MsgsOf(w.net.b.received, Decoded(inner).sid) == []
  {
    RelayedIsNext(c, w, frame);
    OpenKeepsTarget(c, w, inner);
  }

  // What the target opens is what the listener sealed next.
  lemma RelayedIsNext(c: Aead, w: World, frame: Bytes)
    requires Lawful(c) && Inv(c, w) && w.t.alive && !Forgery(c, w, Relay(false, frame))
    requires Channel.OpenFrame(c, w.net.b.session, frame).1.Ok?
    ensures w.net.b.received + [Channel.OpenFrame(c, w.net.b.session, frame).1.value] <= SendsOf(w.l.cmds)
  {
    Channel.DeliverKeepsInvariants(c, w.net, false, frame);
  }

  lemma StepLives(c: Aead, w: World, ev: Event, atL: bool, k: nat, from: Option<nat>, upto: Option<nat>)
    requires Lawful(c) && Inv(c, w) && !Forgery(c, w, ev) && |w.l.router.all| <= U32_LIMIT
    requires k < |SideAt(w, atL).router.all| && SideLives(w, atL, k, from, upto)
    ensures NextLives(c, w, ev, atL, k, from, upto)
  {
    if ev.Accept? && atL {
      AcceptLives(c, w, ev.udp, ev.remote, k, from, upto);
    } else if ev.PumpEnds? && ev.atL == atL {
      TableIsSound(c, w, atL);
      PumpEndsLives(c, w, atL, ev.k, k, from, upto);
    } else if ev.EngineTakes? && ev.atL == atL {
      TableIsSound(c, w, atL);
      TakesLives(c, w, atL, k, from, upto);
    } else if ev.Relay? && ev.atL == atL {
      RelayLives(c, w, atL, ev.frame, k, from, upto);
    } else {
      OthersAreQuiet(c, w, ev, atL);
      QuietLives(c, w, ev, atL, k, from, upto);
    }
  }

  lemma OthersAreQuiet(c: Aead, w: World, ev: Event, atL: bool)
    requires Shape(w.l) && Shape(w.t) && !(ev.Accept? && atL)
    requires (ev.PumpEnds? || ev.EngineTakes? || ev.Relay?) ==> ev.atL != atL
    ensures SideAt(Step(c, w, ev), atL).router == SideAt(w, atL).router
    ensures SideAt(Step(c, w, ev), atL).since == SideAt(w, atL).since && Received(Step(c, w, ev), atL) == Received(w, atL)
  {
  }

  lemma AcceptedLives(c: Aead, w: World, udp: bool, remote: Bytes)
    requires Shape(w.l) && Shape(w.t) && TableNamesSids(w.l.router)
    ensures NextLives(c, w, Accept(udp, remote), true, |w.l.router.all|, None, None)
  {
  }

  lemma DialledLives(c: Aead, w: World, frame: Bytes, inner: Bytes)
    requires Shape(w.l) && Shape(w.t) && w.t.alive && Channel.OpenFrame(c, w.net.b.session, frame).1 == Ok(inner)
    requires IsOpen(Decoded(inner)) && MsgsOf(w.net.b.received, Decoded(inner).sid) == []
    ensures NextLives(c, w, Relay(false, frame), false, |w.t.router.all|, Some(0), None)
  {
    NewcomerLives(w.t.router, w.net.b.received, inner);
    var w' := RelayStep(c, w, false, frame);
    assert Received(w', false) == w.net.b.received + [inner];
  }

  // Which events bring streams.
  lemma BringsOne(c: Aead, w: World, ev: Event, atL: bool)
    requires Shape(w.l) && Shape(w.t) && |SideAt(w, atL).router.all| < |SideAt(Step(c, w, ev), atL).router.all|
    ensures |SideAt(Step(c, w, ev), atL).router.all| == |SideAt(w, atL).router.all| + 1
    ensures if atL then ev.Accept?
            else ev.Relay? && !ev.atL && w.t.alive && Channel.OpenFrame(c, w.net.b.session, ev.frame).1.Ok?
                 && IsOpen(Decoded(Channel.OpenFrame(c, w.net.b.session, ev.frame).1.value))
  {
  }

  // A stream that this event brings.
  lemma NewAtListener(c: Aead, w: World, ev: Event, k: nat)
    requires Inv(c, w) && |w.l.router.all| <= k < |Step(c, w, ev).l.router.all|
    ensures NextLives(c, w, ev, true, k, None, None)
  {
    BringsOne(c, w, ev, true);
    AcceptBrings(c, w, ev.udp, ev.remote);
  }

  lemma NewAtTarget(c: Aead, w: World, ev: Event, k: nat)
    requires Lawful(c) && Inv(c, w) && !Forgery(c, w, ev) && |w.l.router.all| <= U32_LIMIT
    requires |w.t.router.all| <= k < |Step(c, w, ev).t.router.all|
    ensures NextLives(c, w, ev, false, k, Some(0), None)
  {
    BringsOne(c, w, ev, false);
    assert ev == Relay(false, ev.frame);
    DialBrings(c, w, ev.frame);
  }

  lemma AcceptBrings(c: Aead, w: World, udp: bool, remote: Bytes)
    requires Inv(c, w)
    ensures NextLives(c, w, Accept(udp, remote), true, |w.l.router.all|, None, None)
  {
    TableIsSound(c, w, true);
    AcceptedLives(c, w, udp, remote);
  }

  lemma DialBrings(c: Aead, w: World, frame: Bytes)
    requires Lawful(c) && Inv(c, w) && !Forgery(c, w, Relay(false, frame)) && |w.l.router.all| <= U32_LIMIT && w.t.alive
    requires Channel.OpenFrame(c, w.net.b.session, frame).1.Ok?
    requires IsOpen(Decoded(Channel.OpenFrame(c, w.net.b.session, frame).1.value))
    ensures NextLives(c, w, Relay(false, frame), false, |w.t.router.all|, Some(0), None)
  {
    var inner := Channel.OpenFrame(c, w.net.b.session, frame).1.value;
    assert MsgsOf(w.net.b.received, Decoded(inner).sid) == [] by {
      OpenIsNew(c, w, frame, inner);
    }
    DialledLives(c, w, frame, inner);
  }

  // ----- every run -------------------------------------------------------------------

  lemma {:induction false} NotYetThere(c: Aead, start: World, evs: seq<Event>, atL: bool, k: nat)
    requires Shape(start.l) && Shape(start.t) && Start(start)
    requires k >= |SideAt(Run(c, start, evs), atL).router.all|
    ensures Entered(c, start, evs, atL, k) == (if atL then None else Some(0)) && Ended(c, start, evs, atL, k) == None
  {
    if evs != [] {
      SidesOnlyGrow(c, Run(c, start, evs[..|evs| - 1]), evs[|evs| - 1], atL);
      NotYetThere(c, start, evs[..|evs| - 1], atL, k);
    }
  }

  lemma SidesOnlyGrow(c: Aead, w: World, ev: Event, atL: bool)
    requires Shape(w.l) && Shape(w.t)
    ensures |SideAt(w, atL).router.all| <= |SideAt(Step(c, w, ev), atL).router.all|
  {
  }

  ghost predicate LivesIn(c: Aead, start: World, evs: seq<Event>, atL: bool, k: nat)
    requires Shape(start.l) && Shape(start.t) && k < |SideAt(Run(c, start, evs), atL).router.all|
  {
    SideLives(Run(c, start, evs), atL, k, Entered(c, start, evs, atL, k), Ended(c, start, evs, atL, k))
  }

  lemma {:induction false} RunLives(c: Aead, start: World, evs: seq<Event>, atL: bool, k: nat)
    requires Lawful(c) && Start(start) && !ForgeryIn(c, start, evs)
    requires |Run(c, start, evs).l.router.all| <= U32_LIMIT && k < |SideAt(Run(c, start, evs), atL).router.all|
    ensures LivesIn(c, start, evs, atL, k)
  {
    if evs != [] {
      var init, ev := evs[..|evs| - 1], evs[|evs| - 1];
      var w := Run(c, start, init);
      ForgeryInPrefix(c, start, evs);
      StreamsOnlyGrow(c, w, ev);
      RunKeepsInv(c, start, init);
      if k < |SideAt(w, atL).router.all| {
        RunLives(c, start, init, atL, k);
        StepLives(c, w, ev, atL, k, Entered(c, start, init, atL, k), Ended(c, start, init, atL, k));
      } else {
        NotYetThere(c, start, init, atL, k);
        if atL {
          NewAtListener(c, w, ev, k);
        } else {
          NewAtTarget(c, w, ev, k);
        }
      }
    }
  }

  // In every unforged run a stream has been told exactly the messages that came in for its id
  // since its Register was taken, or at the target ever, up to and including the first CLOSE or
  // to the end of its pump. It is in the table until then and never after.
  lemma StreamsLiveUntilClosed(c: Aead, start: World, evs: seq<Event>, atL: bool, k: nat)
    requires Lawful(c) && Start(start) && !ForgeryIn(c, start, evs)
    requires |Run(c, start, evs).l.router.all| <= U32_LIMIT && k < |SideAt(Run(c, start, evs), atL).router.all|
    ensures var w, from, upto := Run(c, start, evs), Entered(c, start, evs, atL, k), Ended(c, start, evs, atL, k);
            var s, received := SideAt(w, atL).router.all[k], Received(w, atL);
            if from.None? then s.got == [] && !Listed(SideAt(w, atL).router, k)
            else from.value <= Stop(received, upto) <= |received|
                 && var heard := MsgsOf(received[from.value..Stop(received, upto)], s.sid);
                    s.got == UpToClose(heard) && (Listed(SideAt(w, atL).router, k) <==> upto.None? && Close !in heard)
  {
    RunLives(c, start, evs, atL, k);
  }

  // ----- what the sockets said -------------------------------------------------------

  // What stream k's socket did in one event: it produced bytes, or it ended.
  function SaidIn(w: World, ev: Event, atL: bool, k: nat): seq<Msg> {
    if k >= |SideAt(w, atL).router.all| then []
    else match ev
      case Upload(b, j, payload) => if b == atL && j == k then [Data(payload)] else []
      case Finish(b, j) => if b == atL && j == k then [Close] else []
      case _ => []
  }

  function Said(c: Aead, start: World, evs: seq<Event>, atL: bool, k: nat): seq<Msg>
    requires Shape(start.l) && Shape(start.t)
  {
    if evs == [] then []
    else
      var init := evs[..|evs| - 1];
      Said(c, start, init, atL, k) + SaidIn(Run(c, start, init), evs[|evs| - 1], atL, k)
  }

  function QueuedFor(s: Side, sid: u32): seq<Msg> {
    MsgsOf(SendsOf(s.cmds), sid)
  }

  // Queueing one frame.
  lemma QueueAdds(s: Side, f: Inner, sid: u32)
    ensures QueuedFor(Queue(s, f), sid) == QueuedFor(s, sid) + MsgsIn(f, sid)
  {
    InnerRoundTrip(f);
    CmdsSnoc(s.cmds, Send(InnerEncode(f)));
    MsgsSnoc(SendsOf(s.cmds), InnerEncode(f), sid);
  }

  lemma RegisterAddsNothing(s: Side, sid: u32)
    requires Shape(s)
    ensures QueuedFor(RegisterOn(s), sid) == QueuedFor(s, sid)
  {
    if |RegistersOf(s.cmds)| < |s.router.all| {
      RegisterCommands(s);
    }
  }

  lemma AcceptAddsNothing(s: Side, udp: bool, remote: Bytes, sid: u32)
    requires Shape(s)
    ensures QueuedFor(AcceptOn(s, udp, remote), sid) == QueuedFor(s, sid)
  {
    var k := |s.router.all|;
    var open := Inner(if udp then KIND_OPEN_UDP else KIND_OPEN_TCP, SidOf(k), remote);
    QueueAdds(s, open, sid);
    assert AcceptOn(s, udp, remote).cmds == Queue(s, open).cmds;
  }

  lemma UploadAdds(s: Side, j: nat, payload: Bytes, sid: u32)
    requires Shape(s) && j < |s.router.all|
    ensures QueuedFor(UploadOn(s, j, payload), sid) == QueuedFor(s, sid) + MsgsIn(Inner(KIND_DATA, s.router.all[j].sid, payload), sid)
  {
    QueueAdds(s, Inner(KIND_DATA, s.router.all[j].sid, payload), sid);
  }

  lemma FinishAdds(s: Side, j: nat, sid: u32)
    requires Shape(s) && j < |s.router.all|
    ensures QueuedFor(FinishOn(s, j), sid) == QueuedFor(s, sid) + MsgsIn(Inner(KIND_CLOSE, s.router.all[j].sid, []), sid)
  {
    QueueAdds(s, Inner(KIND_CLOSE, s.router.all[j].sid, []), sid);
  }

  // The frame of a socket that an event queues.
  function SocketFrame(w: World, ev: Event, atL: bool): Option<Inner> {
    match ev
    case Upload(b, j, payload) =>
      if b == atL && j < |SideAt(w, atL).router.all| then Some(Inner(KIND_DATA, SideAt(w, atL).router.all[j].sid, payload)) else None
    case Finish(b, j) =>
      if b == atL && j < |SideAt(w, atL).router.all| then Some(Inner(KIND_CLOSE, SideAt(w, atL).router.all[j].sid, [])) else None
    case _ => None
  }

  function MsgsInFrame(f: Option<Inner>, sid: u32): seq<Msg> {
    if f.Some? then MsgsIn(f.value, sid) else []
  }

  lemma OthersQueueNothing(c: Aead, w: World, ev: Event, atL: bool, sid: u32)
    requires Shape(w.l) && Shape(w.t) && SocketFrame(w, ev, atL).None?
    ensures QueuedFor(SideAt(Step(c, w, ev), atL), sid) == QueuedFor(SideAt(w, atL), sid)
  {
    if ev.Accept? {
      AcceptAddsNothing(w.l, ev.udp, ev.remote, sid);
    } else if ev.Registers? {
      RegisterAddsNothing(w.l, sid);
    } else {
      assert SideAt(Step(c, w, ev), atL).cmds == SideAt(w, atL).cmds;
    }
  }

  lemma StepAdds(c: Aead, w: World, ev: Event, atL: bool, sid: u32)
    requires Shape(w.l) && Shape(w.t)
    ensures QueuedFor(SideAt(Step(c, w, ev), atL), sid) == QueuedFor(SideAt(w, atL), sid) + MsgsInFrame(SocketFrame(w, ev, atL), sid)
  {
    if SocketFrame(w, ev, atL).None? {
      OthersQueueNothing(c, w, ev, atL, sid);
    } else if ev.Upload? {
      UploadAdds(SideAt(w, atL), ev.k, ev.payload, sid);
    } else {
      FinishAdds(SideAt(w, atL), ev.k, sid);
    }
  }

  lemma FrameIsSaid(w: World, ev: Event, atL: bool, k: nat)
    requires Distinct(SideAt(w, atL).router.all) && k < |SideAt(w, atL).router.all|
    ensures MsgsInFrame(SocketFrame(w, ev, atL), SideAt(w, atL).router.all[k].sid) == SaidIn(w, ev, atL, k)
  {
    var all := SideAt(w, atL).router.all;
    if (ev.Upload? || ev.Finish?) && ev.k < |all| && ev.k != k {
      assert all[ev.k].sid != all[k].sid;
    }
  }

  // An event queues for a stream what its socket said.
  lemma StepQueues(c: Aead, w: World, ev: Event, atL: bool, k: nat)
    requires Shape(w.l) && Shape(w.t) && Distinct(SideAt(w, atL).router.all) && k < |SideAt(w, atL).router.all|
    ensures var s, s' := SideAt(w, atL), SideAt(Step(c, w, ev), atL);
            QueuedFor(s', s.router.all[k].sid) == QueuedFor(s, s.router.all[k].sid) + SaidIn(w, ev, atL, k)
  {
    StepAdds(c, w, ev, atL, SideAt(w, atL).router.all[k].sid);
    FrameIsSaid(w, ev, atL, k);
  }

  ghost predicate Unused(s: Side, sid: u32) {
    forall k :: 0 <= k < |s.router.all| ==> s.router.all[k].sid != sid
  }

  // And nothing for an id that no stream has.
  lemma StepQueuesNoStray(c: Aead, w: World, ev: Event, atL: bool, sid: u32)
    requires Shape(w.l) && Shape(w.t) && Unused(SideAt(w, atL), sid)
    ensures QueuedFor(SideAt(Step(c, w, ev), atL), sid) == QueuedFor(SideAt(w, atL), sid)
  {
    StepAdds(c, w, ev, atL, sid);
  }

  lemma SidsStay(c: Aead, w: World, ev: Event, atL: bool, k: nat)
    requires Shape(w.l) && Shape(w.t) && k < |SideAt(w, atL).router.all|
    ensures k < |SideAt(Step(c, w, ev), atL).router.all|
    ensures SideAt(Step(c, w, ev), atL).router.all[k].sid == SideAt(w, atL).router.all[k].sid
  {
  }

  lemma UnusedBefore(c: Aead, w: World, ev: Event, atL: bool, sid: u32)
    requires Shape(w.l) && Shape(w.t) && Unused(SideAt(Step(c, w, ev), atL), sid)
    ensures Unused(SideAt(w, atL), sid)
  {
    forall k: nat | k < |SideAt(w, atL).router.all|
      ensures SideAt(w, atL).router.all[k].sid != sid
    {
      SidsStay(c, w, ev, atL, k);
      assert SideAt(Step(c, w, ev), atL).router.all[k].sid != sid;
    }
  }

  lemma {:induction false} NoStrays(c: Aead, start: World, evs: seq<Event>, atL: bool, sid: u32)
    requires Start(start) && Unused(SideAt(Run(c, start, evs), atL), sid)
    ensures QueuedFor(SideAt(Run(c, start, evs), atL), sid) == []
  {
    if evs != [] {
      var init, ev := evs[..|evs| - 1], evs[|evs| - 1];
      UnusedBefore(c, Run(c, start, init), ev, atL, sid);
      NoStrays(c, start, init, atL, sid);
      StepQueuesNoStray(c, Run(c, start, init), ev, atL, sid);
    }
  }

  // What is queued for a stream is what its socket said, its end included.
  lemma {:induction false} QueuedIsSaid(c: Aead, start: World, evs: seq<Event>, atL: bool, k: nat)
    requires Lawful(c) && Start(start) && !ForgeryIn(c, start, evs)
    requires |Run(c, start, evs).l.router.all| <= U32_LIMIT && k < |SideAt(Run(c, start, evs), atL).router.all|
    ensures var s := SideAt(Run(c, start, evs), atL);
            QueuedFor(s, s.router.all[k].sid) == Said(c, start, evs, atL, k)
  {
    if evs != [] {
      var init, ev := evs[..|evs| - 1], evs[|evs| - 1];
      var w := Run(c, start, init);
      ForgeryInPrefix(c, start, evs);
      StreamsOnlyGrow(c, w, ev);
      RunKeepsInv(c, start, init);
      TableIsSound(c, w, atL);
      if k < |SideAt(w, atL).router.all| {
        SidsStay(c, w, ev, atL, k);
        QueuedIsSaid(c, start, init, atL, k);
        StepQueues(c, w, ev, atL, k);
      } else {
        NewIsSilent(c, start, evs, atL, k);
      }
    }
  }

  lemma {:induction false} UnsaidBefore(c: Aead, start: World, evs: seq<Event>, atL: bool, k: nat)
    requires Start(start) && k >= |SideAt(Run(c, start, evs), atL).router.all|
    ensures Said(c, start, evs, atL, k) == []
  {
    if evs != [] {
      SidesOnlyGrow(c, Run(c, start, evs[..|evs| - 1]), evs[|evs| - 1], atL);
      UnsaidBefore(c, start, evs[..|evs| - 1], atL, k);
    }
  }

  lemma NewIsSilent(c: Aead, start: World, evs: seq<Event>, atL: bool, k: nat)
    requires Lawful(c) && Start(start) && !ForgeryIn(c, start, evs) && evs != []
    requires |Run(c, start, evs).l.router.all| <= U32_LIMIT
    requires |SideAt(Run(c, start, evs[..|evs| - 1]), atL).router.all| <= k < |SideAt(Run(c, start, evs), atL).router.all|
    ensures var s := SideAt(Run(c, start, evs), atL);
            QueuedFor(s, s.router.all[k].sid) == [] == Said(c, start, evs, atL, k)
  {
    var init, ev := evs[..|evs| - 1], evs[|evs| - 1];
    assert Distinct(SideAt(Run(c, start, evs), atL).router.all) by {
      RunKeepsInv(c, start, evs);
      TableIsSound(c, Run(c, start, evs), atL);
    }
    NewIsUnused(c, Run(c, start, init), ev, atL, k);
    NoStrays(c, start, init, atL, SideAt(Run(c, start, evs), atL).router.all[k].sid);
    StepQueuesNoStray(c, Run(c, start, init), ev, atL, SideAt(Run(c, start, evs), atL).router.all[k].sid);
    UnsaidBefore(c, start, init, atL, k);
  }

  lemma NewIsUnused(c: Aead, w: World, ev: Event, atL: bool, k: nat)
    requires Shape(w.l) && Shape(w.t) && Distinct(SideAt(Step(c, w, ev), atL).router.all)
    requires |SideAt(w, atL).router.all| <= k < |SideAt(Step(c, w, ev), atL).router.all|
    ensures Unused(SideAt(w, atL), SideAt(Step(c, w, ev), atL).router.all[k].sid)
  {
    forall j: nat | j < |SideAt(w, atL).router.all|
      ensures SideAt(w, atL).router.all[j].sid != SideAt(Step(c, w, ev), atL).router.all[k].sid
    {
      SidsStay(c, w, ev, atL, j);
      assert SideAt(Step(c, w, ev), atL).router.all[j].sid != SideAt(Step(c, w, ev), atL).router.all[k].sid;
    }
  }

  // What comes in for a stream is a prefix of what the same stream's socket said at the other
  // side: so a stream is closed only if the other end has ended, and after all that it sent.
  lemma HeardIsSaid(c: Aead, start: World, evs: seq<Event>, atL: bool, k: nat)
    requires Lawful(c) && Start(start) && !ForgeryIn(c, start, evs)
    requires |Run(c, start, evs).l.router.all| <= U32_LIMIT && k < |Run(c, start, evs).t.router.all|
    ensures var w := Run(c, start, evs);
            && k < |w.l.router.all|
            && MsgsOf(Received(w, atL), SideAt(w, atL).router.all[k].sid) <= Said(c, start, evs, !atL, k)
  {
    var w := Run(c, start, evs);
    RunKeepsInv(c, start, evs);
    ForwardStreamsArePrefixes(c, start, evs);
    assert OpenFrame(w.t.router.all[k]) == OpenFrame(w.l.router.all[k]);
    QueuedIsSaid(c, start, evs, !atL, k);
    ReceivedIsQueued(c, w, atL);
    MsgsPrefix(Received(w, atL), SendsOf(SideAt(w, !atL).cmds), SideAt(w, atL).router.all[k].sid);
  }

  lemma ReceivedIsQueued(c: Aead, w: World, atL: bool)
    requires Inv(c, w)
    ensures Received(w, atL) <= SendsOf(SideAt(w, !atL).cmds)
  {
  }
}
