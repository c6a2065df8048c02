// The tunnel end to end: handshake, sealed channel and multiplexer over one relay.
module Tunnel {
  import opened Base
  import opened Crypto
  import Channel
  import opened Handshake
  import opened Mux
  import MuxSafety

  // The tunnel as it stands when both handshakes are done, `i` listening and `j` dialling.
  function Joint(s: Suite, p: Pending, q: Pending, toP: Message, toQ: Message): World
    requires CompletedWith(s, p, toP, q).Ok? && CompletedWith(s, q, toQ, p).Ok?
  {
    var idle := Side([], 0, Router(map[], []), [], [], true);
    World(Joined(CompletedWith(s, p, toP, q).value, CompletedWith(s, q, toQ, p).value), idle, idle)
  }

  // For every stream, what the target's socket is handed is a prefix of what the listener's sent,
  // and what the listener's is handed is a contiguous run of the target's replies.
  ghost predicate StreamsInOrder(w: World)
    requires Shape(w.l) && Shape(w.t)
  {
    && MuxSafety.ForwardInOrder(w)
    && (forall k :: 0 <= k < |w.l.router.all| ==>
          match w.l.since[k]
          case None => MuxSafety.Handed(w, true, k) == []
          case Some(f) => f <= |MuxSafety.Replies(w, k)| && MuxSafety.Handed(w, true, k) <= MuxSafety.Replies(w, k)[f..])
  }

  // Whatever the relay did to the handshake and does to the frames after it: if both sides
  // completed with one another, every stream is in order and unmixed at every moment, or this
  // names a break both sides met, equal directional keys or a forged frame.
  lemma EndToEnd(s: Suite, log: seq<Instance>, i: nat, j: nat, toI: Message, toJ: Message, c: Aead, evs: seq<Event>)
    requires Commutes(s) && Lawful(c) && BothComplete(s, log, i, j, toI, toJ)
    requires Exchanged(s, log[i].pending, log[j].pending, toI, toJ)
    requires |Run(c, Joint(s, log[i].pending, log[j].pending, toI, toJ), evs).l.router.all| <= U32_LIMIT
    ensures var p, q := log[i].pending, log[j].pending;
            var start := Joint(s, p, q, toI, toJ);
            || (BrokenFor(s, log, i, j, toI) && BrokenFor(s, log, j, i, toJ))
            || !Channel.DistinctKeys(start.net)
            || ForgeryIn(c, start, evs)
            || StreamsInOrder(Run(c, start, evs))
  {
    var p, q := log[i].pending, log[j].pending;
    var start := Joint(s, p, q, toI, toJ);
    BothCompleteMatched(s, log, i, j, toI, toJ);
    if !(BrokenFor(s, log, i, j, toI) && BrokenFor(s, log, j, i, toJ))
       && Channel.DistinctKeys(start.net) && !ForgeryIn(c, start, evs) {
      assert Start(start);
      MuxSafety.ForwardStreamsArePrefixes(c, start, evs);
      var w := Run(c, start, evs);
      forall k: nat | k < |w.l.router.all|
        ensures match w.l.since[k]
                case None => MuxSafety.Handed(w, true, k) == []
                case Some(f) => f <= |MuxSafety.Replies(w, k)| && MuxSafety.Handed(w, true, k) <= MuxSafety.Replies(w, k)[f..]
      {
        MuxSafety.ReverseStreamsAreSlices(c, start, evs, k);
      }
    }
  }
}
