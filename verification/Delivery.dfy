/** The end-to-end theorem: what the two nodes of module EndToEnd observe of each other. */
module Delivery {
  import opened ByteStrings
  import opened Framing
  import opened Library
  import Hs = Handshake
  import opened HandshakePair
  import opened Session
  import opened R = Registry
  import opened Conversation
  import opened EndToEnd

  lemma {:induction false} OpeningKinds(lib: Library, me: Party, peer: Party, hi: nat)
    requires hi <= 5
    ensures forall i | 0 <= i < hi :: !FrameRange(lib, me, peer, 0, hi)[i].msgType.Message?
  {
    forall i | 0 <= i < hi
      ensures !FrameRange(lib, me, peer, 0, hi)[i].msgType.Message?
    {
      FrameRangeAt(lib, me, peer, 0, hi, i);
      HandshakeFrameKind(lib, me, peer, i);
    }
  }

  // ---- What one side observes ----

  /** `heard` is what a side has opened so far. */
  ghost predicate Observes(me: End, s: Side, ops: seq<Op>, heard: seq<Op>) {
    && |ops| <= MAX_U32
    && Received(EventsOf(s.reg.queue)) == Texts(heard) && Acked(EventsOf(s.reg.queue)) == AcksIn(heard)
    && (forall i | 0 <= i < |EventsOf(s.reg.queue)| :: !EventsOf(s.reg.queue)[i].HandshakeFailed?)
    && Owed(Frames(me, s)) == AcksDue(ops)
  }

  function Heard(s: Side, peerOps: seq<Op>): seq<Op> {
    if 5 <= s.got <= 5 + |peerOps| then peerOps[..s.got - 5] else []
  }

  lemma EarlyObserves(lib: Library, me: End, peer: End, s: Side, budget: nat)
    requires EarlyInv(lib, me, peer, s, [], budget)
    ensures Observes(me, s, [], [])
  {
    if s.started {
      OpeningKinds(lib, me.party, peer.party, Sent(s.got));
      NothingOwed(Frames(me, s));
    }
  }

  lemma TalkObserves(lib: Library, me: End, peer: End, s: Side, ops: seq<Op>, peerOps: seq<Op>, budget: nat)
    requires TalkInv(lib, CtxOf(lib, me, peer), me.party.id, s, ops, peerOps, budget)
    ensures Observes(me, s, ops, Heard(s, peerOps))
  {
    TalkHears(CtxOf(lib, me, peer), s.reg.queue, peerOps, s.got - 5);
    TalkOwes(lib, me, peer, s, ops);
  }

  lemma TalkHears(c: Ctx, queue: seq<Output>, peerOps: seq<Op>, n: nat)
    requires c.first.SessionEstablished? && n <= |peerOps| <= MAX_U32
    requires EventsOf(queue) == [c.first] + EventsFor(c.device, peerOps[..n])
    ensures Report(EventsOf(queue), peerOps[..n])
  {
    HeardEvents(c.first, c.device, peerOps, n);
  }

  lemma TalkOwes(lib: Library, me: End, peer: End, s: Side, ops: seq<Op>)
    requires ShowsFrames(lib, CtxOf(lib, me, peer), s.reg.queue, ops)
    ensures Owed(Frames(me, s)) == AcksDue(ops)
  {
    var c := CtxOf(lib, me, peer);
    OpeningKinds(lib, me.party, peer.party, 5);
    SealedHeaders(lib, c.base, ops);
    OwedForOps(c.opening, SealedOps(lib, c.base, ops), ops);
  }

  /** What the invariant says about one side, in terms of what it observes. */
  lemma SideObserves(lib: Library, me: End, peer: End, s: Side, ops: seq<Op>, peerOps: seq<Op>, budget: nat)
    requires SideInv(lib, me, peer, s, ops, peerOps, budget)
    ensures Observes(me, s, ops, Heard(s, peerOps)) && Stage(s, ops, peerOps)
  {
    if EarlyInv(lib, me, peer, s, ops, budget) {
      EarlyObserves(lib, me, peer, s, budget);
    } else {
      TalkObserves(lib, me, peer, s, ops, peerOps, budget);
    }
  }

  // ---- The theorem ----

  /** Traffic from `s` to `r`: the receiver was told of a prefix of the texts that fit, each
      once and in order; the sender was told of a prefix of the acks owed for its message
      frames, which name those texts; nothing failed. */
  ghost predicate Flows(me: End, s: Side, r: Side) {
    && Received(EventsOf(r.reg.queue)) <= Fitting(s.sends)
    && Acked(EventsOf(s.reg.queue)) <= Owed(Frames(me, s))
    && |Owed(Frames(me, s))| <= |Fitting(s.sends)|
    && (forall i | 0 <= i < |Owed(Frames(me, s))| :: Owed(Frames(me, s))[i].msgId == Fitting(s.sends)[i].msgId)
    && (forall i | 0 <= i < |EventsOf(s.reg.queue)| :: !EventsOf(s.reg.queue)[i].HandshakeFailed?)
  }

  /** Everything has arrived: both are established, every text that fits was received, and
      every one was acknowledged exactly once. */
  ghost predicate Complete(me: End, s: Side, r: Side) {
    && Received(EventsOf(r.reg.queue)) == Fitting(s.sends)
    && Acked(EventsOf(s.reg.queue)) == Owed(Frames(me, s))
    && |Owed(Frames(me, s))| == |Fitting(s.sends)|
  }

  ghost predicate Quiescent(a: End, b: End, w: World) {
    w.a.started && w.b.started && w.a.got == |Frames(b, w.b)| && w.b.got == |Frames(a, w.a)|
  }

  /** How far a side is, apart from its registry. */
  ghost predicate Stage(s: Side, ops: seq<Op>, peerOps: seq<Op>) {
    if s.started && s.got >= 5
    then |peerOps| <= MAX_U32 && s.got <= 5 + |peerOps| && Texts(ops) == Fitting(s.sends) && AcksIn(ops) == AcksDue(Heard(s, peerOps))
    else ops == [] && Heard(s, peerOps) == []
  }

  lemma HeardPrefix(s: Side, peerOps: seq<Op>)
    requires |peerOps| <= MAX_U32
    ensures |Heard(s, peerOps)| <= MAX_U32
    ensures Texts(Heard(s, peerOps)) <= Texts(peerOps) && AcksIn(Heard(s, peerOps)) <= AcksIn(peerOps)
    ensures AcksDue(Heard(s, peerOps)) <= AcksDue(peerOps)
    ensures s.got == 5 + |peerOps| ==> Heard(s, peerOps) == peerOps
  {
    var n := if 5 <= s.got <= 5 + |peerOps| then s.got - 5 else 0;
    assert Heard(s, peerOps) == peerOps[..n];
    OpsPrefix(peerOps, n);
  }

  lemma FlowFromObservations(me: End, peer: End, s: Side, r: Side, ops: seq<Op>, peerOps: seq<Op>)
    requires Observes(me, s, ops, Heard(s, peerOps)) && Observes(peer, r, peerOps, Heard(r, ops))
    requires Stage(s, ops, peerOps) && Stage(r, peerOps, ops)
    ensures Flows(me, s, r)
    ensures s.got == 5 + |peerOps| && r.got == 5 + |ops| && s.started && r.started ==> Complete(me, s, r)
  {
    HeardPrefix(s, peerOps);
    HeardPrefix(r, ops);
    DueMatchesTexts(ops);
  }

  lemma FlowOf(lib: Library, me: End, peer: End, s: Side, r: Side, ops: seq<Op>, peerOps: seq<Op>, budget: nat)
    requires SideInv(lib, me, peer, s, ops, peerOps, budget) && SideInv(lib, peer, me, r, peerOps, ops, budget)
    ensures Flows(me, s, r)
    ensures s.got == 5 + |peerOps| && r.got == 5 + |ops| && s.started && r.started ==> Complete(me, s, r)
  {
    SideObserves(lib, me, peer, s, ops, peerOps, budget);
    SideObserves(lib, peer, me, r, peerOps, ops, budget);
    FlowFromObservations(me, peer, s, r, ops, peerOps);
  }

  lemma QuiescentMeansDone(lib: Library, a: End, b: End, w: World, opsA: seq<Op>, opsB: seq<Op>, budget: nat)
    requires WorldInv(lib, a, b, w, opsA, opsB, budget) && Quiescent(a, b, w)
    ensures w.a.got == 5 + |opsB| && w.b.got == 5 + |opsA|
  {
    FrameCount(lib, a, b, w.a, opsA, opsB, budget);
    FrameCount(lib, b, a, w.b, opsB, opsA, budget);
  }

  /** Everything a side has sealed, control frames included: `ops` are its payloads, in order.
      After the news of the session it was told of the payloads of its peer that it has
      received, each once, in order and field by field. Without a session there is neither. */
  ghost predicate Surfaces(lib: Library, me: End, peer: End, s: Side, ops: seq<Op>, peerOps: seq<Op>) {
    var c := CtxOf(lib, me, peer);
    && |ops| <= MAX_U32 && |peerOps| <= MAX_U32
    && if s.started && s.got >= 5 then
         && s.got - 5 <= |peerOps| && c.device in s.reg.sessions
         && Frames(me, s) == c.opening + SealedOps(lib, c.base, ops)
         && Told(c.first, c.device, EventsOf(s.reg.queue), peerOps[..s.got - 5])
       else EventsOf(s.reg.queue) == [] && forall i | 0 <= i < |Frames(me, s)| :: !Frames(me, s)[i].IsSessionFrame()
  }

  /** The first event, then one for each payload, with its own fields. */
  predicate Told(first: BehaviourEvent, device: PeerId, events: seq<BehaviourEvent>, ops: seq<Op>) {
    && |events| == 1 + |ops| && events[0] == first
    && forall i | 0 <= i < |ops| :: Tells(device, events[1 + i], ops[i])
  }

  lemma ToldOf(first: BehaviourEvent, device: PeerId, ops: seq<Op>)
    requires |ops| <= MAX_U32
    ensures Told(first, device, [first] + EventsFor(device, ops), ops)
  {
    EventsTell(device, ops);
  }

  /** A session frame that is next for a side finds its session there. */
  ghost predicate InTime(lib: Library, me: End, peer: End, s: Side, ps: Side) {
    s.started && s.got < |Frames(peer, ps)| && Frames(peer, ps)[s.got].IsSessionFrame() ==> Device(lib, peer) in s.reg.sessions
  }

  lemma EarlySurfaces(lib: Library, me: End, peer: End, s: Side, peerOps: seq<Op>, budget: nat)
    requires EarlyInv(lib, me, peer, s, [], budget) && |peerOps| <= MAX_U32
    ensures Surfaces(lib, me, peer, s, [], peerOps)
  {
    if s.started {
      forall i | 0 <= i < |Frames(me, s)|
        ensures !Frames(me, s)[i].IsSessionFrame()
      {
        FrameRangeAt(lib, me.party, peer.party, 0, Sent(s.got), i);
        HandshakeFrameKind(lib, me.party, peer.party, i);
      }
    }
  }

  lemma TalkSurfaces(lib: Library, me: End, peer: End, s: Side, ops: seq<Op>, peerOps: seq<Op>, budget: nat)
    requires TalkInv(lib, CtxOf(lib, me, peer), me.party.id, s, ops, peerOps, budget)
    ensures Surfaces(lib, me, peer, s, ops, peerOps)
  {
    var c := CtxOf(lib, me, peer);
    ToldOf(c.first, c.device, peerOps[..s.got - 5]);
  }

  lemma SideSurfaces(lib: Library, me: End, peer: End, s: Side, ops: seq<Op>, peerOps: seq<Op>, budget: nat)
    requires SideInv(lib, me, peer, s, ops, peerOps, budget) && |peerOps| <= MAX_U32
    ensures Surfaces(lib, me, peer, s, ops, peerOps)
  {
    if EarlyInv(lib, me, peer, s, ops, budget) {
      EarlySurfaces(lib, me, peer, s, peerOps, budget);
    } else {
      TalkSurfaces(lib, me, peer, s, ops, peerOps, budget);
    }
  }

  lemma NextIsInTime(lib: Library, me: End, peer: End, s: Side, ps: Side, ops: seq<Op>, peerOps: seq<Op>, budget: nat)
    requires Surfaces(lib, me, peer, s, ops, peerOps) && SideInv(lib, peer, me, ps, peerOps, ops, budget)
    ensures InTime(lib, me, peer, s, ps)
  {
    if s.started && s.got < |Frames(peer, ps)| && s.got < 5 {
      SentFrameAt(lib, peer, me, ps, peerOps, ops, budget, s.got);
      HandshakeFrameKind(lib, peer.party, me.party, s.got);
    }
  }

  /** End to end, for any finite schedule of starts, sends, control frames and deliveries by
      both sides: nothing fails or panics; no session frame reaches a side before its session
      exists; every payload sealed by one side, of whatever kind, surfaces on the other exactly
      once and in order; every text that fits is among them in the order it was sent, and is
      acknowledged once with its id and sequence number; and when nothing is left to deliver
      all of this has happened. */
  lemma EndToEndDelivery(lib: Library, a: End, b: End, w: World, steps: seq<Step>) returns (opsA: seq<Op>, opsB: seq<Op>)
    requires Honest(lib, a.party, b.party) && FreshSide(lib, a, b, w.a) && FreshSide(lib, b, a, w.b)
    requires |steps| <= MAX_U32
    ensures var o := RunWorld(lib, a, b, w, steps);
            && !o.Crashed?
            && (o.Running? ==>
                  && Flows(a, o.world.a, o.world.b) && Flows(b, o.world.b, o.world.a)
                  && Surfaces(lib, a, b, o.world.a, opsA, opsB) && Surfaces(lib, b, a, o.world.b, opsB, opsA)
                  && InTime(lib, a, b, o.world.a, o.world.b) && InTime(lib, b, a, o.world.b, o.world.a)
                  && (Quiescent(a, b, o.world) ==>
                        && Complete(a, o.world.a, o.world.b) && Complete(b, o.world.b, o.world.a)
                        && o.world.a.got == 5 + |opsB| && o.world.b.got == 5 + |opsA|))
  {
    opsA, opsB := RunKeeps(lib, a, b, w, steps);
    var o := RunWorld(lib, a, b, w, steps);
    if o.Running? {
      WorldFlows(lib, a, b, o.world, opsA, opsB, |steps|);
      WorldSurfaces(lib, a, b, o.world, opsA, opsB, |steps|);
    }
  }

  lemma WorldFlows(lib: Library, a: End, b: End, w: World, opsA: seq<Op>, opsB: seq<Op>, budget: nat)
    requires WorldInv(lib, a, b, w, opsA, opsB, budget)
    ensures Flows(a, w.a, w.b) && Flows(b, w.b, w.a)
    ensures Quiescent(a, b, w) ==> Complete(a, w.a, w.b) && Complete(b, w.b, w.a) && w.a.got == 5 + |opsB| && w.b.got == 5 + |opsA|
  {
    FlowOf(lib, a, b, w.a, w.b, opsA, opsB, budget);
    FlowOf(lib, b, a, w.b, w.a, opsB, opsA, budget);
    if Quiescent(a, b, w) {
      QuiescentMeansDone(lib, a, b, w, opsA, opsB, budget);
    }
  }

  lemma WorldSurfaces(lib: Library, a: End, b: End, w: World, opsA: seq<Op>, opsB: seq<Op>, budget: nat)
    requires WorldInv(lib, a, b, w, opsA, opsB, budget) && budget <= MAX_U32
    ensures Surfaces(lib, a, b, w.a, opsA, opsB) && Surfaces(lib, b, a, w.b, opsB, opsA)
    ensures InTime(lib, a, b, w.a, w.b) && InTime(lib, b, a, w.b, w.a)
  {
    OpsFacts(lib, a, b, w.a, opsA, opsB, budget);
    OpsFacts(lib, b, a, w.b, opsB, opsA, budget);
    SideSurfaces(lib, a, b, w.a, opsA, opsB, budget);
    SideSurfaces(lib, b, a, w.b, opsB, opsA, budget);
    NextIsInTime(lib, a, b, w.a, w.b, opsA, opsB, budget);
    NextIsInTime(lib, b, a, w.b, w.a, opsB, opsA, budget);
  }

  // ---- The frames are fit for the wire ----

  lemma HandshakeFramesWellFormed(lib: Library, me: Party, peer: Party, k: nat)
    requires k < 5 && |me.id.userName| <= Hs.MAX_USER_NAME
    ensures WellFormed(FrameOf(lib, me, peer, k))
  {
  }

  lemma SessionFrameWellFormed(lib: Library, base: SessionState, n: u32, op: Op)
    requires AeadCorrect(lib) && Good(lib, op.plain) && base.sessionId != ZERO_ID
    ensures WellFormed(FrameFor(lib, base, n, op.msgId, op.plain))
  {
    var p := PlainBytes(lib, op.plain);
    assert |p| <= 1 + 8 + MAX_MESSAGE_BYTES;
  }

  lemma SideWellFormed(lib: Library, me: End, peer: End, s: Side, ops: seq<Op>, peerOps: seq<Op>, budget: nat, k: nat)
    requires Correct(lib) && |me.party.id.userName| <= Hs.MAX_USER_NAME
    requires PairKeys(lib, me.party, peer.party).sessionId != ZERO_ID
    requires SideInv(lib, me, peer, s, ops, peerOps, budget) && k < |Frames(me, s)|
    ensures WellFormed(Frames(me, s)[k])
  {
    SentFrameAt(lib, me, peer, s, ops, peerOps, budget, k);
    OpsFacts(lib, me, peer, s, ops, peerOps, budget);
    if k < 5 {
      HandshakeFramesWellFormed(lib, me.party, peer.party, k);
    } else {
      SessionFrameWellFormed(lib, CtxOf(lib, me, peer).base, k - 5, ops[k - 5]);
    }
  }

  ghost predicate AllWellFormed(fs: seq<Frame>) { forall k | 0 <= k < |fs| :: WellFormed(fs[k]) }

  lemma WorldWellFormed(lib: Library, a: End, b: End, w: World, opsA: seq<Op>, opsB: seq<Op>, budget: nat)
    requires Honest(lib, a.party, b.party) && PairKeys(lib, a.party, b.party).sessionId != ZERO_ID
    requires WorldInv(lib, a, b, w, opsA, opsB, budget)
    ensures AllWellFormed(Frames(a, w.a)) && AllWellFormed(Frames(b, w.b))
  {
    PairAgrees(lib, a.party, b.party);
    forall k | 0 <= k < |Frames(a, w.a)|
      ensures WellFormed(Frames(a, w.a)[k])
    {
      SideWellFormed(lib, a, b, w.a, opsA, opsB, budget, k);
    }
    forall k | 0 <= k < |Frames(b, w.b)|
      ensures WellFormed(Frames(b, w.b)[k])
    {
      SideWellFormed(lib, b, a, w.b, opsB, opsA, budget, k);
    }
  }

  /** Every frame either node puts on the connection is one the codec carries unchanged, so
      the byte stream between them is the FIFO channel used here. */
  lemma FramesWellFormed(lib: Library, a: End, b: End, w: World, steps: seq<Step>)
    requires Honest(lib, a.party, b.party) && FreshSide(lib, a, b, w.a) && FreshSide(lib, b, a, w.b)
    requires |steps| <= MAX_U32 && PairKeys(lib, a.party, b.party).sessionId != ZERO_ID
    ensures var o := RunWorld(lib, a, b, w, steps);
            o.Running? ==> AllWellFormed(Frames(a, o.world.a)) && AllWellFormed(Frames(b, o.world.b))
  {
    var opsA, opsB := RunKeeps(lib, a, b, w, steps);
    var o := RunWorld(lib, a, b, w, steps);
    if o.Running? {
      WorldWellFormed(lib, a, b, o.world, opsA, opsB, |steps|);
    }
  }
}
