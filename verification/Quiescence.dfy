/** The two nodes of module EndToEnd come to rest: deliveries alone cannot go on for ever. */
module Quiescence {
  import opened Framing
  import opened Library
  import opened HandshakePair
  import opened Session
  import opened Conversation
  import opened EndToEnd
  import opened Delivery

  // ---- A bound on the deliveries to come ----

  function FrameWeight(fs: seq<Frame>): nat
    decreases |fs|
  {
    if fs == [] then 0
    else FrameWeight(fs[..|fs| - 1]) + if fs[|fs| - 1].msgType.Message? then 2 else 1
  }

  /** The session frames among `fs` that were not delivered yet. */
  function Undelivered(fs: seq<Frame>, got: nat): seq<Frame> {
    var from := if got < 5 then 5 else got;
    if |fs| <= from then [] else fs[from..]
  }

  /** Texts that establishing would put on the connection, and the address report. */
  function Backlog(s: Side, device: PeerId): nat {
    if device in s.reg.sessions then 0 else 2 * |s.sends| + 1
  }

  function HandshakeLeft(got: nat): nat { if got < 5 then 5 - got else 0 }

  function SideWeight(s: Side, device: PeerId, incoming: seq<Frame>): nat {
    HandshakeLeft(s.got) + FrameWeight(Undelivered(incoming, s.got)) + Backlog(s, device)
  }

  /** At most this many deliveries are left if nobody sends anything new. */
  function Weight(lib: Library, a: End, b: End, w: World): nat {
    SideWeight(w.a, Device(lib, b), Frames(b, w.b)) + SideWeight(w.b, Device(lib, a), Frames(a, w.a))
  }

  // ---- The same in terms of what was sealed ----

  function OpsLeft(ops: seq<Op>, got: nat): seq<Op> {
    if got <= 5 then ops else if got - 5 <= |ops| then ops[got - 5..] else []
  }

  lemma {:induction false} HeadersWeigh(fs: seq<Frame>, ops: seq<Op>, n: nat)
    requires Headers(fs, ops) && n <= |ops|
    ensures FrameWeight(fs[n..]) == OpWeight(ops[n..])
    decreases |ops|
  {
    if n < |ops| {
      var m := |ops| - 1;
      HeadersWeigh(fs[..m], ops[..m], n);
      assert fs[n..][..|fs[n..]| - 1] == fs[..m][n..] && ops[n..][..|ops[n..]| - 1] == ops[..m][n..];
    }
  }

  lemma TailOfTalk(opening: seq<Frame>, fs: seq<Frame>, ops: seq<Op>, got: nat)
    requires |opening| == 5 && Headers(fs, ops) && got <= 5 + |ops|
    ensures FrameWeight(Undelivered(opening + fs, got)) == OpWeight(OpsLeft(ops, got))
  {
    var n := if got < 5 then 0 else got - 5;
    HeadersWeigh(fs, ops, n);
    assert ops[0..] == ops;
    if n < |ops| {
      assert (opening + fs)[5 + n..] == fs[n..];
    } else {
      assert fs[n..] == [] && OpsLeft(ops, got) == [];
    }
  }

  lemma SideTail(lib: Library, me: End, peer: End, s: Side, ops: seq<Op>, peerOps: seq<Op>, budget: nat, got: nat)
    requires SideInv(lib, me, peer, s, ops, peerOps, budget) && got <= |Frames(me, s)|
    ensures FrameWeight(Undelivered(Frames(me, s), got)) == OpWeight(OpsLeft(ops, got))
  {
    FrameCount(lib, me, peer, s, ops, peerOps, budget);
    if EarlyInv(lib, me, peer, s, ops, budget) {
      assert OpsLeft(ops, got) == [];
    } else {
      var c := CtxOf(lib, me, peer);
      SealedHeaders(lib, c.base, ops);
      TailOfTalk(c.opening, SealedOps(lib, c.base, ops), ops, got);
    }
  }

  lemma SideBacklog(lib: Library, me: End, peer: End, s: Side, ops: seq<Op>, peerOps: seq<Op>, budget: nat)
    requires SideInv(lib, me, peer, s, ops, peerOps, budget)
    ensures Backlog(s, Device(lib, peer)) == if s.got < 5 then 2 * |s.sends| + 1 else 0
  {
  }

  lemma OpsLeftGrow(ops: seq<Op>, ops': seq<Op>, got: nat)
    requires ops <= ops' && got <= 5 + |ops|
    ensures OpWeight(OpsLeft(ops', got)) - OpWeight(OpsLeft(ops, got)) == OpWeight(ops') - OpWeight(ops)
  {
    var n := if got < 5 then 0 else got - 5;
    OpWeightSplit(ops, n);
    OpWeightSplit(ops', n);
    assert ops'[..n] == ops[..n] && ops[0..] == ops && ops'[0..] == ops';
    assert OpsLeft(ops, got) == ops[n..] && OpsLeft(ops', got) == ops'[n..];
  }

  /** Hearing one payload takes its weight off what is left. */
  lemma OpsLeftShrink(ops: seq<Op>, got: nat)
    requires 5 <= got < 5 + |ops|
    ensures OpWeight(OpsLeft(ops, got)) == OpWeight(OpsLeft(ops, got + 1)) + if ops[got - 5].plain.TextPlain? then 2 else 1
  {
    var n := got - 5;
    OpWeightSplit(ops[n..], 1);
    assert ops[n..][..1] == [] + [ops[n]] && ops[n..][1..] == ops[n + 1..];
    OpWeightPush([], ops[n]);
    assert ops[0..] == ops;
  }

  /** The weight of a world from the payloads, the counters and the texts. */
  function OpsWeight(w: World, opsA: seq<Op>, opsB: seq<Op>): nat {
    EarlyWeight(w.a) + EarlyWeight(w.b) + OpWeight(OpsLeft(opsA, w.b.got)) + OpWeight(OpsLeft(opsB, w.a.got))
  }

  lemma WeightByOps(lib: Library, a: End, b: End, w: World, opsA: seq<Op>, opsB: seq<Op>, budget: nat)
    requires WorldInv(lib, a, b, w, opsA, opsB, budget)
    ensures Weight(lib, a, b, w) == OpsWeight(w, opsA, opsB)
  {
    SideTail(lib, a, b, w.a, opsA, opsB, budget, w.b.got);
    SideTail(lib, b, a, w.b, opsB, opsA, budget, w.a.got);
    SideBacklog(lib, a, b, w.a, opsA, opsB, budget);
    SideBacklog(lib, b, a, w.b, opsB, opsA, budget);
  }

  /** What is left on one side before its session exists. */
  function EarlyWeight(s: Side): nat {
    HandshakeLeft(s.got) + if s.got < 5 then 2 * |s.sends| + 1 else 0
  }

  lemma EarlyDrops(s: Side, s': Side, peerOps: seq<Op>)
    requires s'.got == s.got + 1 && s'.sends == s.sends && s.got < 5
    ensures EarlyWeight(s') + WeightGain(s, peerOps) < EarlyWeight(s)
    ensures OpsLeft(peerOps, s'.got) == OpsLeft(peerOps, s.got)
  {
  }

  lemma LateDrops(s: Side, s': Side, peerOps: seq<Op>)
    requires s'.got == s.got + 1 && 5 <= s.got < 5 + |peerOps|
    ensures EarlyWeight(s') == EarlyWeight(s) == 0
    ensures OpWeight(OpsLeft(peerOps, s'.got)) + WeightGain(s, peerOps) < OpWeight(OpsLeft(peerOps, s.got))
  {
    OpsLeftShrink(peerOps, s.got);
  }

  /** The counting behind a delivery to the first side. */
  lemma ReceiveCounts(w: World, side: Side, opsA: seq<Op>, opsA': seq<Op>, opsB: seq<Op>)
    requires side.got == w.a.got + 1 && side.sends == w.a.sends
    requires opsA <= opsA' && OpWeight(opsA') <= OpWeight(opsA) + WeightGain(w.a, opsB)
    requires w.b.got <= 5 + |opsA| && (w.a.got >= 5 ==> w.a.got < 5 + |opsB|)
    ensures OpsWeight(World(side, w.b), opsA', opsB) < OpsWeight(w, opsA, opsB)
  {
    OpsLeftGrow(opsA, opsA', w.b.got);
    if w.a.got < 5 {
      EarlyDrops(w.a, side, opsB);
    } else {
      LateDrops(w.a, side, opsB);
    }
  }

  lemma FirstSideReceives(lib: Library, a: End, b: End, w: World, opsA: seq<Op>, opsB: seq<Op>, budget: nat, act: Act)
    requires Honest(lib, a.party, b.party) && WorldInv(lib, a, b, w, opsA, opsB, budget) && budget < MAX_U32
    requires act.Receive? && SideStep(lib, a, b, w.a, Frames(b, w.b), act).Went?
    ensures Weight(lib, a, b, World(SideStep(lib, a, b, w.a, Frames(b, w.b), act).side, w.b)) < Weight(lib, a, b, w)
  {
    var side := SideStep(lib, a, b, w.a, Frames(b, w.b), act).side;
    ActShape(lib, a, b, w.a, Frames(b, w.b), act);
    SideReceives(lib, a, b, w.a, Frames(b, w.b), act);
    var opsA' := ReceiveKeeps(lib, a, b, w.a, w.b, opsA, opsB, budget, act.ts, act.rand);
    FrameCount(lib, a, b, w.a, opsA, opsB, budget);
    FrameCount(lib, b, a, w.b, opsB, opsA, budget);
    FrameCount(lib, a, b, side, opsA', opsB, budget + 1);
    PeerSealsMore(lib, b, a, w.b, opsB, opsA, opsA', budget);
    WeightByOps(lib, a, b, w, opsA, opsB, budget);
    WeightByOps(lib, a, b, World(side, w.b), opsA', opsB, budget + 1);
    ReceiveCounts(w, side, opsA, opsA', opsB);
  }

  lemma ReceiveLowersWeight(lib: Library, a: End, b: End, w: World, opsA: seq<Op>, opsB: seq<Op>, budget: nat, st: Step)
    requires Honest(lib, a.party, b.party) && WorldInv(lib, a, b, w, opsA, opsB, budget) && budget < MAX_U32
    requires st.act.Receive? && WorldStep(lib, a, b, w, st).Running?
    ensures Weight(lib, a, b, WorldStep(lib, a, b, w, st).world) < Weight(lib, a, b, w)
  {
    if st.onA {
      FirstSideReceives(lib, a, b, w, opsA, opsB, budget, st.act);
    } else {
      HonestBoth(lib, a.party, b.party);
      FirstSideReceives(lib, b, a, World(w.b, w.a), opsB, opsA, budget, st.act);
    }
  }

  // ---- The theorem ----

  predicate AllReceive(steps: seq<Step>) {
    forall i | 0 <= i < |steps| :: steps[i].act.Receive?
  }

  lemma RunSnoc(lib: Library, a: End, b: End, w: World, steps: seq<Step>, st: Step)
    ensures var before := RunWorld(lib, a, b, w, steps);
            RunWorld(lib, a, b, w, steps + [st]) == if before.Running? then WorldStep(lib, a, b, before.world, st) else before
  {
    assert (steps + [st])[..|steps|] == steps;
  }

  lemma FrontReceives(more: seq<Step>)
    requires AllReceive(more) && more != []
    ensures AllReceive(more[..|more| - 1]) && more[|more| - 1].act.Receive?
  {
  }

  lemma SplitLast<T>(s: seq<T>, t: seq<T>)
    requires t != []
    ensures s + t == s + t[..|t| - 1] + [t[|t| - 1]]
  {
  }

  lemma LastDelivery(lib: Library, a: End, b: End, w: World, steps: seq<Step>, last: Step, all: seq<Step>)
    requires Honest(lib, a.party, b.party) && FreshSide(lib, a, b, w.a) && FreshSide(lib, b, a, w.b)
    requires |steps| < MAX_U32 && last.act.Receive? && all == steps + [last] && RunWorld(lib, a, b, w, all).Running?
    ensures RunWorld(lib, a, b, w, steps).Running?
    ensures Weight(lib, a, b, RunWorld(lib, a, b, w, all).world) < Weight(lib, a, b, RunWorld(lib, a, b, w, steps).world)
  {
    RunSnoc(lib, a, b, w, steps, last);
    var opsA, opsB := RunKeeps(lib, a, b, w, steps);
    ReceiveLowersWeight(lib, a, b, RunWorld(lib, a, b, w, steps).world, opsA, opsB, |steps|, last);
  }

  /** After any schedule, deliveries alone stop: at most Weight more of them are possible. */
  lemma {:induction false} DeliveriesBounded(lib: Library, a: End, b: End, w: World, steps: seq<Step>, more: seq<Step>)
    requires Honest(lib, a.party, b.party) && FreshSide(lib, a, b, w.a) && FreshSide(lib, b, a, w.b)
    requires |steps| + |more| <= MAX_U32 && AllReceive(more)
    requires RunWorld(lib, a, b, w, steps + more).Running?
    ensures RunWorld(lib, a, b, w, steps).Running?
    ensures |more| + Weight(lib, a, b, RunWorld(lib, a, b, w, steps + more).world) <= Weight(lib, a, b, RunWorld(lib, a, b, w, steps).world)
    decreases |more|
  {
    if more == [] {
      assert steps + more == steps;
    } else {
      var front, last := more[..|more| - 1], more[|more| - 1];
      SplitLast(steps, more);
      FrontReceives(more);
      LastDelivery(lib, a, b, w, steps + front, last, steps + more);
      DeliveriesBounded(lib, a, b, w, steps, front);
    }
  }

  lemma CanReceive(lib: Library, a: End, b: End, w: World, opsA: seq<Op>, opsB: seq<Op>, budget: nat, act: Act)
    requires Honest(lib, a.party, b.party) && WorldInv(lib, a, b, w, opsA, opsB, budget) && budget < MAX_U32
    requires act.Receive? && w.a.started && w.a.got < |Frames(b, w.b)|
    ensures SideStep(lib, a, b, w.a, Frames(b, w.b), act).Went?
  {
    SideReceives(lib, a, b, w.a, Frames(b, w.b), act);
    var _ := ReceiveKeeps(lib, a, b, w.a, w.b, opsA, opsB, budget, act.ts, act.rand);
  }

  lemma StepCanReceive(lib: Library, a: End, b: End, w: World, opsA: seq<Op>, opsB: seq<Op>, budget: nat, act: Act, onA: bool)
    requires Honest(lib, a.party, b.party) && WorldInv(lib, a, b, w, opsA, opsB, budget) && budget < MAX_U32 && act.Receive?
    requires if onA then w.a.started && w.a.got < |Frames(b, w.b)| else w.b.started && w.b.got < |Frames(a, w.a)|
    ensures WorldStep(lib, a, b, w, Step(onA, act)).Running?
  {
    if onA {
      CanReceive(lib, a, b, w, opsA, opsB, budget, act);
    } else {
      HonestBoth(lib, a.party, b.party);
      CanReceive(lib, b, a, World(w.b, w.a), opsB, opsA, budget, act);
    }
  }

  /** As long as the two started nodes are not at rest, some delivery is possible. */
  lemma NotQuiescentCanDeliver(lib: Library, a: End, b: End, w: World, steps: seq<Step>, act: Act) returns (onA: bool)
    requires Honest(lib, a.party, b.party) && FreshSide(lib, a, b, w.a) && FreshSide(lib, b, a, w.b) && |steps| < MAX_U32
    requires RunWorld(lib, a, b, w, steps).Running? && act.Receive?
    requires var now := RunWorld(lib, a, b, w, steps).world; now.a.started && now.b.started && !Quiescent(a, b, now)
    ensures RunWorld(lib, a, b, w, steps + [Step(onA, act)]).Running?
  {
    var now := RunWorld(lib, a, b, w, steps).world;
    var opsA, opsB := RunKeeps(lib, a, b, w, steps);
    onA := now.a.got < |Frames(b, now.b)|;
    RunSnoc(lib, a, b, w, steps, Step(onA, act));
    StepCanReceive(lib, a, b, now, opsA, opsB, |steps|, act, onA);
  }
}
