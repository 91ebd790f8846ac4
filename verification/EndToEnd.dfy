/** Two nodes on one connection, from the first Hello to the last acknowledgement. Each node
    is a whole session registry; the two directions are FIFO channels of frames, which is what
    module Stream proves of the byte stream between them. */
module EndToEnd {
  import opened ByteStrings
  import opened Framing
  import opened Library
  import Hs = Handshake
  import opened HandshakePair
  import opened Session
  import SR = SessionRuns
  import opened R = Registry
  import opened Conversation

  /** One end: the party and the key under which it knows the connection. */
  datatype End = End(party: Party, key: ConnKey)

  datatype Act =
    | Start(now: nat)
    | SendText(text: Bytes, msgId: u64, ts: u64)
    | SendPlain(plain: Plain, rand: u64)
    | Receive(ts: u64, rand: u64)

  datatype SideOutcome = Went(side: Side) | Disabled | Panicked

  function Device(lib: Library, e: End): PeerId { DeviceId(lib, e.party.id) }

  function Frames(e: End, s: Side): seq<Frame> { FramesTo(s.reg.queue, e.key) }

  /** A control frame a node may send: not a text, not an ack, and readable. */
  ghost predicate Controls(lib: Library, p: Plain) {
    !p.TextPlain? && !p.AckPlain? && Good(lib, p)
  }

  function FromEffect(s: Side, e: Effect): SideOutcome {
    match e
    case Next(reg) => Went(s.(reg := reg))
    case Crash => Panicked
  }

  function ReceiveStep(lib: Library, me: End, s: Side, frame: Frame, ts: u64, rand: u64): SideOutcome
    requires ValidHandshakes(s.reg.handshakes)
  {
    FromEffect(s.(got := s.got + 1), OnFrame(lib, s.reg, me.key, frame, Env(me.party.coins, ts, rand)))
  }

  /** One act of the side `s` at end `me`, where `incoming` are all frames its peer has put on
      the connection. The handler announces the substream once, before any frame. An oversized
      text is sent only while it would be buffered: with a live session it makes the node drop
      the connection. */
  ghost function SideStep(lib: Library, me: End, peer: End, s: Side, incoming: seq<Frame>, act: Act): SideOutcome
    requires ValidHandshakes(s.reg.handshakes)
  {
    match act
    case Start(now) => if s.started then Disabled else Went(s.(reg := OnSubstreamReady(lib, s.reg, me.key, now), started := true))
    case SendText(text, msgId, ts) =>
      if lib.utf8(text) && (|text| <= MAX_MESSAGE_BYTES || Device(lib, peer) !in s.reg.sessions)
      then Went(s.(reg := SendMessage(lib, s.reg, Device(lib, peer), text, msgId, ts), sends := s.sends + [Outgoing(msgId, text)]))
      else Disabled
    case SendPlain(plain, rand) =>
      if Controls(lib, plain) then FromEffect(s, SendControl(lib, s.reg, Device(lib, peer), plain, rand)) else Disabled
    case Receive(ts, rand) =>
      if s.started && s.got < |incoming| then ReceiveStep(lib, me, s, incoming[s.got], ts, rand) else Disabled
  }

  // ---- The invariant of one side ----

  function CtxOf(lib: Library, me: End, peer: End): Ctx {
    var result := PairResult(lib, me.party, peer.party);
    Ctx(me.key, Device(lib, peer), NewSession(result), FrameRange(lib, me.party, peer.party, 0, 5),
        SessionEstablished(Device(lib, peer), me.key.conn, result))
  }

  /** Nothing is established yet: every text so far is waiting. */
  ghost predicate Buffers(k: ConnKey, device: PeerId, s: Side) {
    && device !in s.reg.sessions && Buffered(s.reg, device) == s.sends
    && (k in s.reg.observedAddrs ==> s.reg.observedAddrs[k].ip.Valid())
  }

  ghost predicate Waiting(lib: Library, me: End, peer: End, s: Side) {
    && !s.started && s.got == 0 && s.reg.queue == [] && me.key !in s.reg.handshakes
    && DeviceOf(s.reg, me.key.transport) == me.party.expected
  }

  ghost predicate Shaking(lib: Library, me: End, peer: End, s: Side) {
    && s.started && s.got < 5
    && me.key in s.reg.handshakes && s.reg.handshakes[me.key] == StateAt(lib, me.party, peer.party, s.got)
    && Frames(me, s) == FrameRange(lib, me.party, peer.party, 0, Sent(s.got)) && EventsOf(s.reg.queue) == []
  }

  /** Before the session exists. */
  ghost predicate EarlyInv(lib: Library, me: End, peer: End, s: Side, ops: seq<Op>, budget: nat) {
    && s.reg.identity == me.party.id && ValidHandshakes(s.reg.handshakes)
    && Buffers(me.key, Device(lib, peer), s) && ops == [] && AllText(lib, s.sends) && |s.sends| <= budget
    && (Waiting(lib, me, peer, s) || Shaking(lib, me, peer, s))
  }

  ghost predicate SideInv(lib: Library, me: End, peer: End, s: Side, ops: seq<Op>, peerOps: seq<Op>, budget: nat) {
    || EarlyInv(lib, me, peer, s, ops, budget)
    || TalkInv(lib, CtxOf(lib, me, peer), me.party.id, s, ops, peerOps, budget)
  }

  lemma EarlySide(lib: Library, me: End, peer: End, s: Side, ops: seq<Op>, peerOps: seq<Op>, budget: nat)
    requires EarlyInv(lib, me, peer, s, ops, budget)
    ensures SideInv(lib, me, peer, s, ops, peerOps, budget)
  {
  }

  lemma TalkSide(lib: Library, me: End, peer: End, s: Side, ops: seq<Op>, peerOps: seq<Op>, budget: nat)
    requires TalkInv(lib, CtxOf(lib, me, peer), me.party.id, s, ops, peerOps, budget)
    ensures SideInv(lib, me, peer, s, ops, peerOps, budget)
  {
  }

  /** More sealing by the peer does not disturb a side. */
  lemma PeerSealsMore(lib: Library, me: End, peer: End, s: Side, ops: seq<Op>, peerOps: seq<Op>, more: seq<Op>, budget: nat)
    requires SideInv(lib, me, peer, s, ops, peerOps, budget) && peerOps <= more && |more| <= MAX_U32
    ensures SideInv(lib, me, peer, s, ops, more, budget + 1)
  {
    if !EarlyInv(lib, me, peer, s, ops, budget) {
      TalkMore(lib, CtxOf(lib, me, peer), me.party.id, s, ops, peerOps, more, budget);
    }
  }

  // ---- One act of one side ----

  lemma StartShakes(lib: Library, me: End, peer: End, s: Side, now: nat)
    requires Waiting(lib, me, peer, s) && s.reg.identity == me.party.id
    ensures Shaking(lib, me, peer, s.(reg := OnSubstreamReady(lib, s.reg, me.key, now), started := true))
  {
    var hello := FrameOf(lib, me.party, peer.party, 0);
    FramesPush([], Notify(me.key, [hello]), me.key);
    assert [] + [Notify(me.key, [hello])] == [Notify(me.key, [hello])];
    assert FrameRange(lib, me.party, peer.party, 0, 1) == [hello] + FrameRange(lib, me.party, peer.party, 1, 1);
  }

  lemma StartKeeps(lib: Library, me: End, peer: End, s: Side, ops: seq<Op>, peerOps: seq<Op>, budget: nat, now: nat)
    requires SideInv(lib, me, peer, s, ops, peerOps, budget) && !s.started
    ensures SideInv(lib, me, peer, s.(reg := OnSubstreamReady(lib, s.reg, me.key, now), started := true), ops, peerOps, budget + 1)
  {
    StartShakes(lib, me, peer, s, now);
  }

  lemma BufferKeeps(lib: Library, me: End, peer: End, s: Side, text: Bytes, msgId: u64, ts: u64)
    requires Buffers(me.key, Device(lib, peer), s)
    ensures var s' := s.(reg := SendMessage(lib, s.reg, Device(lib, peer), text, msgId, ts), sends := s.sends + [Outgoing(msgId, text)]);
            && Buffers(me.key, Device(lib, peer), s') && s'.reg == s.reg.(pendingSends := s'.reg.pendingSends)
            && (Waiting(lib, me, peer, s) ==> Waiting(lib, me, peer, s')) && (Shaking(lib, me, peer, s) ==> Shaking(lib, me, peer, s'))
  {
  }

  lemma TextKeeps(lib: Library, me: End, peer: End, s: Side, ops: seq<Op>, peerOps: seq<Op>, budget: nat, text: Bytes, msgId: u64, ts: u64)
    returns (ops': seq<Op>)
    requires SideInv(lib, me, peer, s, ops, peerOps, budget) && budget < MAX_U32
    requires lib.utf8(text) && (|text| <= MAX_MESSAGE_BYTES || Device(lib, peer) !in s.reg.sessions)
    ensures ops <= ops' && |ops'| <= budget + 1
    ensures SideInv(lib, me, peer, s.(reg := SendMessage(lib, s.reg, Device(lib, peer), text, msgId, ts), sends := s.sends + [Outgoing(msgId, text)]),
                    ops', peerOps, budget + 1)
  {
    if EarlyInv(lib, me, peer, s, ops, budget) {
      ops' := ops;
      BufferKeeps(lib, me, peer, s, text, msgId, ts);
    } else {
      ops' := TalkText(lib, CtxOf(lib, me, peer), me.party.id, s, ops, peerOps, budget, text, msgId, ts);
    }
  }

  lemma ControlKeepsInv(lib: Library, me: End, peer: End, s: Side, ops: seq<Op>, peerOps: seq<Op>, budget: nat, plain: Plain, rand: u64)
    returns (ops': seq<Op>)
    requires SideInv(lib, me, peer, s, ops, peerOps, budget) && budget < MAX_U32 && Controls(lib, plain)
    ensures ops <= ops' && |ops'| <= budget + 1
    ensures var e := SendControl(lib, s.reg, Device(lib, peer), plain, rand);
            e.Next? && SideInv(lib, me, peer, s.(reg := e.reg), ops', peerOps, budget + 1)
  {
    if EarlyInv(lib, me, peer, s, ops, budget) {
      ops' := ops;
      ControlKeepsRest(lib, s.reg, Device(lib, peer), plain, rand);
    } else {
      ops' := TalkControl(lib, CtxOf(lib, me, peer), me.party.id, s, ops, peerOps, budget, plain, rand);
    }
  }

  lemma HandshakeFrameKind(lib: Library, me: Party, peer: Party, k: nat)
    requires k < 5
    ensures !FrameOf(lib, me, peer, k).IsSessionFrame() && FrameOf(lib, me, peer, k).flags == 0
  {
  }

  /** What one of the peer's handshake frames does to the registry. */
  lemma ShakeEffect(lib: Library, me: End, peer: End, reg: Registry, k: nat, env: Env)
    requires Honest(lib, me.party, peer.party) && env.coins == me.party.coins && k < 5
    requires ValidHandshakes(reg.handshakes) && reg.identity == me.party.id
    requires me.key in reg.handshakes && reg.handshakes[me.key] == StateAt(lib, me.party, peer.party, k)
    ensures OnFrame(lib, reg, me.key, FrameOf(lib, peer.party, me.party, k), env)
            == OnReaction(lib, reg, me.key, Hs.Outcome(StateAt(lib, me.party, peer.party, k + 1), ReactionAt(lib, me.party, peer.party, k)), env)
  {
    HandshakeFrameKind(lib, peer.party, me.party, k);
    HonestStep(lib, me.party, peer.party, k);
  }

  /** The registry after one of the first four frames of the peer. */
  function Shaken(lib: Library, me: End, peer: End, reg: Registry, k: nat): Registry
    requires k < 4
  {
    Push(reg.(handshakes := reg.handshakes[me.key := StateAt(lib, me.party, peer.party, k + 1)]),
         Notify(me.key, [FrameOf(lib, me.party, peer.party, k + 1)]))
  }

  lemma ReceiveAnswers(lib: Library, me: End, s: Side, frame: Frame, ts: u64, rand: u64, st: Hs.State, reply: Frame)
    requires ValidHandshakes(s.reg.handshakes)
    requires OnFrame(lib, s.reg, me.key, frame, Env(me.party.coins, ts, rand))
          == OnReaction(lib, s.reg, me.key, Hs.Outcome(st, Hs.Send([reply])), Env(me.party.coins, ts, rand))
    ensures ReceiveStep(lib, me, s, frame, ts, rand)
         == Went(s.(reg := Push(s.reg.(handshakes := s.reg.handshakes[me.key := st]), Notify(me.key, [reply])), got := s.got + 1))
  {
  }

  lemma ShakeReceives(lib: Library, me: End, peer: End, s: Side, ts: u64, rand: u64)
    requires Honest(lib, me.party, peer.party) && ValidHandshakes(s.reg.handshakes) && s.reg.identity == me.party.id && s.got < 4
    requires me.key in s.reg.handshakes && s.reg.handshakes[me.key] == StateAt(lib, me.party, peer.party, s.got)
    ensures ReceiveStep(lib, me, s, FrameOf(lib, peer.party, me.party, s.got), ts, rand)
            == Went(s.(reg := Shaken(lib, me, peer, s.reg, s.got), got := s.got + 1))
  {
    ShakeEffect(lib, me, peer, s.reg, s.got, Env(me.party.coins, ts, rand));
    ReceiveAnswers(lib, me, s, FrameOf(lib, peer.party, me.party, s.got), ts, rand,
                   StateAt(lib, me.party, peer.party, s.got + 1), FrameOf(lib, me.party, peer.party, s.got + 1));
  }

  lemma ShakenQueue(lib: Library, me: End, peer: End, reg: Registry, k: nat)
    requires k < 4 && FramesTo(reg.queue, me.key) == FrameRange(lib, me.party, peer.party, 0, k + 1)
    ensures FramesTo(Shaken(lib, me, peer, reg, k).queue, me.key) == FrameRange(lib, me.party, peer.party, 0, k + 2)
    ensures EventsOf(Shaken(lib, me, peer, reg, k).queue) == EventsOf(reg.queue)
  {
    FramesPush(reg.queue, Notify(me.key, [FrameOf(lib, me.party, peer.party, k + 1)]), me.key);
    FrameRangeSnoc(lib, me.party, peer.party, 0, k + 1);
  }

  lemma ShakenValid(lib: Library, me: End, peer: End, reg: Registry, k: nat)
    requires k < 4 && ValidHandshakes(reg.handshakes)
    ensures ValidHandshakes(Shaken(lib, me, peer, reg, k).handshakes)
  {
    StatePresent(lib, me.party, peer.party, k + 1);
  }

  lemma ShakenKeeps(lib: Library, me: End, peer: End, s: Side, ops: seq<Op>, budget: nat)
    requires EarlyInv(lib, me, peer, s, ops, budget) && s.started && s.got < 4
    ensures EarlyInv(lib, me, peer, s.(reg := Shaken(lib, me, peer, s.reg, s.got), got := s.got + 1), ops, budget + 1)
  {
    ShakenQueue(lib, me, peer, s.reg, s.got);
    ShakenValid(lib, me, peer, s.reg, s.got);
  }

  lemma ShakeKeeps(lib: Library, me: End, peer: End, s: Side, ops: seq<Op>, budget: nat, ts: u64, rand: u64)
    requires Honest(lib, me.party, peer.party) && EarlyInv(lib, me, peer, s, ops, budget)
    requires s.started && s.got < 4
    ensures var o := ReceiveStep(lib, me, s, FrameOf(lib, peer.party, me.party, s.got), ts, rand);
            o.Went? && o.side.got == s.got + 1 && EarlyInv(lib, me, peer, o.side, ops, budget + 1)
  {
    ShakeReceives(lib, me, peer, s, ts, rand);
    ShakenKeeps(lib, me, peer, s, ops, budget);
  }

  lemma CompletedBy(lib: Library, me: End, s: Side, frame: Frame, ts: u64, rand: u64, st: Hs.State, result: Hs.HandshakeResult)
    requires ValidHandshakes(s.reg.handshakes)
    requires OnFrame(lib, s.reg, me.key, frame, Env(me.party.coins, ts, rand))
          == OnReaction(lib, s.reg, me.key, Hs.Outcome(st, Hs.Complete(result)), Env(me.party.coins, ts, rand))
    ensures ReceiveStep(lib, me, s, frame, ts, rand)
         == FromEffect(s.(got := s.got + 1), OnEstablished(lib, s.reg, me.key, result, Env(me.party.coins, ts, rand)))
  {
  }

  lemma ReadyEstablishes(lib: Library, me: End, peer: End, s: Side, ts: u64, rand: u64)
    requires Honest(lib, me.party, peer.party) && ValidHandshakes(s.reg.handshakes) && s.reg.identity == me.party.id
    requires me.key in s.reg.handshakes && s.reg.handshakes[me.key] == StateAt(lib, me.party, peer.party, 4)
    ensures ReceiveStep(lib, me, s, FrameOf(lib, peer.party, me.party, 4), ts, rand)
         == FromEffect(s.(got := s.got + 1),
                       OnEstablished(lib, s.reg, me.key, PairResult(lib, me.party, peer.party), Env(me.party.coins, ts, rand)))
  {
    ShakeEffect(lib, me, peer, s.reg, 4, Env(me.party.coins, ts, rand));
    CompletedBy(lib, me, s, FrameOf(lib, peer.party, me.party, 4), ts, rand,
                StateAt(lib, me.party, peer.party, 5), PairResult(lib, me.party, peer.party));
  }

  lemma EarlyOpens(lib: Library, me: End, peer: End, s: Side, ops: seq<Op>, budget: nat)
    requires EarlyInv(lib, me, peer, s, ops, budget) && s.started && s.got == 4 && budget < MAX_U32
    ensures Opening(CtxOf(lib, me, peer), s.reg, PairResult(lib, me.party, peer.party), s.sends)
  {
  }

  /** The fifth frame of the peer. */
  lemma EstablishKeeps(lib: Library, me: End, peer: End, s: Side, ops: seq<Op>, peerOps: seq<Op>, budget: nat, ts: u64, rand: u64)
    returns (ops': seq<Op>)
    requires Honest(lib, me.party, peer.party) && EarlyInv(lib, me, peer, s, ops, budget)
    requires s.started && s.got == 4 && budget < MAX_U32 && |peerOps| <= MAX_U32
    ensures |ops'| <= budget + 1 && OpWeight(ops') <= 2 * |s.sends| + 1
    ensures var o := ReceiveStep(lib, me, s, FrameOf(lib, peer.party, me.party, 4), ts, rand);
            o.Went? && o.side.got == 5 && TalkInv(lib, CtxOf(lib, me, peer), me.party.id, o.side, ops', peerOps, budget + 1)
  {
    ReadyEstablishes(lib, me, peer, s, ts, rand);
    EarlyOpens(lib, me, peer, s, ops, budget);
    ops' := TalkEstablish(lib, CtxOf(lib, me, peer), s, PairResult(lib, me.party, peer.party), Env(me.party.coins, ts, rand), peerOps, budget);
  }

  lemma EndsOf(lib: Library, me: End, peer: End)
    requires Honest(lib, me.party, peer.party)
    ensures SR.Ends(CtxOf(lib, peer, me).base, CtxOf(lib, me, peer).base)
  {
    PairAgrees(lib, me.party, peer.party);
    SR.HandshakeGivesEnds(PairResult(lib, peer.party, me.party), PairResult(lib, me.party, peer.party));
  }

  lemma ReceivesSession(lib: Library, me: End, s: Side, frame: Frame, ts: u64, rand: u64)
    requires ValidHandshakes(s.reg.handshakes) && frame.IsSessionFrame()
    ensures ReceiveStep(lib, me, s, frame, ts, rand)
            == FromEffect(s.(got := s.got + 1), OnSessionFrame(lib, s.reg, me.key, frame, Env(me.party.coins, ts, rand)))
  {
  }

  /** A session frame of the peer. */
  lemma OpenKeeps(lib: Library, me: End, peer: End, s: Side, frame: Frame, ops: seq<Op>, peerOps: seq<Op>, budget: nat, ts: u64, rand: u64)
    returns (ops': seq<Op>)
    requires Honest(lib, me.party, peer.party) && AllGood(lib, peerOps)
    requires TalkInv(lib, CtxOf(lib, me, peer), me.party.id, s, ops, peerOps, budget) && s.got - 5 < |peerOps| && budget < MAX_U32
    requires frame == FrameFor(lib, CtxOf(lib, peer, me).base, s.got - 5, peerOps[s.got - 5].msgId, peerOps[s.got - 5].plain)
    ensures ops <= ops' && |ops'| <= budget + 1 && OpWeight(ops') <= OpWeight(ops) + WeightGain(s, peerOps)
    ensures var o := ReceiveStep(lib, me, s, frame, ts, rand);
            o.Went? && TalkInv(lib, CtxOf(lib, me, peer), me.party.id, o.side, ops', peerOps, budget + 1)
  {
    var sender := CtxOf(lib, peer, me).base;
    EndsOf(lib, me, peer);
    SessionFrameKind(lib, sender, s.got - 5, peerOps[s.got - 5]);
    ReceivesSession(lib, me, s, frame, ts, rand);
    ops' := TalkReceive(lib, CtxOf(lib, me, peer), me.party.id, sender, s, ops, peerOps, budget, Env(me.party.coins, ts, rand));
  }

  lemma SessionFrameKind(lib: Library, base: SessionState, n: u32, op: Op)
    ensures FrameFor(lib, base, n, op.msgId, op.plain).IsSessionFrame()
  {
  }

  // ---- What a side has put on the connection ----

  lemma {:induction false} FrameRangeAt(lib: Library, me: Party, peer: Party, lo: nat, hi: nat, i: nat)
    requires lo + i < hi <= 5
    ensures FrameRange(lib, me, peer, lo, hi)[i] == FrameOf(lib, me, peer, lo + i)
    decreases hi - lo
  {
    FrameRangeHead(lib, me, peer, lo, hi);
    if i > 0 {
      FrameRangeAt(lib, me, peer, lo + 1, hi, i - 1);
      assert FrameRange(lib, me, peer, lo, hi)[i] == FrameRange(lib, me, peer, lo, hi)[1..][i - 1];
    }
  }

  lemma FrameCount(lib: Library, me: End, peer: End, s: Side, ops: seq<Op>, peerOps: seq<Op>, budget: nat)
    requires SideInv(lib, me, peer, s, ops, peerOps, budget)
    ensures |Frames(me, s)| == if !s.started then 0 else if s.got < 5 then Sent(s.got) else 5 + |ops|
  {
  }

  /** The k-th frame on the connection. */
  lemma SentFrameAt(lib: Library, me: End, peer: End, s: Side, ops: seq<Op>, peerOps: seq<Op>, budget: nat, k: nat)
    requires SideInv(lib, me, peer, s, ops, peerOps, budget) && k < |Frames(me, s)|
    ensures k < 5 ==> Frames(me, s)[k] == FrameOf(lib, me.party, peer.party, k)
    ensures k >= 5 ==> k - 5 < |ops| && |ops| <= MAX_U32
                       && Frames(me, s)[k] == FrameFor(lib, CtxOf(lib, me, peer).base, k - 5, ops[k - 5].msgId, ops[k - 5].plain)
  {
    if EarlyInv(lib, me, peer, s, ops, budget) {
      FrameRangeAt(lib, me.party, peer.party, 0, Sent(s.got), k);
    } else if k < 5 {
      FrameRangeAt(lib, me.party, peer.party, 0, 5, k);
    }
  }

  // ---- Any act of any side ----

  lemma OpsFacts(lib: Library, me: End, peer: End, s: Side, ops: seq<Op>, peerOps: seq<Op>, budget: nat)
    requires SideInv(lib, me, peer, s, ops, peerOps, budget)
    ensures AllGood(lib, ops) && |ops| <= budget
  {
  }

  lemma FirstFourKeep(lib: Library, me: End, peer: End, s: Side, ops: seq<Op>, peerOps: seq<Op>, budget: nat, ts: u64, rand: u64)
    requires Honest(lib, me.party, peer.party)
    requires EarlyInv(lib, me, peer, s, ops, budget) && s.started && s.got < 4
    ensures |ops| <= budget + 1 && OpWeight(ops) <= WeightGain(s, peerOps)
    ensures var o := ReceiveStep(lib, me, s, FrameOf(lib, peer.party, me.party, s.got), ts, rand);
            o.Went? && SideInv(lib, me, peer, o.side, ops, peerOps, budget + 1)
  {
    ShakeKeeps(lib, me, peer, s, ops, budget, ts, rand);
    EarlySide(lib, me, peer, ReceiveStep(lib, me, s, FrameOf(lib, peer.party, me.party, s.got), ts, rand).side, ops, peerOps, budget + 1);
  }

  lemma FifthKeeps(lib: Library, me: End, peer: End, s: Side, ops: seq<Op>, peerOps: seq<Op>, budget: nat, ts: u64, rand: u64)
    returns (ops': seq<Op>)
    requires Honest(lib, me.party, peer.party) && budget < MAX_U32 && |peerOps| <= MAX_U32
    requires EarlyInv(lib, me, peer, s, ops, budget) && s.started && s.got == 4
    ensures ops <= ops' && |ops'| <= budget + 1 && OpWeight(ops') <= WeightGain(s, peerOps)
    ensures var o := ReceiveStep(lib, me, s, FrameOf(lib, peer.party, me.party, s.got), ts, rand);
            o.Went? && SideInv(lib, me, peer, o.side, ops', peerOps, budget + 1)
  {
    ops' := EstablishKeeps(lib, me, peer, s, ops, peerOps, budget, ts, rand);
    TalkSide(lib, me, peer, ReceiveStep(lib, me, s, FrameOf(lib, peer.party, me.party, s.got), ts, rand).side, ops', peerOps, budget + 1);
  }

  lemma EarlyReceiveKeeps(lib: Library, me: End, peer: End, s: Side, ops: seq<Op>, peerOps: seq<Op>, budget: nat, ts: u64, rand: u64)
    returns (ops': seq<Op>)
    requires Honest(lib, me.party, peer.party) && budget < MAX_U32 && |peerOps| <= MAX_U32
    requires EarlyInv(lib, me, peer, s, ops, budget) && s.started && s.got < 5
    ensures ops <= ops' && |ops'| <= budget + 1 && OpWeight(ops') <= WeightGain(s, peerOps)
    ensures var o := ReceiveStep(lib, me, s, FrameOf(lib, peer.party, me.party, s.got), ts, rand);
            o.Went? && SideInv(lib, me, peer, o.side, ops', peerOps, budget + 1)
  {
    if s.got < 4 {
      ops' := ops;
      FirstFourKeep(lib, me, peer, s, ops, peerOps, budget, ts, rand);
    } else {
      ops' := FifthKeeps(lib, me, peer, s, ops, peerOps, budget, ts, rand);
    }
  }

  /** A frame of the handshake reaches a side that is not in conversation yet. */
  lemma OpeningReceiveKeeps(lib: Library, me: End, peer: End, s: Side, ps: Side, ops: seq<Op>, peerOps: seq<Op>, budget: nat, ts: u64, rand: u64)
    returns (ops': seq<Op>)
    requires Honest(lib, me.party, peer.party) && budget < MAX_U32
    requires EarlyInv(lib, me, peer, s, ops, budget) && SideInv(lib, peer, me, ps, peerOps, ops, budget)
    requires s.started && s.got < |Frames(peer, ps)|
    ensures ops <= ops' && |ops'| <= budget + 1 && OpWeight(ops') <= OpWeight(ops) + WeightGain(s, peerOps)
    ensures var o := ReceiveStep(lib, me, s, Frames(peer, ps)[s.got], ts, rand);
            o.Went? && SideInv(lib, me, peer, o.side, ops', peerOps, budget + 1)
  {
    OpsFacts(lib, peer, me, ps, peerOps, ops, budget);
    SentFrameAt(lib, peer, me, ps, peerOps, ops, budget, s.got);
    ops' := EarlyReceiveKeeps(lib, me, peer, s, ops, peerOps, budget, ts, rand);
  }

  /** A frame reaches a side in conversation: the peer must be in conversation too. */
  lemma TalkReceiveKeeps(lib: Library, me: End, peer: End, s: Side, ps: Side, ops: seq<Op>, peerOps: seq<Op>, budget: nat, ts: u64, rand: u64)
    returns (ops': seq<Op>)
    requires Honest(lib, me.party, peer.party) && budget < MAX_U32
    requires TalkInv(lib, CtxOf(lib, me, peer), me.party.id, s, ops, peerOps, budget) && SideInv(lib, peer, me, ps, peerOps, ops, budget)
    requires s.started && s.got < |Frames(peer, ps)|
    ensures ops <= ops' && |ops'| <= budget + 1 && OpWeight(ops') <= OpWeight(ops) + WeightGain(s, peerOps)
    ensures var o := ReceiveStep(lib, me, s, Frames(peer, ps)[s.got], ts, rand);
            o.Went? && SideInv(lib, me, peer, o.side, ops', peerOps, budget + 1)
  {
    OpsFacts(lib, peer, me, ps, peerOps, ops, budget);
    SentFrameAt(lib, peer, me, ps, peerOps, ops, budget, s.got);
    ops' := OpenKeeps(lib, me, peer, s, Frames(peer, ps)[s.got], ops, peerOps, budget, ts, rand);
    TalkSide(lib, me, peer, ReceiveStep(lib, me, s, Frames(peer, ps)[s.got], ts, rand).side, ops', peerOps, budget + 1);
  }

  lemma ReceiveKeeps(lib: Library, me: End, peer: End, s: Side, ps: Side, ops: seq<Op>, peerOps: seq<Op>, budget: nat, ts: u64, rand: u64)
    returns (ops': seq<Op>)
    requires Honest(lib, me.party, peer.party) && budget < MAX_U32
    requires SideInv(lib, me, peer, s, ops, peerOps, budget) && SideInv(lib, peer, me, ps, peerOps, ops, budget)
    requires s.started && s.got < |Frames(peer, ps)|
    ensures ops <= ops' && |ops'| <= budget + 1 && OpWeight(ops') <= OpWeight(ops) + WeightGain(s, peerOps)
    ensures var o := ReceiveStep(lib, me, s, Frames(peer, ps)[s.got], ts, rand);
            o.Went? && SideInv(lib, me, peer, o.side, ops', peerOps, budget + 1)
  {
    if EarlyInv(lib, me, peer, s, ops, budget) {
      ops' := OpeningReceiveKeeps(lib, me, peer, s, ps, ops, peerOps, budget, ts, rand);
    } else {
      ops' := TalkReceiveKeeps(lib, me, peer, s, ps, ops, peerOps, budget, ts, rand);
    }
  }

  lemma SideReceives(lib: Library, me: End, peer: End, s: Side, incoming: seq<Frame>, act: Act)
    requires ValidHandshakes(s.reg.handshakes) && act.Receive? && s.started && s.got < |incoming|
    ensures SideStep(lib, me, peer, s, incoming, act) == ReceiveStep(lib, me, s, incoming[s.got], act.ts, act.rand)
  {
  }

  /** What an act does to the bookkeeping of a side, whatever the registry does. */
  lemma ActShape(lib: Library, me: End, peer: End, s: Side, incoming: seq<Frame>, act: Act)
    requires ValidHandshakes(s.reg.handshakes)
    ensures var o := SideStep(lib, me, peer, s, incoming, act);
            o.Went? ==> && o.side.got == (if act.Receive? then s.got + 1 else s.got) && (act.Receive? ==> s.got < |incoming|)
                        && o.side.started == (s.started || act.Start?)
                        && o.side.sends == (if act.SendText? then s.sends + [Outgoing(act.msgId, act.text)] else s.sends)
  {
  }

  lemma ActKeeps(lib: Library, me: End, peer: End, s: Side, ps: Side, ops: seq<Op>, peerOps: seq<Op>, budget: nat, act: Act)
    returns (ops': seq<Op>)
    requires Honest(lib, me.party, peer.party) && budget < MAX_U32
    requires SideInv(lib, me, peer, s, ops, peerOps, budget) && SideInv(lib, peer, me, ps, peerOps, ops, budget)
    ensures ops <= ops' && |ops'| <= budget + 1
    ensures var o := SideStep(lib, me, peer, s, Frames(peer, ps), act);
            !o.Panicked? && (o.Went? ==> SideInv(lib, me, peer, o.side, ops', peerOps, budget + 1))
  {
    ops' := ops;
    if !SideStep(lib, me, peer, s, Frames(peer, ps), act).Disabled? {
      match act {
        case Start(now) => StartKeeps(lib, me, peer, s, ops, peerOps, budget, now);
        case SendText(text, msgId, ts) => ops' := TextKeeps(lib, me, peer, s, ops, peerOps, budget, text, msgId, ts);
        case SendPlain(plain, rand) => ops' := ControlKeepsInv(lib, me, peer, s, ops, peerOps, budget, plain, rand);
        case Receive(ts, rand) =>
          SideReceives(lib, me, peer, s, Frames(peer, ps), act);
          ops' := ReceiveKeeps(lib, me, peer, s, ps, ops, peerOps, budget, ts, rand);
      }
    }
  }

  // ---- The world ----

  datatype World = World(a: Side, b: Side)
  datatype Step = Step(onA: bool, act: Act)
  datatype Outcome = Running(world: World) | NotEnabled | Crashed

  ghost function WorldStep(lib: Library, a: End, b: End, w: World, st: Step): Outcome {
    if !ValidHandshakes(w.a.reg.handshakes) || !ValidHandshakes(w.b.reg.handshakes) then NotEnabled
    else
      match if st.onA then SideStep(lib, a, b, w.a, Frames(b, w.b), st.act) else SideStep(lib, b, a, w.b, Frames(a, w.a), st.act)
      case Went(side) => Running(if st.onA then World(side, w.b) else World(w.a, side))
      case Disabled => NotEnabled
      case Panicked => Crashed
  }

  ghost function RunWorld(lib: Library, a: End, b: End, w: World, steps: seq<Step>): Outcome
    decreases |steps|
  {
    if steps == [] then Running(w)
    else
      var before := RunWorld(lib, a, b, w, steps[..|steps| - 1]);
      if before.Running? then WorldStep(lib, a, b, before.world, steps[|steps| - 1]) else before
  }

  /** A node about to use the connection: nothing about this peer is there yet, whatever it
      holds for others. */
  ghost predicate FreshSide(lib: Library, me: End, peer: End, s: Side) {
    && !s.started && s.got == 0 && s.sends == [] && s.reg.queue == []
    && s.reg.identity == me.party.id && ValidHandshakes(s.reg.handshakes)
    && me.key !in s.reg.handshakes && Device(lib, peer) !in s.reg.sessions && Device(lib, peer) !in s.reg.pendingSends
    && DeviceOf(s.reg, me.key.transport) == me.party.expected
    && (me.key in s.reg.observedAddrs ==> s.reg.observedAddrs[me.key].ip.Valid())
  }

  ghost predicate WorldInv(lib: Library, a: End, b: End, w: World, opsA: seq<Op>, opsB: seq<Op>, budget: nat) {
    && SideInv(lib, a, b, w.a, opsA, opsB, budget) && SideInv(lib, b, a, w.b, opsB, opsA, budget)
    && w.a.got <= |Frames(b, w.b)| && w.b.got <= |Frames(a, w.a)|
  }

  lemma HonestBoth(lib: Library, a: Party, b: Party)
    requires Honest(lib, a, b)
    ensures Honest(lib, b, a)
  {
  }

  /** A side never takes back a frame. */
  lemma FramesGrow(lib: Library, me: End, peer: End, s: Side, s': Side, ops: seq<Op>, ops': seq<Op>, peerOps: seq<Op>, budget: nat)
    requires SideInv(lib, me, peer, s, ops, peerOps, budget) && SideInv(lib, me, peer, s', ops', peerOps, budget + 1)
    requires ops <= ops' && s.got <= s'.got && (s.started ==> s'.started)
    ensures |Frames(me, s)| <= |Frames(me, s')|
  {
    FrameCount(lib, me, peer, s, ops, peerOps, budget);
    FrameCount(lib, me, peer, s', ops', peerOps, budget + 1);
  }

  /** A step of the first side; the other side is only affected by what it may receive. */
  lemma FirstSideKeeps(lib: Library, a: End, b: End, w: World, opsA: seq<Op>, opsB: seq<Op>, budget: nat, act: Act)
    returns (opsA': seq<Op>)
    requires Honest(lib, a.party, b.party) && WorldInv(lib, a, b, w, opsA, opsB, budget) && budget < MAX_U32
    ensures var o := SideStep(lib, a, b, w.a, Frames(b, w.b), act);
            !o.Panicked? && (o.Went? ==> WorldInv(lib, a, b, World(o.side, w.b), opsA', opsB, budget + 1))
    ensures opsA <= opsA'
  {
    opsA' := ActKeeps(lib, a, b, w.a, w.b, opsA, opsB, budget, act);
    var o := SideStep(lib, a, b, w.a, Frames(b, w.b), act);
    if o.Went? {
      ActShape(lib, a, b, w.a, Frames(b, w.b), act);
      PeerSealsMore(lib, b, a, w.b, opsB, opsA, opsA', budget);
      FramesGrow(lib, a, b, w.a, o.side, opsA, opsA', opsB, budget);
    }
  }

  lemma StepKeeps(lib: Library, a: End, b: End, w: World, opsA: seq<Op>, opsB: seq<Op>, budget: nat, st: Step)
    returns (opsA': seq<Op>, opsB': seq<Op>)
    requires Honest(lib, a.party, b.party) && WorldInv(lib, a, b, w, opsA, opsB, budget) && budget < MAX_U32
    ensures var o := WorldStep(lib, a, b, w, st);
            !o.Crashed? && (o.Running? ==> WorldInv(lib, a, b, o.world, opsA', opsB', budget + 1))
  {
    opsA', opsB' := opsA, opsB;
    if st.onA {
      opsA' := FirstSideKeeps(lib, a, b, w, opsA, opsB, budget, st.act);
    } else {
      HonestBoth(lib, a.party, b.party);
      opsB' := FirstSideKeeps(lib, b, a, World(w.b, w.a), opsB, opsA, budget, st.act);
    }
  }

  lemma FreshKeeps(lib: Library, me: End, peer: End, s: Side)
    requires FreshSide(lib, me, peer, s)
    ensures EarlyInv(lib, me, peer, s, [], 0)
  {
  }

  lemma {:induction false} RunKeeps(lib: Library, a: End, b: End, w: World, steps: seq<Step>) returns (opsA: seq<Op>, opsB: seq<Op>)
    requires Honest(lib, a.party, b.party) && FreshSide(lib, a, b, w.a) && FreshSide(lib, b, a, w.b) && |steps| <= MAX_U32
    ensures var o := RunWorld(lib, a, b, w, steps);
            !o.Crashed? && (o.Running? ==> WorldInv(lib, a, b, o.world, opsA, opsB, |steps|))
    decreases |steps|
  {
    opsA, opsB := [], [];
    if steps == [] {
      FreshKeeps(lib, a, b, w.a);
      FreshKeeps(lib, b, a, w.b);
    } else {
      var front := steps[..|steps| - 1];
      opsA, opsB := RunKeeps(lib, a, b, w, front);
      var before := RunWorld(lib, a, b, w, front);
      if before.Running? {
        opsA, opsB := StepKeeps(lib, a, b, before.world, opsA, opsB, |front|, steps[|steps| - 1]);
      }
    }
  }
}
