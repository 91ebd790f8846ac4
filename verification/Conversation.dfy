/** A node in an established session with one peer: what its outputs show, and what sealing
    and opening one more frame does to that. */
module Conversation {
  import opened ByteStrings
  import opened Framing
  import opened Library
  import Hs = Handshake
  import opened Session
  import SR = SessionRuns
  import opened R = Registry

  type Op = SR.SentPlain

  // ---- What a queue of outputs shows ----

  /** The frames handed to connection `k`, oldest first. */
  function FramesTo(queue: seq<Output>, k: ConnKey): seq<Frame>
    decreases |queue|
  {
    if queue == [] then []
    else
      var before, last := FramesTo(queue[..|queue| - 1], k), queue[|queue| - 1];
      if last.Notify? && last.conn == k then before + last.frames else before
  }

  function EventsOf(queue: seq<Output>): seq<BehaviourEvent>
    decreases |queue|
  {
    if queue == [] then []
    else
      var before, last := EventsOf(queue[..|queue| - 1]), queue[|queue| - 1];
      if last.Generate? then before + [last.event] else before
  }

  lemma FramesPush(queue: seq<Output>, o: Output, k: ConnKey)
    ensures FramesTo(queue + [o], k) == if o.Notify? && o.conn == k then FramesTo(queue, k) + o.frames else FramesTo(queue, k)
    ensures EventsOf(queue + [o]) == if o.Generate? then EventsOf(queue) + [o.event] else EventsOf(queue)
  {
    assert (queue + [o])[..|queue|] == queue;
  }

  datatype AckOf = AckOf(msgId: u64, seqNo: u32)

  /** The messages the node was told about. */
  function Received(events: seq<BehaviourEvent>): seq<Outgoing>
    decreases |events|
  {
    if events == [] then []
    else
      var before, last := Received(events[..|events| - 1]), events[|events| - 1];
      if last.MessageReceived? then before + [Outgoing(last.msgId, last.body)] else before
  }

  /** The acknowledgements the node was told about. */
  function Acked(events: seq<BehaviourEvent>): seq<AckOf>
    decreases |events|
  {
    if events == [] then []
    else
      var before, last := Acked(events[..|events| - 1]), events[|events| - 1];
      if last.AckReceived? then before + [AckOf(last.msgId, last.ackSeq)] else before
  }

  /** The acknowledgements owed for the Message frames of a list. */
  function Owed(frames: seq<Frame>): seq<AckOf>
    decreases |frames|
  {
    if frames == [] then []
    else
      var before, last := Owed(frames[..|frames| - 1]), frames[|frames| - 1];
      if last.msgType.Message? then before + [AckOf(last.msgId, last.seqNo)] else before
  }

  // ---- The same, of what was sealed ----

  function Texts(ops: seq<Op>): seq<Outgoing>
    decreases |ops|
  {
    if ops == [] then []
    else
      var before, last := Texts(ops[..|ops| - 1]), ops[|ops| - 1];
      if last.plain.TextPlain? then before + [Outgoing(last.msgId, last.plain.body)] else before
  }

  function AcksDue(ops: seq<Op>): seq<AckOf>
    requires |ops| <= MAX_U32
    decreases |ops|
  {
    if ops == [] then []
    else
      var before, last := AcksDue(ops[..|ops| - 1]), ops[|ops| - 1];
      if last.plain.TextPlain? then before + [AckOf(last.msgId, |ops| - 1)] else before
  }

  function AcksIn(ops: seq<Op>): seq<AckOf>
    decreases |ops|
  {
    if ops == [] then []
    else
      var before, last := AcksIn(ops[..|ops| - 1]), ops[|ops| - 1];
      if last.plain.AckPlain? then before + [AckOf(last.plain.ackMsgId, last.plain.ackSeq)] else before
  }

  lemma OpsPush(ops: seq<Op>, op: Op)
    ensures Texts(ops + [op]) == if op.plain.TextPlain? then Texts(ops) + [Outgoing(op.msgId, op.plain.body)] else Texts(ops)
    ensures AcksIn(ops + [op]) == if op.plain.AckPlain? then AcksIn(ops) + [AckOf(op.plain.ackMsgId, op.plain.ackSeq)] else AcksIn(ops)
    ensures |ops| < MAX_U32 ==>
              AcksDue(ops + [op]) == if op.plain.TextPlain? then AcksDue(ops) + [AckOf(op.msgId, |ops|)] else AcksDue(ops)
  {
    assert (ops + [op])[..|ops|] == ops;
  }

  lemma {:induction false} OpsPrefix(ops: seq<Op>, n: nat)
    requires n <= |ops| <= MAX_U32
    ensures Texts(ops[..n]) <= Texts(ops) && AcksIn(ops[..n]) <= AcksIn(ops) && AcksDue(ops[..n]) <= AcksDue(ops)
    decreases |ops|
  {
    if n < |ops| {
      var front := ops[..|ops| - 1];
      OpsPrefix(front, n);
      assert front[..n] == ops[..n];
    } else {
      assert ops[..n] == ops;
    }
  }

  lemma {:induction false} DueMatchesTexts(ops: seq<Op>)
    requires |ops| <= MAX_U32
    ensures |AcksDue(ops)| == |Texts(ops)|
    ensures forall i | 0 <= i < |AcksDue(ops)| :: AcksDue(ops)[i].msgId == Texts(ops)[i].msgId
    decreases |ops|
  {
    if ops != [] {
      DueMatchesTexts(ops[..|ops| - 1]);
    }
  }

  /** What a list of payloads may still cost: a text is delivered and acknowledged. */
  function OpWeight(ops: seq<Op>): nat
    decreases |ops|
  {
    if ops == [] then 0
    else OpWeight(ops[..|ops| - 1]) + if ops[|ops| - 1].plain.TextPlain? then 2 else 1
  }

  lemma OpWeightPush(ops: seq<Op>, op: Op)
    ensures OpWeight(ops + [op]) == OpWeight(ops) + if op.plain.TextPlain? then 2 else 1
  {
    assert (ops + [op])[..|ops|] == ops;
  }

  lemma {:induction false} OpWeightSplit(ops: seq<Op>, n: nat)
    requires n <= |ops|
    ensures OpWeight(ops) == OpWeight(ops[..n]) + OpWeight(ops[n..])
    decreases |ops|
  {
    if n == |ops| {
      assert ops[..n] == ops && ops[n..] == [];
    } else {
      var front := ops[..|ops| - 1];
      OpWeightSplit(front, n);
      assert front[..n] == ops[..n] && ops[n..] == front[n..] + [ops[|ops| - 1]];
      OpWeightPush(front[n..], ops[|ops| - 1]);
    }
  }

  lemma {:induction false} OpWeightBound(ops: seq<Op>)
    ensures OpWeight(ops) <= 2 * |ops|
    decreases |ops|
  {
    if ops != [] {
      OpWeightBound(ops[..|ops| - 1]);
    }
  }

  // ---- Frames and events of a list of payloads ----

  function SealedOps(lib: Library, base: SessionState, ops: seq<Op>): (fs: seq<Frame>)
    requires |ops| <= MAX_U32
    ensures |fs| == |ops|
    ensures forall i | 0 <= i < |fs| :: fs[i] == FrameFor(lib, base, i, ops[i].msgId, ops[i].plain)
  {
    seq(|ops|, i requires 0 <= i < |ops| => FrameFor(lib, base, i, ops[i].msgId, ops[i].plain))
  }

  lemma SealedPush(lib: Library, base: SessionState, ops: seq<Op>, op: Op)
    requires |ops| < MAX_U32
    ensures SealedOps(lib, base, ops + [op]) == SealedOps(lib, base, ops) + [FrameFor(lib, base, |ops|, op.msgId, op.plain)]
  {
  }

  function EventsFor(device: PeerId, ops: seq<Op>): (es: seq<BehaviourEvent>)
    requires |ops| <= MAX_U32
    ensures |es| == |ops|
  {
    seq(|ops|, i requires 0 <= i < |ops| => EventFor(device, InboundOf(i, ops[i].msgId, ops[i].plain)))
  }

  lemma EventsPush(device: PeerId, ops: seq<Op>, n: nat)
    requires n < |ops| <= MAX_U32
    ensures EventsFor(device, ops[..n + 1]) == EventsFor(device, ops[..n]) + [EventFor(device, InboundOf(n, ops[n].msgId, ops[n].plain))]
  {
  }

  // ---- The invariant of an established side ----

  /** One end of the connection: its key, the peer's device id, the session as established,
      and the frames and the event the handshake left behind. */
  datatype Ctx = Ctx(key: ConnKey, device: PeerId, base: SessionState, opening: seq<Frame>, first: BehaviourEvent)

  /** A payload that the encoders accept and the peer can read. */
  ghost predicate Good(lib: Library, p: Plain) {
    && Sendable(lib, p) && (p.DialReqPlain? || p.DialResPlain? ==> lib.printAddr(p.addr) != [])
    && (p.TextPlain? ==> |p.body| <= MAX_MESSAGE_BYTES)
  }

  /** The session is live with `m` frames sealed and `n` opened, and nothing is buffered. */
  ghost predicate Alive(c: Ctx, reg: Registry, m: nat, n: nat) {
    && c.key.transport in reg.transportDevices && reg.transportDevices[c.key.transport] == c.device
    && c.device in reg.sessions && reg.sessions[c.device].conn == c.key && c.device !in reg.pendingSends
    && var s := reg.sessions[c.device].session;
       && s.sessionId == c.base.sessionId && s.sendKey == c.base.sendKey && s.recvKey == c.base.recvKey
       && s.myDir == c.base.myDir && s.peerDir == c.base.peerDir && s.outSeq == m && s.inSeq == n
  }

  /** The queue shows the handshake frames, then the frames of `ops`. */
  ghost predicate ShowsFrames(lib: Library, c: Ctx, queue: seq<Output>, ops: seq<Op>) {
    |ops| <= MAX_U32 && FramesTo(queue, c.key) == c.opening + SealedOps(lib, c.base, ops)
  }

  /** It also shows that the session was established and then the events of `heard`. */
  ghost predicate Shows(lib: Library, c: Ctx, queue: seq<Output>, ops: seq<Op>, heard: seq<Op>) {
    && ShowsFrames(lib, c, queue, ops) && |heard| <= MAX_U32
    && EventsOf(queue) == [c.first] + EventsFor(c.device, heard)
  }

  /** Every text that fits was sealed once, in order, and so was one ack per text heard. */
  ghost predicate Tallies(ops: seq<Op>, heard: seq<Op>, sends: seq<Outgoing>) {
    |heard| <= MAX_U32 && Texts(ops) == Fitting(sends) && AcksIn(ops) == AcksDue(heard)
  }

  ghost predicate Talks(lib: Library, c: Ctx, reg: Registry, ops: seq<Op>, heard: seq<Op>, sends: seq<Outgoing>) {
    Alive(c, reg, |ops|, |heard|) && Shows(lib, c, reg.queue, ops, heard) && Tallies(ops, heard, sends)
  }

  // ---- Sealing one more payload ----

  function AfterSeal(lib: Library, c: Ctx, reg: Registry, op: Op): Registry
    requires c.device in reg.sessions && reg.sessions[c.device].session.outSeq < MAX_U32
  {
    var s := reg.sessions[c.device].session;
    Push(SetSession(reg, c.device, s.(outSeq := s.outSeq + 1)), Notify(c.key, [FrameFor(lib, s, s.outSeq, op.msgId, op.plain)]))
  }

  lemma SealShowsFrames(lib: Library, c: Ctx, queue: seq<Output>, ops: seq<Op>, op: Op)
    requires ShowsFrames(lib, c, queue, ops) && |ops| < MAX_U32
    ensures var o := Notify(c.key, [FrameFor(lib, c.base, |ops|, op.msgId, op.plain)]);
            ShowsFrames(lib, c, queue + [o], ops + [op]) && EventsOf(queue + [o]) == EventsOf(queue)
  {
    var frame := FrameFor(lib, c.base, |ops|, op.msgId, op.plain);
    FramesPush(queue, Notify(c.key, [frame]), c.key);
    SealedPush(lib, c.base, ops, op);
    assert c.opening + SealedOps(lib, c.base, ops) + [frame] == c.opening + (SealedOps(lib, c.base, ops) + [frame]);
  }

  lemma SealShows(lib: Library, c: Ctx, queue: seq<Output>, ops: seq<Op>, heard: seq<Op>, op: Op)
    requires Shows(lib, c, queue, ops, heard) && |ops| < MAX_U32
    ensures Shows(lib, c, queue + [Notify(c.key, [FrameFor(lib, c.base, |ops|, op.msgId, op.plain)])], ops + [op], heard)
  {
    SealShowsFrames(lib, c, queue, ops, op);
  }

  lemma SealAlive(lib: Library, c: Ctx, reg: Registry, m: nat, n: nat, op: Op)
    requires Alive(c, reg, m, n) && m < MAX_U32
    ensures Alive(c, AfterSeal(lib, c, reg, op), m + 1, n)
    ensures AfterSeal(lib, c, reg, op).queue == reg.queue + [Notify(c.key, [FrameFor(lib, c.base, m, op.msgId, op.plain)])]
  {
  }

  lemma SealTalks(lib: Library, c: Ctx, reg: Registry, ops: seq<Op>, heard: seq<Op>, sends: seq<Outgoing>, op: Op, sends': seq<Outgoing>)
    requires Talks(lib, c, reg, ops, heard, sends) && |ops| < MAX_U32
    requires Tallies(ops + [op], heard, sends')
    ensures Talks(lib, c, AfterSeal(lib, c, reg, op), ops + [op], heard, sends')
  {
    SealAlive(lib, c, reg, |ops|, |heard|, op);
    SealShows(lib, c, reg.queue, ops, heard, op);
  }

  lemma TextTalks(lib: Library, c: Ctx, reg: Registry, ops: seq<Op>, heard: seq<Op>, sends: seq<Outgoing>, text: Bytes, msgId: u64, ts: u64)
    requires Talks(lib, c, reg, ops, heard, sends) && |ops| < MAX_U32 && |text| <= MAX_MESSAGE_BYTES
    ensures Talks(lib, c, SendMessage(lib, reg, c.device, text, msgId, ts), ops + [SR.SentPlain(TextPlain(ts, text), msgId)], heard,
                  sends + [Outgoing(msgId, text)])
  {
    var op := SR.SentPlain(TextPlain(ts, text), msgId);
    OpsPush(ops, op);
    FittingSnoc(sends, Outgoing(msgId, text));
    SealTalks(lib, c, reg, ops, heard, sends, op, sends + [Outgoing(msgId, text)]);
    assert SendMessage(lib, reg, c.device, text, msgId, ts) == AfterSeal(lib, c, reg, op);
  }

  lemma ControlTalks(lib: Library, c: Ctx, reg: Registry, ops: seq<Op>, heard: seq<Op>, sends: seq<Outgoing>, p: Plain, rand: u64)
    requires Talks(lib, c, reg, ops, heard, sends) && |ops| < MAX_U32 && !p.TextPlain? && !p.AckPlain?
    ensures SendControl(lib, reg, c.device, p, rand).Next?
    ensures Talks(lib, c, SendControl(lib, reg, c.device, p, rand).reg, ops + [SR.SentPlain(p, rand)], heard, sends)
  {
    var op := SR.SentPlain(p, rand);
    OpsPush(ops, op);
    SealTalks(lib, c, reg, ops, heard, sends, op, sends);
    assert SendControl(lib, reg, c.device, p, rand) == Next(AfterSeal(lib, c, reg, op));
  }

  // ---- Opening one more frame ----

  /** The frame carrying payload n of the peer opens to that payload. */
  lemma OpensHonestFrame(lib: Library, s: SessionState, sender: SessionState, n: nat, op: Op)
    requires AeadCorrect(lib) && AddrTextCorrect(lib) && Good(lib, op.plain)
    requires n < MAX_U32 && s.inSeq == n && SR.Ends(sender, s)
    ensures HandleFrame(lib, s, FrameFor(lib, sender, n, op.msgId, op.plain))
            == Handled(s.(inSeq := n + 1, seen := Remember(s.seen, n, op.msgId)), Opened(InboundOf(n, op.msgId, op.plain)))
  {
    PlainRoundTrip(lib, n, op.msgId, op.plain);
    SendableArrives(lib, op.plain);
    var aad := AadFor(s.sessionId, TypeOf(op.plain), n, op.msgId);
    assert lib.open(s.recvKey, NonceFor(s.peerDir, n), aad, lib.seal(s.recvKey, NonceFor(s.peerDir, n), aad, PlainBytes(lib, op.plain)))
        == Some(PlainBytes(lib, op.plain));
    assert FrameFor(lib, sender, n, op.msgId, op.plain).IsSessionFrame();
  }

  lemma HearShows(lib: Library, c: Ctx, queue: seq<Output>, ops: seq<Op>, all: seq<Op>, n: nat)
    requires n < |all| <= MAX_U32 && Shows(lib, c, queue, ops, all[..n])
    ensures Shows(lib, c, queue + [Generate(EventFor(c.device, InboundOf(n, all[n].msgId, all[n].plain)))], ops, all[..n + 1])
  {
    var event := EventFor(c.device, InboundOf(n, all[n].msgId, all[n].plain));
    FramesPush(queue, Generate(event), c.key);
    EventsPush(c.device, all, n);
    assert [c.first] + EventsFor(c.device, all[..n]) + [event] == [c.first] + (EventsFor(c.device, all[..n]) + [event]);
  }

  lemma OpenAlive(c: Ctx, reg: Registry, m: nat, n: nat, s: SessionState)
    requires Alive(c, reg, m, n) && n < MAX_U32
    requires s == reg.sessions[c.device].session.(inSeq := n + 1, seen := s.seen)
    ensures Alive(c, SetSession(reg, c.device, s), m, n + 1)
  {
  }

  lemma TallyHeard(ops: seq<Op>, all: seq<Op>, n: nat, sends: seq<Outgoing>, ack: Op)
    requires n < |all| <= MAX_U32 && Tallies(ops, all[..n], sends)
    ensures !all[n].plain.TextPlain? ==> Tallies(ops, all[..n + 1], sends)
    ensures all[n].plain.TextPlain? && ack.plain.AckPlain? && ack.plain.ackMsgId == all[n].msgId && ack.plain.ackSeq == n
            ==> Tallies(ops + [ack], all[..n + 1], sends)
  {
    OpsPush(all[..n], all[n]);
    OpsPush(ops, ack);
    assert all[..n] + [all[n]] == all[..n + 1];
  }

  /** A frame that is not a message: the event is all there is. */
  lemma HearTalks(lib: Library, c: Ctx, reg: Registry, ops: seq<Op>, all: seq<Op>, n: nat, sends: seq<Outgoing>)
    requires n < |all| <= MAX_U32 && !all[n].plain.TextPlain?
    requires Alive(c, reg, |ops|, n + 1) && Shows(lib, c, reg.queue, ops, all[..n]) && Tallies(ops, all[..n], sends)
    ensures Talks(lib, c, Push(reg, Generate(EventFor(c.device, InboundOf(n, all[n].msgId, all[n].plain)))), ops, all[..n + 1], sends)
  {
    HearShows(lib, c, reg.queue, ops, all, n);
    TallyHeard(ops, all, n, sends, all[n]);
  }

  /** A message: it is acknowledged with its id and sequence number, then reported. */
  lemma HearMessageTalks(lib: Library, c: Ctx, reg: Registry, ops: seq<Op>, all: seq<Op>, n: nat, sends: seq<Outgoing>, ack: Op)
    requires n < |all| <= MAX_U32 && |ops| < MAX_U32 && all[n].plain.TextPlain?
    requires ack.plain.AckPlain? && ack.plain.ackMsgId == all[n].msgId && ack.plain.ackSeq == n
    requires Alive(c, reg, |ops|, n + 1) && Shows(lib, c, reg.queue, ops, all[..n]) && Tallies(ops, all[..n], sends)
    ensures Talks(lib, c, Push(AfterSeal(lib, c, reg, ack), Generate(EventFor(c.device, InboundOf(n, all[n].msgId, all[n].plain)))),
                  ops + [ack], all[..n + 1], sends)
  {
    SealAlive(lib, c, reg, |ops|, n + 1, ack);
    SealShows(lib, c, reg.queue, ops, all[..n], ack);
    HearShows(lib, c, AfterSeal(lib, c, reg, ack).queue, ops + [ack], all, n);
    TallyHeard(ops, all, n, sends, ack);
  }

  /** What the node does with payload n of the peer. */
  lemma SurfacedBy(lib: Library, c: Ctx, reg: Registry, m: nat, n: nat, op: Op, env: Env)
    requires Alive(c, reg, m, n + 1) && m < MAX_U32 && n < MAX_U32
    ensures var event := EventFor(c.device, InboundOf(n, op.msgId, op.plain));
            OnOpened(lib, reg, c.key, c.device, InboundOf(n, op.msgId, op.plain), env)
            == Next(Push(if op.plain.TextPlain? then AfterSeal(lib, c, reg, SR.SentPlain(AckPlain(op.msgId, n, env.ts), env.rand)) else reg,
                         Generate(event)))
  {
  }

  /** What has been sealed once payload n of the peer is answered. */
  function Answered(ops: seq<Op>, op: Op, n: u32, env: Env): seq<Op> {
    if op.plain.TextPlain? then ops + [SR.SentPlain(AckPlain(op.msgId, n, env.ts), env.rand)] else ops
  }

  /** The next frame of the peer arrives: it opens, and the conversation goes on. */
  lemma ReceiveTalks(lib: Library, c: Ctx, sender: SessionState, reg: Registry, ops: seq<Op>, all: seq<Op>, n: nat, sends: seq<Outgoing>, env: Env)
    returns (ops': seq<Op>)
    requires AeadCorrect(lib) && AddrTextCorrect(lib) && SR.Ends(sender, c.base)
    requires n < |all| <= MAX_U32 && |ops| < MAX_U32 && Good(lib, all[n].plain)
    requires Talks(lib, c, reg, ops, all[..n], sends)
    ensures var e := OnSessionFrame(lib, reg, c.key, FrameFor(lib, sender, n, all[n].msgId, all[n].plain), env);
            e.Next? && Talks(lib, c, e.reg, ops', all[..n + 1], sends)
    ensures ops' == Answered(ops, all[n], n, env)
  {
    var s := reg.sessions[c.device].session;
    var s' := s.(inSeq := n + 1, seen := Remember(s.seen, n, all[n].msgId));
    OpensHonestFrame(lib, s, sender, n, all[n]);
    OpenAlive(c, reg, |ops|, n, s');
    var reg1 := SetSession(reg, c.device, s');
    SurfacedBy(lib, c, reg1, |ops|, n, all[n], env);
    if all[n].plain.TextPlain? {
      var ack := SR.SentPlain(AckPlain(all[n].msgId, n, env.ts), env.rand);
      ops' := ops + [ack];
      HearMessageTalks(lib, c, reg1, ops, all, n, sends, ack);
    } else {
      ops' := ops;
      HearTalks(lib, c, reg1, ops, all, n, sends);
    }
  }

  // ---- Reading the observations back ----

  lemma EventsSnoc(es: seq<BehaviourEvent>, e: BehaviourEvent)
    ensures Received(es + [e]) == if e.MessageReceived? then Received(es) + [Outgoing(e.msgId, e.body)] else Received(es)
    ensures Acked(es + [e]) == if e.AckReceived? then Acked(es) + [AckOf(e.msgId, e.ackSeq)] else Acked(es)
  {
    assert (es + [e])[..|es|] == es;
  }

  lemma OwedSnoc(fs: seq<Frame>, f: Frame)
    ensures Owed(fs + [f]) == if f.msgType.Message? then Owed(fs) + [AckOf(f.msgId, f.seqNo)] else Owed(fs)
  {
    assert (fs + [f])[..|fs|] == fs;
  }

  /** The events report exactly the texts and acks of `heard`, and no failure. */
  ghost predicate Report(es: seq<BehaviourEvent>, heard: seq<Op>) {
    && Received(es) == Texts(heard) && Acked(es) == AcksIn(heard)
    && forall i | 0 <= i < |es| :: !es[i].HandshakeFailed?
  }

  lemma ReportSnoc(es: seq<BehaviourEvent>, heard: seq<Op>, device: PeerId, n: u32, op: Op, es': seq<BehaviourEvent>, heard': seq<Op>)
    requires Report(es, heard) && es' == es + [EventFor(device, InboundOf(n, op.msgId, op.plain))] && heard' == heard + [op]
    ensures Report(es', heard')
  {
    var e := EventFor(device, InboundOf(n, op.msgId, op.plain));
    EventTells(device, n, op);
    ToldSnoc(es, heard, device, e, op);
  }

  /** The event reports the payload, field by field, as coming from `device`. */
  predicate Tells(device: PeerId, e: BehaviourEvent, op: Op) {
    match op.plain
    case TextPlain(ts, body) => e.MessageReceived? && e.peer == device && e.msgId == op.msgId && e.body == body && e.ts == ts
    case AckPlain(ackMsgId, ackSeq, _) => e.AckReceived? && e.peer == device && e.msgId == ackMsgId && e.ackSeq == ackSeq
    case ObservedPlain(ip, port) => e.ObservedAddrReported? && e.peer == device && e.ip == ip && e.port == port
    case DialReqPlain(addr) => e.DialBackRequested? && e.peer == device && e.addr == addr
    case DialResPlain(addr, reachable) => e.DialBackResolved? && e.peer == device && e.addr == addr && e.reachable == reachable
  }

  lemma EventTells(device: PeerId, n: u32, op: Op)
    ensures Tells(device, EventFor(device, InboundOf(n, op.msgId, op.plain)), op)
  {
  }

  lemma EventsTell(device: PeerId, ops: seq<Op>)
    requires |ops| <= MAX_U32
    ensures forall i | 0 <= i < |ops| :: Tells(device, EventsFor(device, ops)[i], ops[i])
  {
    forall i | 0 <= i < |ops|
      ensures Tells(device, EventsFor(device, ops)[i], ops[i])
    {
      EventTells(device, i, ops[i]);
    }
  }

  lemma ToldSnoc(es: seq<BehaviourEvent>, heard: seq<Op>, device: PeerId, e: BehaviourEvent, op: Op)
    requires Report(es, heard) && Tells(device, e, op)
    ensures Report(es + [e], heard + [op])
  {
    EventsSnoc(es, e);
    OpsPush(heard, op);
  }

  lemma ReportNothing(first: BehaviourEvent, es: seq<BehaviourEvent>)
    requires first.SessionEstablished? && es == [first]
    ensures Report(es, [])
  {
    EventsSnoc([], first);
    assert [] + [first] == es;
  }

  lemma EventsFromSnoc(first: BehaviourEvent, device: PeerId, heard: seq<Op>, n: nat)
    requires n < |heard| <= MAX_U32
    ensures [first] + EventsFor(device, heard[..n + 1])
         == [first] + EventsFor(device, heard[..n]) + [EventFor(device, InboundOf(n, heard[n].msgId, heard[n].plain))]
  {
    EventsPush(device, heard, n);
    ConcatAssociative([first], EventsFor(device, heard[..n]), [EventFor(device, InboundOf(n, heard[n].msgId, heard[n].plain))]);
  }

  /** An established side has been told of exactly the texts and acks it has heard. */
  lemma {:induction false} HeardEvents(first: BehaviourEvent, device: PeerId, heard: seq<Op>, n: nat)
    requires first.SessionEstablished? && n <= |heard| <= MAX_U32
    ensures Report([first] + EventsFor(device, heard[..n]), heard[..n])
    decreases n
  {
    if n == 0 {
      ReportNothing(first, [first] + EventsFor(device, heard[..0]));
    } else {
      HeardEvents(first, device, heard, n - 1);
      EventsFromSnoc(first, device, heard, n - 1);
      ReportSnoc([first] + EventsFor(device, heard[..n - 1]), heard[..n - 1], device, n - 1, heard[n - 1],
                 [first] + EventsFor(device, heard[..n]), heard[..n]);
    }
  }

  lemma {:induction false} NothingOwed(fs: seq<Frame>)
    requires forall i | 0 <= i < |fs| :: !fs[i].msgType.Message?
    ensures Owed(fs) == []
    decreases |fs|
  {
    if fs != [] {
      NothingOwed(fs[..|fs| - 1]);
    }
  }

  /** `fs` has the header of each payload of `ops`. */
  ghost predicate Headers(fs: seq<Frame>, ops: seq<Op>) {
    |fs| == |ops| && forall i | 0 <= i < |fs| ::
      (fs[i].msgType.Message? <==> ops[i].plain.TextPlain?) && fs[i].msgId == ops[i].msgId && fs[i].seqNo == i
  }

  lemma SealedHeaders(lib: Library, base: SessionState, ops: seq<Op>)
    requires |ops| <= MAX_U32
    ensures Headers(SealedOps(lib, base, ops), ops)
  {
  }

  /** The acks owed for the frames of `ops` name each text's id and position. */
  lemma {:induction false} OwedForOps(opening: seq<Frame>, fs: seq<Frame>, ops: seq<Op>)
    requires |ops| <= MAX_U32 && Headers(fs, ops) && forall i | 0 <= i < |opening| :: !opening[i].msgType.Message?
    ensures Owed(opening + fs) == AcksDue(ops)
    decreases |ops|
  {
    if ops == [] {
      assert opening + fs == opening;
      NothingOwed(opening);
    } else {
      var n := |ops| - 1;
      OwedForOps(opening, fs[..n], ops[..n]);
      assert opening + fs == (opening + fs[..n]) + [fs[n]];
      OwedSnoc(opening + fs[..n], fs[n]);
    }
  }

  // ---- Establishing ----

  function TextOps(texts: seq<Outgoing>, ts: u64): (ops: seq<Op>)
    ensures |ops| == |texts|
  {
    seq(|texts|, i requires 0 <= i < |texts| => SR.SentPlain(TextPlain(ts, texts[i].text), texts[i].msgId))
  }

  lemma {:induction false} TextOpsTexts(texts: seq<Outgoing>, ts: u64)
    ensures Texts(TextOps(texts, ts)) == texts && AcksIn(TextOps(texts, ts)) == []
    decreases |texts|
  {
    if texts != [] {
      var front, last := texts[..|texts| - 1], texts[|texts| - 1];
      var op := SR.SentPlain(TextPlain(ts, last.text), last.msgId);
      TextOpsTexts(front, ts);
      assert TextOps(texts, ts) == TextOps(front, ts) + [op];
      OpsPush(TextOps(front, ts), op);
      assert texts == front + [last];
    }
  }

  lemma TextOpsFrames(lib: Library, base: SessionState, texts: seq<Outgoing>, ts: u64)
    requires |texts| <= MAX_U32
    ensures TextFrames(lib, base, 0, texts, ts) == SealedOps(lib, base, TextOps(texts, ts))
  {
  }

  lemma {:induction false} FittingFrom(texts: seq<Outgoing>)
    ensures forall i | 0 <= i < |Fitting(texts)| :: Fitting(texts)[i] in texts && |Fitting(texts)[i].text| <= MAX_MESSAGE_BYTES
    decreases |texts|
  {
    if texts != [] {
      FittingFrom(texts[..|texts| - 1]);
      assert texts[|texts| - 1] in texts;
    }
  }

  lemma InstallAlive(c: Ctx, r: Registry, result: Hs.HandshakeResult, n: u32)
    requires c.device == result.peerId && c.base == NewSession(result)
    requires c.device in r.sessions && r.sessions[c.device] == Live(c.key, NewSession(result).(outSeq := n))
    requires c.device !in r.pendingSends && DeviceOf(r, c.key.transport) == Some(c.device)
    ensures Alive(c, r, n, 0)
  {
  }

  lemma FlushShows(lib: Library, c: Ctx, reg: Registry, queue: seq<Output>, sends: seq<Outgoing>, ts: u64)
    requires Buffered(reg, c.device) == sends && |Fitting(sends)| <= MAX_U32
    requires FramesTo(reg.queue, c.key) == c.opening && EventsOf(reg.queue) == []
    requires queue == if c.device in reg.pendingSends then reg.queue + [Notify(c.key, TextFrames(lib, c.base, 0, Fitting(sends), ts))]
                      else reg.queue
    ensures ShowsFrames(lib, c, queue, TextOps(Fitting(sends), ts)) && EventsOf(queue) == []
  {
    TextOpsFrames(lib, c.base, Fitting(sends), ts);
    FramesPush(reg.queue, Notify(c.key, TextFrames(lib, c.base, 0, Fitting(sends), ts)), c.key);
    assert c.opening + [] == c.opening;
  }

  /** The flush of the buffered texts, as this end sees it. */
  lemma InstallShows(lib: Library, c: Ctx, reg: Registry, result: Hs.HandshakeResult, ts: u64, sends: seq<Outgoing>)
    requires c.device == result.peerId && c.base == NewSession(result)
    requires Buffered(reg, c.device) == sends && |sends| < MAX_U32
    requires FramesTo(reg.queue, c.key) == c.opening && EventsOf(reg.queue) == []
    ensures var r := Install(lib, reg, c.key, result, ts);
            var ops := TextOps(Fitting(sends), ts);
            && Alive(c, r, |ops|, 0) && ShowsFrames(lib, c, r.queue, ops) && EventsOf(r.queue) == []
  {
    FittingShorter(sends);
    InstallFlushes(lib, reg, c.key, result, ts);
    InstallKeepsSources(lib, reg, c.key, result, ts);
    var n := Numbered(c.base, sends);
    assert n == |Fitting(sends)| && Fitting(sends)[..n] == Fitting(sends);
    InstallAlive(c, Install(lib, reg, c.key, result, ts), result, n);
    FlushShows(lib, c, reg, Install(lib, reg, c.key, result, ts).queue, sends, ts);
  }

  /** The report of the address an inbound peer was seen from, if there is one. */
  function ReportOf(reg: Registry, k: ConnKey, rand: u64): seq<Op> {
    if k in reg.observedAddrs then [SR.SentPlain(ObservedPlain(reg.observedAddrs[k].ip, reg.observedAddrs[k].port), rand)] else []
  }

  lemma ReportShows(lib: Library, c: Ctx, reg: Registry, ops: seq<Op>, rand: u64)
    requires Alive(c, reg, |ops|, 0) && ShowsFrames(lib, c, reg.queue, ops) && EventsOf(reg.queue) == []
    requires |ops| < MAX_U32 && c.key in reg.observedAddrs
    ensures var e := SendControl(lib, reg.(observedAddrs := reg.observedAddrs - {c.key}), c.device, ReportOf(reg, c.key, rand)[0].plain, rand);
            && e.Next? && Alive(c, e.reg, |ops| + 1, 0)
            && ShowsFrames(lib, c, e.reg.queue, ops + ReportOf(reg, c.key, rand)) && EventsOf(e.reg.queue) == []
  {
    var op := ReportOf(reg, c.key, rand)[0];
    var reg1 := reg.(observedAddrs := reg.observedAddrs - {c.key});
    SealAlive(lib, c, reg1, |ops|, 0, op);
    SealShowsFrames(lib, c, reg.queue, ops, op);
    assert SendControl(lib, reg1, c.device, op.plain, rand) == Next(AfterSeal(lib, c, reg1, op));
  }

  lemma InstallKeepsSources(lib: Library, reg: Registry, k: ConnKey, result: Hs.HandshakeResult, ts: u64)
    ensures Install(lib, reg, k, result, ts).observedAddrs == reg.observedAddrs
    ensures Install(lib, reg, k, result, ts).handshakes == reg.handshakes - {k}
    ensures Install(lib, reg, k, result, ts).identity == reg.identity
    ensures DeviceOf(Install(lib, reg, k, result, ts), k.transport) == Some(result.peerId)
  {
  }

  lemma FirstEventTalks(lib: Library, c: Ctx, reg: Registry, ops: seq<Op>, sends: seq<Outgoing>)
    requires Alive(c, reg, |ops|, 0) && ShowsFrames(lib, c, reg.queue, ops) && EventsOf(reg.queue) == []
    requires Tallies(ops, [], sends)
    ensures Talks(lib, c, Push(reg, Generate(c.first)), ops, [], sends)
  {
    FramesPush(reg.queue, Generate(c.first), c.key);
    assert EventsFor(c.device, []) == [];
  }

  lemma EstablishTallies(sends: seq<Outgoing>, ts: u64, report: seq<Op>)
    requires |report| <= 1 && forall i | 0 <= i < |report| :: report[i].plain.ObservedPlain?
    ensures Tallies(TextOps(Fitting(sends), ts) + report, [], sends)
  {
    var ops := TextOps(Fitting(sends), ts);
    TextOpsTexts(Fitting(sends), ts);
    if report == [] {
      assert ops + report == ops;
    } else {
      assert report == [report[0]];
      OpsPush(ops, report[0]);
    }
  }

  /** What this end must be like when its handshake completes. */
  ghost predicate Opening(c: Ctx, reg: Registry, result: Hs.HandshakeResult, sends: seq<Outgoing>) {
    && c.device == result.peerId && c.base == NewSession(result)
    && c.first == SessionEstablished(c.device, c.key.conn, result)
    && Buffered(reg, c.device) == sends && |sends| < MAX_U32
    && FramesTo(reg.queue, c.key) == c.opening && EventsOf(reg.queue) == []
  }

  lemma EstablishPlainly(lib: Library, c: Ctx, reg: Registry, result: Hs.HandshakeResult, env: Env, sends: seq<Outgoing>)
    requires Opening(c, reg, result, sends) && c.key !in reg.observedAddrs
    ensures OnEstablished(lib, reg, c.key, result, env) == Next(Push(Install(lib, reg, c.key, result, env.ts), Generate(c.first)))
  {
    InstallKeepsSources(lib, reg, c.key, result, env.ts);
  }

  lemma EstablishReporting(lib: Library, c: Ctx, reg: Registry, result: Hs.HandshakeResult, env: Env, sends: seq<Outgoing>)
    requires Opening(c, reg, result, sends) && c.key in reg.observedAddrs
    ensures var reg1 := Install(lib, reg, c.key, result, env.ts);
            var e := SendControl(lib, reg1.(observedAddrs := reg1.observedAddrs - {c.key}), c.device, ReportOf(reg, c.key, env.rand)[0].plain, env.rand);
            && (e.Next? ==> OnEstablished(lib, reg, c.key, result, env) == Next(Push(e.reg, Generate(c.first))))
            && (e.Next? ==> e.reg.identity == reg.identity && e.reg.handshakes == reg.handshakes - {c.key})
  {
    InstallKeepsSources(lib, reg, c.key, result, env.ts);
    var reg1 := Install(lib, reg, c.key, result, env.ts);
    ControlKeepsRest(lib, reg1.(observedAddrs := reg1.observedAddrs - {c.key}), c.device, ReportOf(reg, c.key, env.rand)[0].plain, env.rand);
  }

  /** Completing the handshake starts the conversation with the texts that were waiting. */
  lemma EstablishTalks(lib: Library, c: Ctx, reg: Registry, result: Hs.HandshakeResult, env: Env, sends: seq<Outgoing>)
    requires Opening(c, reg, result, sends)
    ensures var e := OnEstablished(lib, reg, c.key, result, env);
            && e.Next? && Talks(lib, c, e.reg, TextOps(Fitting(sends), env.ts) + ReportOf(reg, c.key, env.rand), [], sends)
            && e.reg.identity == reg.identity && e.reg.handshakes == reg.handshakes - {c.key}
  {
    var ops, report := TextOps(Fitting(sends), env.ts), ReportOf(reg, c.key, env.rand);
    var reg1 := Install(lib, reg, c.key, result, env.ts);
    FittingShorter(sends);
    InstallShows(lib, c, reg, result, env.ts, sends);
    InstallKeepsSources(lib, reg, c.key, result, env.ts);
    EstablishTallies(sends, env.ts, report);
    if c.key in reg.observedAddrs {
      ReportShows(lib, c, reg1, ops, env.rand);
      EstablishReporting(lib, c, reg, result, env, sends);
      var e := SendControl(lib, reg1.(observedAddrs := reg1.observedAddrs - {c.key}), c.device, report[0].plain, env.rand);
      FirstEventTalks(lib, c, e.reg, ops + report, sends);
    } else {
      assert ops + report == ops;
      EstablishPlainly(lib, c, reg, result, env, sends);
      FirstEventTalks(lib, c, reg1, ops, sends);
    }
  }

  // ---- One side of the connection ----

  /** `got` counts the frames delivered to this side; `sends` is every text the user asked it
      to send. */
  datatype Side = Side(reg: Registry, started: bool, got: nat, sends: seq<Outgoing>)

  /** How much weight receiving one frame can add to what a side has sealed. */
  function WeightGain(s: Side, peerOps: seq<Op>): nat {
    if s.got < 4 then 0
    else if s.got == 4 then 2 * |s.sends| + 1
    else if s.got - 5 < |peerOps| && peerOps[s.got - 5].plain.TextPlain? then 1 else 0
  }

  ghost predicate AllGood(lib: Library, ops: seq<Op>) {
    forall i | 0 <= i < |ops| :: Good(lib, ops[i].plain)
  }

  ghost predicate AllText(lib: Library, sends: seq<Outgoing>) {
    forall t | t in sends :: lib.utf8(t.text)
  }

  /** The invariant of a side in conversation. `peerOps` is what the peer has sealed, and
      `budget` bounds what this side has. */
  ghost predicate TalkInv(lib: Library, c: Ctx, id: Identity, s: Side, ops: seq<Op>, peerOps: seq<Op>, budget: nat) {
    && s.started && s.got >= 5 && s.got - 5 <= |peerOps| <= MAX_U32
    && s.reg.identity == id && ValidHandshakes(s.reg.handshakes)
    && Talks(lib, c, s.reg, ops, peerOps[..s.got - 5], s.sends)
    && AllGood(lib, ops) && AllText(lib, s.sends) && |ops| <= budget
  }

  lemma TalkMore(lib: Library, c: Ctx, id: Identity, s: Side, ops: seq<Op>, peerOps: seq<Op>, more: seq<Op>, budget: nat)
    requires TalkInv(lib, c, id, s, ops, peerOps, budget) && peerOps <= more && |more| <= MAX_U32
    ensures TalkInv(lib, c, id, s, ops, more, budget + 1)
  {
    assert more[..s.got - 5] == peerOps[..s.got - 5];
  }

  lemma GoodPush(lib: Library, ops: seq<Op>, op: Op)
    requires AllGood(lib, ops) && Good(lib, op.plain)
    ensures AllGood(lib, ops + [op])
  {
  }

  lemma TextPush(lib: Library, sends: seq<Outgoing>, t: Outgoing)
    requires AllText(lib, sends) && lib.utf8(t.text)
    ensures AllText(lib, sends + [t])
  {
  }

  /** The parts of the invariant, put together. */
  lemma TalkParts(lib: Library, c: Ctx, id: Identity, s: Side, ops: seq<Op>, peerOps: seq<Op>, heard: seq<Op>, budget: nat)
    requires s.started && s.got >= 5 && s.got - 5 <= |peerOps| <= MAX_U32 && heard == peerOps[..s.got - 5]
    requires s.reg.identity == id && ValidHandshakes(s.reg.handshakes) && Talks(lib, c, s.reg, ops, heard, s.sends)
    requires AllGood(lib, ops) && AllText(lib, s.sends) && |ops| <= budget
    ensures TalkInv(lib, c, id, s, ops, peerOps, budget)
  {
  }

  lemma TalkText(lib: Library, c: Ctx, id: Identity, s: Side, ops: seq<Op>, peerOps: seq<Op>, budget: nat, text: Bytes, msgId: u64, ts: u64)
    returns (ops': seq<Op>)
    requires TalkInv(lib, c, id, s, ops, peerOps, budget) && budget < MAX_U32 && lib.utf8(text) && |text| <= MAX_MESSAGE_BYTES
    ensures ops <= ops' && |ops'| <= budget + 1
    ensures TalkInv(lib, c, id, s.(reg := SendMessage(lib, s.reg, c.device, text, msgId, ts), sends := s.sends + [Outgoing(msgId, text)]),
                    ops', peerOps, budget + 1)
  {
    var op, heard := SR.SentPlain(TextPlain(ts, text), msgId), peerOps[..s.got - 5];
    ops' := ops + [op];
    SendKeepsRest(lib, s.reg, c.device, text, msgId, ts);
    TextTalks(lib, c, s.reg, ops, heard, s.sends, text, msgId, ts);
    GoodPush(lib, ops, op);
    TextPush(lib, s.sends, Outgoing(msgId, text));
    TalkParts(lib, c, id, s.(reg := SendMessage(lib, s.reg, c.device, text, msgId, ts), sends := s.sends + [Outgoing(msgId, text)]),
              ops', peerOps, heard, budget + 1);
  }

  lemma TalkControl(lib: Library, c: Ctx, id: Identity, s: Side, ops: seq<Op>, peerOps: seq<Op>, budget: nat, p: Plain, rand: u64)
    returns (ops': seq<Op>)
    requires TalkInv(lib, c, id, s, ops, peerOps, budget) && budget < MAX_U32 && !p.TextPlain? && !p.AckPlain? && Good(lib, p)
    ensures ops <= ops' && |ops'| <= budget + 1
    ensures var e := SendControl(lib, s.reg, c.device, p, rand);
            e.Next? && TalkInv(lib, c, id, s.(reg := e.reg), ops', peerOps, budget + 1)
  {
    var op, heard := SR.SentPlain(p, rand), peerOps[..s.got - 5];
    ops' := ops + [op];
    ControlKeepsRest(lib, s.reg, c.device, p, rand);
    ControlTalks(lib, c, s.reg, ops, heard, s.sends, p, rand);
    GoodPush(lib, ops, op);
    TalkParts(lib, c, id, s.(reg := SendControl(lib, s.reg, c.device, p, rand).reg), ops', peerOps, heard, budget + 1);
  }

  /** The side after hearing one more payload, whatever the registry did to get there. */
  lemma TalkHeard(lib: Library, c: Ctx, id: Identity, s: Side, reg: Registry, ops': seq<Op>, peerOps: seq<Op>, heard: seq<Op>, budget: nat)
    requires s.started && 5 <= s.got < 5 + |peerOps| && |peerOps| <= MAX_U32 && heard == peerOps[..s.got - 4]
    requires s.reg.identity == id && ValidHandshakes(s.reg.handshakes) && AllText(lib, s.sends)
    requires reg.identity == s.reg.identity && reg.handshakes == s.reg.handshakes
    requires Talks(lib, c, reg, ops', heard, s.sends) && AllGood(lib, ops') && |ops'| <= budget
    ensures TalkInv(lib, c, id, s.(reg := reg, got := s.got + 1), ops', peerOps, budget)
  {
    TalkParts(lib, c, id, s.(reg := reg, got := s.got + 1), ops', peerOps, heard, budget);
  }

  lemma AnsweredGood(lib: Library, ops: seq<Op>, op: Op, n: u32, env: Env)
    requires AllGood(lib, ops)
    ensures AllGood(lib, Answered(ops, op, n, env)) && ops <= Answered(ops, op, n, env) && |Answered(ops, op, n, env)| <= |ops| + 1
    ensures OpWeight(Answered(ops, op, n, env)) == OpWeight(ops) + if op.plain.TextPlain? then 1 else 0
  {
    GoodPush(lib, ops, SR.SentPlain(AckPlain(op.msgId, n, env.ts), env.rand));
    OpWeightPush(ops, SR.SentPlain(AckPlain(op.msgId, n, env.ts), env.rand));
  }

  lemma TalkReceive(lib: Library, c: Ctx, id: Identity, sender: SessionState, s: Side, ops: seq<Op>, peerOps: seq<Op>, budget: nat, env: Env)
    returns (ops': seq<Op>)
    requires AeadCorrect(lib) && AddrTextCorrect(lib) && SR.Ends(sender, c.base)
    requires TalkInv(lib, c, id, s, ops, peerOps, budget) && budget < MAX_U32 && AllGood(lib, peerOps) && s.got - 5 < |peerOps|
    ensures ops <= ops' && |ops'| <= budget + 1 && OpWeight(ops') <= OpWeight(ops) + WeightGain(s, peerOps)
    ensures var op := peerOps[s.got - 5];
            var e := OnSessionFrame(lib, s.reg, c.key, FrameFor(lib, sender, s.got - 5, op.msgId, op.plain), env);
            e.Next? && TalkInv(lib, c, id, s.(reg := e.reg, got := s.got + 1), ops', peerOps, budget + 1)
  {
    var n := s.got - 5;
    var frame := FrameFor(lib, sender, n, peerOps[n].msgId, peerOps[n].plain);
    ops' := ReceiveTalks(lib, c, sender, s.reg, ops, peerOps, n, s.sends, env);
    ReceiveKeepsRest(lib, s.reg, c.key, frame, env);
    AnsweredGood(lib, ops, peerOps[n], n, env);
    TalkHeard(lib, c, id, s, OnSessionFrame(lib, s.reg, c.key, frame, env).reg, ops', peerOps, peerOps[..n + 1], budget + 1);
  }

  lemma OpeningOpsGood(lib: Library, sends: seq<Outgoing>, ts: u64, report: seq<Op>)
    requires AllText(lib, sends) && AllGood(lib, report)
    ensures AllGood(lib, TextOps(Fitting(sends), ts) + report)
  {
    FittingFrom(sends);
  }

  lemma OpeningWeight(texts: seq<Op>, report: seq<Op>)
    requires |report| <= 1 && forall i | 0 <= i < |report| :: !report[i].plain.TextPlain?
    ensures OpWeight(texts + report) <= 2 * |texts| + 1
  {
    OpWeightBound(texts);
    if report == [] {
      assert texts + report == texts;
    } else {
      assert report == [report[0]];
      OpWeightPush(texts, report[0]);
    }
  }

  /** The side just after its handshake completed. */
  lemma TalkOpened(lib: Library, c: Ctx, s: Side, reg: Registry, ts: u64, report: seq<Op>, peerOps: seq<Op>, budget: nat)
    requires s.started && s.got == 4 && ValidHandshakes(s.reg.handshakes) && AllText(lib, s.sends) && |peerOps| <= MAX_U32
    requires |s.sends| <= budget && |report| <= 1 && AllGood(lib, report) && forall i | 0 <= i < |report| :: !report[i].plain.TextPlain?
    requires reg.identity == s.reg.identity && reg.handshakes == s.reg.handshakes - {c.key}
    requires Talks(lib, c, reg, TextOps(Fitting(s.sends), ts) + report, [], s.sends)
    ensures |TextOps(Fitting(s.sends), ts) + report| <= budget + 1
    ensures OpWeight(TextOps(Fitting(s.sends), ts) + report) <= 2 * |s.sends| + 1
    ensures TalkInv(lib, c, s.reg.identity, s.(reg := reg, got := 5), TextOps(Fitting(s.sends), ts) + report, peerOps, budget + 1)
  {
    FittingShorter(s.sends);
    OpeningOpsGood(lib, s.sends, ts, report);
    OpeningWeight(TextOps(Fitting(s.sends), ts), report);
    assert peerOps[..0] == [];
  }

  lemma ReportGood(lib: Library, reg: Registry, k: ConnKey, rand: u64)
    requires k in reg.observedAddrs ==> reg.observedAddrs[k].ip.Valid()
    ensures |ReportOf(reg, k, rand)| <= 1 && AllGood(lib, ReportOf(reg, k, rand))
    ensures forall i | 0 <= i < |ReportOf(reg, k, rand)| :: !ReportOf(reg, k, rand)[i].plain.TextPlain?
  {
  }

  lemma TalkEstablish(lib: Library, c: Ctx, s: Side, result: Hs.HandshakeResult, env: Env, peerOps: seq<Op>, budget: nat)
    returns (ops: seq<Op>)
    requires Opening(c, s.reg, result, s.sends) && |s.sends| <= budget < MAX_U32
    requires s.started && s.got == 4 && ValidHandshakes(s.reg.handshakes) && AllText(lib, s.sends) && |peerOps| <= MAX_U32
    requires c.key in s.reg.observedAddrs ==> s.reg.observedAddrs[c.key].ip.Valid()
    ensures |ops| <= budget + 1 && OpWeight(ops) <= 2 * |s.sends| + 1
    ensures var e := OnEstablished(lib, s.reg, c.key, result, env);
            e.Next? && TalkInv(lib, c, s.reg.identity, s.(reg := e.reg, got := 5), ops, peerOps, budget + 1)
  {
    var report := ReportOf(s.reg, c.key, env.rand);
    ops := TextOps(Fitting(s.sends), env.ts) + report;
    ReportGood(lib, s.reg, c.key, env.rand);
    EstablishTalks(lib, c, s.reg, result, env, s.sends);
    TalkOpened(lib, c, s, OnEstablished(lib, s.reg, c.key, result, env).reg, env.ts, report, peerOps, budget);
  }
}
