/** What the transport does not promise, and exactly when: it does not tie an acknowledgement
    to a message it sent, although the comment at src/session.rs:21-23 says so, and it refuses
    texts or panics in a few cases. */
module Limits {
  import opened ByteStrings
  import opened Framing
  import opened Library
  import Hs = Handshake
  import opened Session
  import SR = SessionRuns
  import opened R = Registry
  import opened Conversation

  // ---- When a frame opens ----

  /** The plaintext of the next frame of this session, if `f` is one. */
  function Plaintext(lib: Library, s: SessionState, f: Frame): Option<Bytes> {
    if f.sessionId == s.sessionId && f.seqNo == s.inSeq && s.inSeq < MAX_U32 && f.IsSessionFrame()
    then lib.open(s.recvKey, NonceFor(s.peerDir, f.seqNo), AadFor(s.sessionId, f.msgType, f.seqNo, f.msgId), f.payload)
    else None
  }

  /** A frame is refused unless it is the next one of the session, opens, and parses. */
  lemma OpensExactly(lib: Library, s: SessionState, f: Frame)
    ensures var p := Plaintext(lib, s, f);
            var answer := HandleFrame(lib, s, f).answer;
            if p.None? then answer.Refused? else answer == ParsePlaintext(lib, f.seqNo, f.msgType, f.msgId, p.value)
  {
  }

  predicate IsMessage(lib: Library, t: MessageType, p: Bytes) {
    t.Message? && |p| >= 9 && p[0] == 1 && lib.utf8(p[9..])
  }

  /** An Ack plaintext: tag 2, message id, sequence number, time. */
  predicate IsAck(t: MessageType, p: Bytes, ack: AckOf) {
    t.Ack? && |p| == 21 && p[0] == 2 && FromBigEndian(p[1..9]) == ack.msgId && FromBigEndian(p[9..13]) == ack.seqNo
  }

  lemma ParsesToMessage(lib: Library, seqNo: u32, t: MessageType, msgId: u64, p: Bytes)
    ensures var o := ParsePlaintext(lib, seqNo, t, msgId, p); o.Opened? && o.event.InMessage? <==> IsMessage(lib, t, p)
  {
  }

  lemma ParsesToAck(lib: Library, seqNo: u32, t: MessageType, msgId: u64, p: Bytes, ack: AckOf)
    ensures ParsePlaintext(lib, seqNo, t, msgId, p) == Opened(InAck(ack.msgId, ack.seqNo)) <==> IsAck(t, p, ack)
  {
  }

  // ---- Acknowledgements ----

  predicate CarriesAck(lib: Library, s: SessionState, f: Frame, ack: AckOf) {
    Plaintext(lib, s, f).Some? && IsAck(f.msgType, Plaintext(lib, s, f).value, ack)
  }

  /** The call reports exactly this event. */
  predicate JustReports(reg: Registry, e: Effect, event: BehaviourEvent) {
    e.Next? && e.reg.queue == reg.queue + [Generate(event)]
  }

  lemma OpenedReports(lib: Library, reg: Registry, k: ConnKey, device: PeerId, i: Inbound, env: Env, event: BehaviourEvent)
    requires device in reg.sessions
    ensures JustReports(reg, OnOpened(lib, reg, k, device, i, env), event) <==> !i.InMessage? && event == EventFor(device, i)
  {
    var e := OnOpened(lib, reg, k, device, i, env);
    if i.InMessage? {
      assert e.Next? ==> |e.reg.queue| == |reg.queue| + 2;
    } else {
      assert e.reg.queue[|reg.queue|] == Generate(EventFor(device, i));
      assert JustReports(reg, e, event) ==> e.reg.queue[|reg.queue|] == Generate(event);
    }
  }

  lemma HandledReports(lib: Library, reg: Registry, k: ConnKey, device: PeerId, h: HandleOutcome, env: Env, reporter: PeerId, ack: AckOf)
    requires device in reg.sessions
    ensures JustReports(reg, OnHandled(lib, reg, k, device, h, env), AckReceived(reporter, ack.msgId, ack.seqNo))
            <==> reporter == device && h.answer == Opened(InAck(ack.msgId, ack.seqNo))
  {
    var event := AckReceived(reporter, ack.msgId, ack.seqNo);
    match h.answer
    case Opened(i) => OpenedReports(lib, SetSession(reg, device, h.state), k, device, i, env, event);
    case Refused(e) =>
      var queue := OnHandled(lib, reg, k, device, h, env).reg.queue;
      assert queue[|reg.queue|] == Generate(HandshakeFailed(device, SessionFailure(e)));
      assert (reg.queue + [Generate(event)])[|reg.queue|] == Generate(event);
  }

  lemma AnswersAckExactly(lib: Library, s: SessionState, f: Frame, ack: AckOf)
    ensures HandleFrame(lib, s, f).answer == Opened(InAck(ack.msgId, ack.seqNo)) <==> CarriesAck(lib, s, f, ack)
  {
    OpensExactly(lib, s, f);
    if Plaintext(lib, s, f).Some? {
      ParsesToAck(lib, f.seqNo, f.msgType, f.msgId, Plaintext(lib, s, f).value, ack);
    }
  }

  /** When exactly an acknowledgement is reported: the frame is the next one of the session of
      the device behind its transport peer, and opens to that acknowledgement. What this side
      has sealed plays no part. */
  lemma AckReportedExactly(lib: Library, reg: Registry, k: ConnKey, frame: Frame, env: Env, device: PeerId, ack: AckOf)
    ensures JustReports(reg, OnSessionFrame(lib, reg, k, frame, env), AckReceived(device, ack.msgId, ack.seqNo))
            <==> && DeviceOf(reg, k.transport) == Some(device) && device in reg.sessions
                 && CarriesAck(lib, reg.sessions[device].session, frame, ack)
  {
    if k.transport in reg.transportDevices && reg.transportDevices[k.transport] in reg.sessions {
      var d := reg.transportDevices[k.transport];
      var s := reg.sessions[d].session;
      HandledReports(lib, reg, k, d, HandleFrame(lib, s, frame), env, device, ack);
      AnswersAckExactly(lib, s, frame, ack);
    } else {
      assert |OnSessionFrame(lib, reg, k, frame, env).reg.queue| == |reg.queue|;
    }
  }

  /** So the peer may acknowledge anything: whatever id and number it names is reported, even
      to a side that has sealed nothing at all. */
  lemma UnsolicitedAckSurfaces(lib: Library, reg: Registry, k: ConnKey, sender: SessionState, ack: AckOf, ts: u64, msgId: u64, env: Env)
    requires AeadCorrect(lib) && AddrTextCorrect(lib) && k.transport in reg.transportDevices
    requires var device := reg.transportDevices[k.transport];
             device in reg.sessions && SR.Ends(sender, reg.sessions[device].session) && reg.sessions[device].session.inSeq < MAX_U32
    ensures var device := reg.transportDevices[k.transport];
            var n := reg.sessions[device].session.inSeq;
            JustReports(reg, OnSessionFrame(lib, reg, k, FrameFor(lib, sender, n, msgId, AckPlain(ack.msgId, ack.seqNo, ts)), env),
                        AckReceived(device, ack.msgId, ack.seqNo))
  {
    var s := reg.sessions[reg.transportDevices[k.transport]].session;
    OpensHonestFrame(lib, s, sender, s.inSeq, SR.SentPlain(AckPlain(ack.msgId, ack.seqNo, ts), msgId));
  }

  /** The acknowledgements among what a session has yielded. */
  function AcksReported(events: seq<Inbound>): seq<AckOf>
    decreases |events|
  {
    if events == [] then []
    else
      var before, last := AcksReported(events[..|events| - 1]), events[|events| - 1];
      if last.InAck? then before + [AckOf(last.msgId, last.ackSeq)] else before
  }

  /** The event is the acknowledgement that the payload is, if either is one. */
  predicate SameAck(op: Op, event: Inbound) {
    && (op.plain.AckPlain? <==> event.InAck?)
    && (op.plain.AckPlain? ==> event == InAck(op.plain.ackMsgId, op.plain.ackSeq))
  }

  lemma ReadsAck(lib: Library, n: u32, op: Op, event: Inbound)
    requires SR.Reads(lib, n, op, event)
    ensures SameAck(op, event)
  {
    if op.plain.AckPlain? {
      ReadAck(lib, n, op.msgId, op.plain.ackMsgId, op.plain.ackSeq, op.plain.ts);
    }
  }

  lemma AcksSnoc(events: seq<Inbound>, e: Inbound, ops: seq<Op>, op: Op, events': seq<Inbound>, ops': seq<Op>)
    requires AcksReported(events) == AcksIn(ops) && SameAck(op, e)
    requires events' == events + [e] && ops' == ops + [op]
    ensures AcksReported(events') == AcksIn(ops')
  {
    assert events'[..|events|] == events;
    OpsPush(ops, op);
  }

  lemma {:induction false} ReadAcks(sent: seq<Op>, events: seq<Inbound>, n: nat)
    requires n <= |events| <= |sent| && forall k | 0 <= k < |events| :: SameAck(sent[k], events[k])
    ensures AcksReported(events[..n]) == AcksIn(sent[..n])
    decreases n
  {
    if n > 0 {
      ReadAcks(sent, events, n - 1);
      AcksSnoc(events[..n - 1], events[n - 1], sent[..n - 1], sent[n - 1], events[..n], sent[..n]);
    }
  }

  /** `ack` names a text among `mine` by its id and position. */
  predicate Owes(mine: seq<Op>, ack: AckOf) {
    ack.seqNo < |mine| && mine[ack.seqNo].plain.TextPlain? && mine[ack.seqNo].msgId == ack.msgId
  }

  predicate OnlyOwed(mine: seq<Op>, acks: seq<AckOf>) {
    forall i | 0 <= i < |acks| :: Owes(mine, acks[i])
  }

  /** With arbitrary frames injected, the acknowledgements a session reports are exactly those
      among the payloads of its peer that were opened. So whatever this side has sealed, it is
      told only of acknowledgements it is owed if and only if its peer sealed only such ones. */
  lemma ReportedAcksAreSealedAcks(lib: Library, nets: seq<SR.Net>, actions: seq<SR.NetAction>, mine: seq<Op>)
    requires SR.NetRun(lib, nets, actions)
    ensures var n := nets[|actions|];
            && |n.events| <= |n.sent|
            && AcksReported(n.events) == AcksIn(n.sent[..|n.events|])
            && (OnlyOwed(mine, AcksReported(n.events)) <==>
                forall k | 0 <= k < |n.events| && n.sent[k].plain.AckPlain? ::
                  Owes(mine, AckOf(n.sent[k].plain.ackMsgId, n.sent[k].plain.ackSeq)))
  {
    SR.YieldsPrefixOfSealed(lib, nets, actions);
    var n := nets[|actions|];
    forall k | 0 <= k < |n.events|
      ensures SameAck(n.sent[k], n.events[k])
    {
      ReadsAck(lib, k, n.sent[k], n.events[k]);
    }
    ReadAcks(n.sent, n.events, |n.events|);
    assert n.events[..|n.events|] == n.events;
    OwedAmong(mine, n.sent[..|n.events|]);
    assert forall k | 0 <= k < |n.events| :: n.sent[..|n.events|][k] == n.sent[k];
  }

  lemma {:induction false} OwedAmong(mine: seq<Op>, ops: seq<Op>)
    ensures OnlyOwed(mine, AcksIn(ops)) <==>
            forall k | 0 <= k < |ops| && ops[k].plain.AckPlain? :: Owes(mine, AckOf(ops[k].plain.ackMsgId, ops[k].plain.ackSeq))
    decreases |ops|
  {
    if ops != [] {
      var front, last := ops[..|ops| - 1], ops[|ops| - 1];
      OwedAmong(mine, front);
      assert ops == front + [last];
      if last.plain.AckPlain? {
        var acks, ack := AcksIn(front), AckOf(last.plain.ackMsgId, last.plain.ackSeq);
        assert AcksIn(ops) == acks + [ack] && (acks + [ack])[|acks|] == ack;
        assert forall i | 0 <= i < |acks| :: (acks + [ack])[i] == acks[i];
      }
    }
  }

  // ---- Refused texts ----

  /** When exactly a send reports a failure. */
  lemma SendFailsExactly(lib: Library, reg: Registry, peer: PeerId, text: Bytes, msgId: u64, ts: u64, error: SessionError)
    ensures SendMessage(lib, reg, peer, text, msgId, ts).queue == reg.queue + [Generate(HandshakeFailed(peer, SessionFailure(error)))]
            <==> && peer in reg.sessions
                 && if |text| > MAX_MESSAGE_BYTES then error == MessageTooLarge(|text|)
                    else reg.sessions[peer].session.outSeq == MAX_U32 && error == Hostile
  {
    if peer in reg.sessions {
      DispatchFails(reg, peer, EncryptMessage(lib, reg.sessions[peer].session, text, msgId, ts), error);
    } else {
      assert |SendMessage(lib, reg, peer, text, msgId, ts).queue| == |reg.queue|;
    }
  }

  lemma DispatchFails(reg: Registry, peer: PeerId, o: SealOutcome, error: SessionError)
    requires peer in reg.sessions
    ensures Dispatched(reg, peer, o).queue == reg.queue + [Generate(HandshakeFailed(peer, SessionFailure(error)))] <==> o == NotSealed(error)
  {
    var queue := Dispatched(reg, peer, o).queue;
    var failed := Generate(HandshakeFailed(peer, SessionFailure(error)));
    assert queue == reg.queue + [failed] ==> queue[|reg.queue|] == failed;
    assert o.NotSealed? ==> queue[|reg.queue|] == Generate(HandshakeFailed(peer, SessionFailure(o.error)));
    assert o.Panics? ==> |queue| == |reg.queue|;
  }

  /** The transport peer the node disconnects when it is told of `event`. */
  function Disconnected(reg: Registry, event: BehaviourEvent): Option<PeerId> {
    if !event.HandshakeFailed? then None
    else Some(if event.peer in reg.deviceTransports then reg.deviceTransports[event.peer] else event.peer)
  }

  /** A text over the limit, sent to a live session, ends in a disconnect. */
  lemma OversizedTextDisconnects(lib: Library, reg: Registry, peer: PeerId, text: Bytes, msgId: u64, ts: u64)
    requires peer in reg.sessions && peer in reg.deviceTransports && |text| > MAX_MESSAGE_BYTES
    ensures var event := HandshakeFailed(peer, SessionFailure(MessageTooLarge(|text|)));
            && SendMessage(lib, reg, peer, text, msgId, ts) == Push(reg, Generate(event))
            && Disconnected(reg, event) == Some(reg.deviceTransports[peer])
  {
  }

  // ---- Panics ----

  predicate Spent(reg: Registry, device: PeerId) {
    device in reg.sessions && reg.sessions[device].session.outSeq == MAX_U32
  }

  /** The frame completes the handshake: a Ready with the right session id after Auth. */
  predicate Completes(st: Hs.State, frame: Frame)
    requires Hs.Present(st)
  {
    && frame.flags == 0 && frame.msgType.Ready? && st.peerReady.None? && st.peerAuthOk
    && |frame.payload| == 16 && frame.payload == st.keys.value.sessionId
  }

  lemma CompletesExactly(lib: Library, id: Identity, st: Hs.State, frame: Frame, coins: Hs.Coins)
    requires Hs.Present(st)
    ensures Hs.OnFrame(lib, id, st, frame, coins).reaction.Complete? <==> Completes(st, frame)
    ensures Completes(st, frame) ==> Hs.OnFrame(lib, id, st, frame, coins).reaction.result == Hs.ResultOf(st)
  {
  }

  /** The session frame makes the node acknowledge a message. */
  predicate CarriesMessage(lib: Library, reg: Registry, k: ConnKey, frame: Frame, device: PeerId) {
    && DeviceOf(reg, k.transport) == Some(device) && device in reg.sessions
    && Plaintext(lib, reg.sessions[device].session, frame).Some?
    && IsMessage(lib, frame.msgType, Plaintext(lib, reg.sessions[device].session, frame).value)
  }

  /** The events that need a sequence number when there is none left. */
  ghost predicate PanicsOn(lib: Library, reg: Registry, a: RegAction)
    requires Valid(reg)
  {
    match a
    case DoControl(peer, _, _) => Spent(reg, peer)
    case DoDeliver(k, frame, _) =>
      if frame.IsSessionFrame() then exists device :: CarriesMessage(lib, reg, k, frame, device) && Spent(reg, device)
      else
        && k in reg.handshakes && Completes(reg.handshakes[k], frame) && k in reg.observedAddrs
        && |Fitting(Buffered(reg, reg.handshakes[k].peerId.value))| >= MAX_U32
    case _ => false
  }

  lemma ControlPanicsExactly(lib: Library, reg: Registry, peer: PeerId, p: Plain, rand: u64)
    ensures SendControl(lib, reg, peer, p, rand).Crash? <==> Spent(reg, peer)
  {
  }

  lemma OpenedPanicsExactly(lib: Library, reg: Registry, k: ConnKey, device: PeerId, i: Inbound, env: Env)
    requires device in reg.sessions
    ensures OnOpened(lib, reg, k, device, i, env).Crash? <==> i.InMessage? && Spent(reg, device)
  {
  }

  lemma SessionFramePanicsExactly(lib: Library, reg: Registry, k: ConnKey, frame: Frame, env: Env)
    ensures OnSessionFrame(lib, reg, k, frame, env).Crash? <==>
            exists device :: CarriesMessage(lib, reg, k, frame, device) && Spent(reg, device)
  {
    if k.transport in reg.transportDevices && reg.transportDevices[k.transport] in reg.sessions {
      var device := reg.transportDevices[k.transport];
      var s := reg.sessions[device].session;
      var h := HandleFrame(lib, s, frame);
      OpensExactly(lib, s, frame);
      if Plaintext(lib, s, frame).Some? {
        ParsesToMessage(lib, frame.seqNo, frame.msgType, frame.msgId, Plaintext(lib, s, frame).value);
      }
      if h.answer.Opened? {
        OpenedPanicsExactly(lib, SetSession(reg, device, h.state), k, device, h.answer.event, env);
        assert h.state.outSeq == s.outSeq;
      }
      assert CarriesMessage(lib, reg, k, frame, device) <==> h.answer.Opened? && h.answer.event.InMessage?;
    }
  }

  lemma EstablishPanicsExactly(lib: Library, reg: Registry, k: ConnKey, result: Hs.HandshakeResult, env: Env)
    ensures OnEstablished(lib, reg, k, result, env).Crash? <==>
            k in reg.observedAddrs && |Fitting(Buffered(reg, result.peerId))| >= MAX_U32
  {
    var reg1 := Install(lib, reg, k, result, env.ts);
    InstallFlushes(lib, reg, k, result, env.ts);
    InstallKeepsSources(lib, reg, k, result, env.ts);
    if k in reg.observedAddrs {
      var source := reg1.observedAddrs[k];
      ControlPanicsExactly(lib, reg1.(observedAddrs := reg1.observedAddrs - {k}), result.peerId, ObservedPlain(source.ip, source.port), env.rand);
    }
  }

  /** When exactly an event makes the node panic. */
  lemma PanicsExactly(lib: Library, reg: Registry, a: RegAction)
    requires Valid(reg)
    ensures Apply(lib, reg, a).Crash? <==> PanicsOn(lib, reg, a)
  {
    match a {
      case DoControl(peer, plain, rand) => ControlPanicsExactly(lib, reg, peer, plain, rand);
      case DoDeliver(k, frame, env) =>
        if frame.IsSessionFrame() {
          SessionFramePanicsExactly(lib, reg, k, frame, env);
        } else if k in reg.handshakes {
          CompletesExactly(lib, reg.identity, reg.handshakes[k], frame, env.coins);
          if Completes(reg.handshakes[k], frame) {
            EstablishPanicsExactly(lib, reg, k, Hs.ResultOf(reg.handshakes[k]), env);
          }
        }
      case _ =>
    }
  }
}
