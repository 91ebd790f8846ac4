/** What ends or replaces the session of a device, over every event of the behaviour. */
module SessionLifetime {
  import opened ByteStrings
  import opened Framing
  import opened Library
  import Hs = Handshake
  import opened Session
  import opened R = Registry
  import opened Conversation
  import opened Limits

  /** The same session on the same connection, however many frames later. */
  predicate SameKeys(s: SessionState, t: SessionState) {
    s.(outSeq := t.outSeq, inSeq := t.inSeq, seqViolations := t.seqViolations, seen := t.seen) == t
  }

  predicate Kept(reg: Registry, reg': Registry, device: PeerId)
    requires device in reg.sessions
  {
    && device in reg'.sessions && reg'.sessions[device].conn == reg.sessions[device].conn
    && SameKeys(reg.sessions[device].session, reg'.sessions[device].session)
  }

  /** The frame is not the next one of the session, or does not open, or does not parse. */
  predicate Refuses(lib: Library, s: SessionState, f: Frame) {
    var p := Plaintext(lib, s, f);
    p.None? || ParsePlaintext(lib, f.seqNo, f.msgType, f.msgId, p.value).Refused?
  }

  predicate EndsSession(lib: Library, reg: Registry, a: RegAction, device: PeerId)
    requires device in reg.sessions
  {
    match a
    case DoDeliver(k, frame, _) =>
      frame.IsSessionFrame() && DeviceOf(reg, k.transport) == Some(device) && Refuses(lib, reg.sessions[device].session, frame)
    case DoDown(k, _) => DeviceOr(reg, k.transport) == device && reg.sessions[device].conn == k
    case _ => false
  }

  predicate ReplacesSession(reg: Registry, a: RegAction, device: PeerId)
    requires ValidHandshakes(reg.handshakes)
  {
    && a.DoDeliver? && !a.frame.IsSessionFrame() && a.k in reg.handshakes && Completes(reg.handshakes[a.k], a.frame)
    && reg.handshakes[a.k].peerId == Some(device)
  }

  lemma DispatchedFate(reg: Registry, peer: PeerId, o: SealOutcome, device: PeerId)
    requires peer in reg.sessions && device in reg.sessions
    requires o.Sealed? ==> SameKeys(reg.sessions[peer].session, o.state)
    ensures Kept(reg, Dispatched(reg, peer, o), device)
    ensures Controlled(reg, peer, o).Next? ==> Kept(reg, Controlled(reg, peer, o).reg, device)
  {
  }

  lemma AcknowledgedFate(reg: Registry, k: ConnKey, peer: PeerId, event: BehaviourEvent, o: SealOutcome, device: PeerId)
    requires peer in reg.sessions && device in reg.sessions
    requires o.Sealed? ==> SameKeys(reg.sessions[peer].session, o.state)
    ensures var e := Acknowledged(reg, k, peer, event, o); e.Next? ==> Kept(reg, e.reg, device)
  {
  }

  lemma SendFate(lib: Library, reg: Registry, peer: PeerId, text: Bytes, msgId: u64, ts: u64, device: PeerId)
    requires device in reg.sessions
    ensures Kept(reg, SendMessage(lib, reg, peer, text, msgId, ts), device)
  {
    if peer in reg.sessions {
      DispatchedFate(reg, peer, EncryptMessage(lib, reg.sessions[peer].session, text, msgId, ts), device);
    }
  }

  lemma ControlFate(lib: Library, reg: Registry, peer: PeerId, p: Plain, rand: u64, device: PeerId)
    requires device in reg.sessions
    ensures var e := SendControl(lib, reg, peer, p, rand); e.Next? ==> Kept(reg, e.reg, device)
  {
    if peer in reg.sessions {
      DispatchedFate(reg, peer, SealPlain(lib, reg.sessions[peer].session, p, rand), device);
    }
  }

  lemma OpenedFate(lib: Library, reg: Registry, k: ConnKey, peer: PeerId, i: Inbound, env: Env, device: PeerId)
    requires peer in reg.sessions && device in reg.sessions
    ensures var e := OnOpened(lib, reg, k, peer, i, env); e.Next? ==> Kept(reg, e.reg, device)
  {
    if i.InMessage? {
      AcknowledgedFate(reg, k, peer, EventFor(peer, i),
                       SealPlain(lib, reg.sessions[peer].session, AckPlain(i.msgId, i.seqNo, env.ts), env.rand), device);
    }
  }

  lemma HandledFate(lib: Library, reg: Registry, k: ConnKey, peer: PeerId, h: HandleOutcome, env: Env, device: PeerId)
    requires peer in reg.sessions && device in reg.sessions && OnHandled(lib, reg, k, peer, h, env).Next?
    requires SameKeys(reg.sessions[peer].session, h.state)
    ensures var reg' := OnHandled(lib, reg, k, peer, h, env).reg;
            if peer == device && h.answer.Refused? then device !in reg'.sessions else Kept(reg, reg', device)
  {
    if h.answer.Opened? {
      OpenedFate(lib, SetSession(reg, peer, h.state), k, peer, h.answer.event, env, device);
    }
  }

  lemma RefusesExactly(lib: Library, s: SessionState, f: Frame)
    ensures HandleFrame(lib, s, f).answer.Refused? <==> Refuses(lib, s, f)
    ensures SameKeys(s, HandleFrame(lib, s, f).state)
  {
    OpensExactly(lib, s, f);
  }

  lemma SessionFrameFate(lib: Library, reg: Registry, k: ConnKey, frame: Frame, env: Env, device: PeerId)
    requires device in reg.sessions && OnSessionFrame(lib, reg, k, frame, env).Next?
    ensures var reg' := OnSessionFrame(lib, reg, k, frame, env).reg;
            if DeviceOf(reg, k.transport) == Some(device) && Refuses(lib, reg.sessions[device].session, frame)
            then device !in reg'.sessions else Kept(reg, reg', device)
  {
    if k.transport in reg.transportDevices && reg.transportDevices[k.transport] in reg.sessions {
      var d := reg.transportDevices[k.transport];
      RefusesExactly(lib, reg.sessions[d].session, frame);
      HandledFate(lib, reg, k, d, HandleFrame(lib, reg.sessions[d].session, frame), env, device);
    }
  }

  lemma EstablishFate(lib: Library, reg: Registry, k: ConnKey, result: Hs.HandshakeResult, env: Env, device: PeerId)
    requires device in reg.sessions && OnEstablished(lib, reg, k, result, env).Next?
    ensures var reg' := OnEstablished(lib, reg, k, result, env).reg;
            if result.peerId == device
            then device in reg'.sessions && reg'.sessions[device].conn == k && SameKeys(NewSession(result), reg'.sessions[device].session)
            else Kept(reg, reg', device)
  {
    var reg1 := Install(lib, reg, k, result, env.ts);
    InstallFlushes(lib, reg, k, result, env.ts);
    InstallKeepsSources(lib, reg, k, result, env.ts);
    InstallOthers(lib, reg, k, result, env.ts, device);
    if k in reg1.observedAddrs {
      var reg2 := reg1.(observedAddrs := reg1.observedAddrs - {k});
      ControlFate(lib, reg2, result.peerId, ObservedPlain(reg1.observedAddrs[k].ip, reg1.observedAddrs[k].port), env.rand, device);
    }
  }

  lemma InstallOthers(lib: Library, reg: Registry, k: ConnKey, result: Hs.HandshakeResult, ts: u64, device: PeerId)
    requires device in reg.sessions
    ensures device in Install(lib, reg, k, result, ts).sessions
    ensures device != result.peerId ==> Install(lib, reg, k, result, ts).sessions[device] == reg.sessions[device]
  {
  }

  lemma ReactionFate(lib: Library, reg: Registry, k: ConnKey, o: Hs.Outcome, env: Env, device: PeerId)
    requires device in reg.sessions && OnReaction(lib, reg, k, o, env).Next?
    ensures var reg' := OnReaction(lib, reg, k, o, env).reg;
            if o.reaction.Complete? && o.reaction.result.peerId == device
            then && device in reg'.sessions && reg'.sessions[device].conn == k
                 && SameKeys(NewSession(o.reaction.result), reg'.sessions[device].session)
            else Kept(reg, reg', device)
  {
    if o.reaction.Complete? {
      EstablishFate(lib, reg, k, o.reaction.result, env, device);
    }
  }

  /** The session of `device` ended, was replaced or went on, as the event says. */
  predicate Fate(lib: Library, reg: Registry, a: RegAction, reg': Registry, device: PeerId)
    requires ValidHandshakes(reg.handshakes) && device in reg.sessions
  {
    && (device !in reg'.sessions <==> EndsSession(lib, reg, a, device))
    && (ReplacesSession(reg, a, device) ==>
          && device in reg'.sessions && reg'.sessions[device].conn == a.k
          && SameKeys(NewSession(Hs.ResultOf(reg.handshakes[a.k])), reg'.sessions[device].session))
    && (!EndsSession(lib, reg, a, device) && !ReplacesSession(reg, a, device) ==> Kept(reg, reg', device))
  }

  lemma HandshakeFrameFate(lib: Library, reg: Registry, k: ConnKey, frame: Frame, env: Env, device: PeerId)
    requires ValidHandshakes(reg.handshakes) && device in reg.sessions && !frame.IsSessionFrame()
    requires OnHandshakeFrame(lib, reg, k, frame, env).Next?
    ensures Fate(lib, reg, DoDeliver(k, frame, env), OnHandshakeFrame(lib, reg, k, frame, env).reg, device)
  {
    if k in reg.handshakes {
      var o := Hs.OnFrame(lib, reg.identity, reg.handshakes[k], frame, env.coins);
      CompletesExactly(lib, reg.identity, reg.handshakes[k], frame, env.coins);
      ReactionFate(lib, reg, k, o, env, device);
    }
  }

  lemma FrameFate(lib: Library, reg: Registry, k: ConnKey, frame: Frame, env: Env, device: PeerId)
    requires ValidHandshakes(reg.handshakes) && device in reg.sessions && OnFrame(lib, reg, k, frame, env).Next?
    ensures Fate(lib, reg, DoDeliver(k, frame, env), OnFrame(lib, reg, k, frame, env).reg, device)
  {
    if frame.IsSessionFrame() {
      SessionFrameFate(lib, reg, k, frame, env, device);
    } else {
      HandshakeFrameFate(lib, reg, k, frame, env, device);
    }
  }

  lemma DropFate(reg: Registry, k: ConnKey, peer: PeerId, device: PeerId)
    requires device in reg.sessions
    ensures var reg' := DropSession(reg, k, peer);
            if peer == device && reg.sessions[device].conn == k then device !in reg'.sessions else Kept(reg, reg', device)
  {
  }

  /** Bookkeeping that does not concern sessions. */
  lemma UntouchedFate(lib: Library, reg: Registry, a: RegAction, reg': Registry, device: PeerId)
    requires ValidHandshakes(reg.handshakes) && device in reg.sessions
    requires reg'.sessions == reg.sessions && !a.DoDeliver? && !a.DoDown?
    ensures Fate(lib, reg, a, reg', device)
  {
  }

  lemma KeptFate(lib: Library, reg: Registry, a: RegAction, reg': Registry, device: PeerId)
    requires ValidHandshakes(reg.handshakes) && device in reg.sessions
    requires Kept(reg, reg', device) && !a.DoDeliver? && !a.DoDown?
    ensures Fate(lib, reg, a, reg', device)
  {
  }

  lemma DroppedSessions(reg: Registry, k: ConnKey, peer: PeerId)
    ensures DropSession(reg, k, peer).sessions
            == if peer in reg.sessions && reg.sessions[peer].conn == k then reg.sessions - {peer} else reg.sessions
  {
  }

  lemma ClosedSessions(reg: Registry, k: ConnKey, remaining: nat)
    ensures OnConnectionClosed(reg, k, remaining).sessions == DropSession(reg, k, DeviceOr(reg, k.transport)).sessions
  {
    var peer, forgotten := DeviceOr(reg, k.transport), ForgetConnection(reg, k);
    assert forgotten.sessions == reg.sessions;
    DroppedSessions(forgotten, k, peer);
    DroppedSessions(reg, k, peer);
    assert OnConnectionClosed(reg, k, remaining).sessions == DropSession(forgotten, k, peer).sessions;
  }

  lemma ClosedFate(lib: Library, reg: Registry, k: ConnKey, remaining: nat, device: PeerId)
    requires ValidHandshakes(reg.handshakes) && device in reg.sessions
    ensures Fate(lib, reg, DoDown(k, remaining), OnConnectionClosed(reg, k, remaining), device)
  {
    DropFate(reg, k, DeviceOr(reg, k.transport), device);
    ClosedSessions(reg, k, remaining);
  }

  lemma QuietSessions(lib: Library, reg: Registry, a: RegAction)
    requires ValidHandshakes(reg.handshakes)
    requires !a.DoSend? && !a.DoControl? && !a.DoDeliver? && !a.DoDown? && !a.DoExpire?
    ensures Apply(lib, reg, a).Next? && Apply(lib, reg, a).reg.sessions == reg.sessions
  {
  }

  /** What becomes of the session of a device at any event. A frame ends it if and only if the
      device is the one behind the frame's transport peer and the session refuses the frame;
      a closed connection ends it if and only if it lives there; a completed handshake with
      the device replaces it; and nothing else touches it. Which connection of a transport
      peer a frame came on plays no part. */
  lemma SessionFate(lib: Library, reg: Registry, a: RegAction, device: PeerId)
    requires Valid(reg) && device in reg.sessions && Apply(lib, reg, a).Next?
    ensures Fate(lib, reg, a, Apply(lib, reg, a).reg, device)
  {
    match a {
      case DoSend(peer, text, msgId, ts) =>
        SendFate(lib, reg, peer, text, msgId, ts, device);
        KeptFate(lib, reg, a, SendMessage(lib, reg, peer, text, msgId, ts), device);
      case DoControl(peer, plain, rand) =>
        ControlFate(lib, reg, peer, plain, rand, device);
        KeptFate(lib, reg, a, SendControl(lib, reg, peer, plain, rand).reg, device);
      case DoDeliver(k, frame, env) => FrameFate(lib, reg, k, frame, env, device);
      case DoDown(k, remaining) => ClosedFate(lib, reg, k, remaining, device);
      case DoExpire(expired) =>
        ExpireKeeps(reg, expired);
        UntouchedFate(lib, reg, a, ExpireHandshakes(reg, expired), device);
      case _ =>
        QuietSessions(lib, reg, a);
        UntouchedFate(lib, reg, a, Apply(lib, reg, a).reg, device);
    }
  }

  /** So a frame of an older session, arriving late on an older connection, ends the current
      session. */
  lemma OlderConnectionEndsSession(lib: Library, reg: Registry, older: ConnKey, frame: Frame, env: Env, device: PeerId)
    requires device in reg.sessions && older != reg.sessions[device].conn && DeviceOf(reg, older.transport) == Some(device)
    requires frame.sessionId != reg.sessions[device].session.sessionId
    ensures OnSessionFrame(lib, reg, older, frame, env).Next?
    ensures device !in OnSessionFrame(lib, reg, older, frame, env).reg.sessions
  {
    assert HandleFrame(lib, reg.sessions[device].session, frame).answer == Refused(WrongSession);
  }
}
