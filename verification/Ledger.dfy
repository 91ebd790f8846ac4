/** Over every run of the session behaviour, whatever frames arrive and however connections
    come and go: no text is framed twice. */
module Ledger {
  import opened ByteStrings
  import opened Framing
  import opened Library
  import Hs = Handshake
  import opened Session
  import opened R = Registry

  // ---- Counting the texts that carry one id ----

  /** The Message frames with id `id`. */
  function FramesWith(frames: seq<Frame>, id: u64): nat
    decreases |frames|
  {
    if frames == [] then 0
    else
      var last := frames[|frames| - 1];
      FramesWith(frames[..|frames| - 1], id) + if last.msgType.Message? && last.msgId == id then 1 else 0
  }

  function OutputsWith(outputs: seq<Output>, id: u64): nat
    decreases |outputs|
  {
    if outputs == [] then 0
    else
      var last := outputs[|outputs| - 1];
      OutputsWith(outputs[..|outputs| - 1], id) + if last.Notify? then FramesWith(last.frames, id) else 0
  }

  /** The places in the send buffers that hold a text with id `id`. */
  function Held(pending: map<PeerId, seq<Outgoing>>, id: u64): set<(PeerId, nat)> {
    set p, i: nat | p in pending && i < |pending[p]| && pending[p][i].msgId == id :: (p, i)
  }

  function TextsWith(texts: seq<Outgoing>, id: u64): nat
    decreases |texts|
  {
    if texts == [] then 0
    else TextsWith(texts[..|texts| - 1], id) + if texts[|texts| - 1].msgId == id then 1 else 0
  }

  /** Texts with id `id` that are framed and queued, or still buffered. */
  function Balance(reg: Registry, id: u64): nat {
    OutputsWith(reg.queue, id) + |Held(reg.pendingSends, id)|
  }

  lemma FramesWithSnoc(frames: seq<Frame>, f: Frame, id: u64)
    ensures FramesWith(frames + [f], id) == FramesWith(frames, id) + if f.msgType.Message? && f.msgId == id then 1 else 0
  {
    assert (frames + [f])[..|frames|] == frames;
  }

  lemma OneFrame(f: Frame, id: u64)
    ensures FramesWith([f], id) == if f.msgType.Message? && f.msgId == id then 1 else 0
  {
    FramesWithSnoc([], f, id);
    assert [] + [f] == [f];
  }

  lemma {:induction false} NoMessages(frames: seq<Frame>, id: u64)
    requires forall i | 0 <= i < |frames| :: !frames[i].msgType.Message?
    ensures FramesWith(frames, id) == 0
    decreases |frames|
  {
    if frames != [] {
      NoMessages(frames[..|frames| - 1], id);
    }
  }

  lemma OutputsSnoc(outputs: seq<Output>, o: Output, id: u64)
    ensures OutputsWith(outputs + [o], id) == OutputsWith(outputs, id) + if o.Notify? then FramesWith(o.frames, id) else 0
  {
    assert (outputs + [o])[..|outputs|] == outputs;
  }

  lemma {:induction false} OutputsAppend(xs: seq<Output>, ys: seq<Output>, id: u64)
    ensures OutputsWith(xs + ys, id) == OutputsWith(xs, id) + OutputsWith(ys, id)
    decreases |ys|
  {
    if ys == [] {
      assert xs + ys == xs;
    } else {
      var front, last := ys[..|ys| - 1], ys[|ys| - 1];
      OutputsAppend(xs, front, id);
      OutputsSnoc(xs + front, last, id);
      assert xs + ys == xs + front + [last];
    }
  }

  // ---- The buffers ----

  /** The places in one buffer. */
  function Places(peer: PeerId, texts: seq<Outgoing>, id: u64): set<(PeerId, nat)> {
    set i: nat | i < |texts| && texts[i].msgId == id :: (peer, i)
  }

  lemma {:induction false} PlacesCount(peer: PeerId, texts: seq<Outgoing>, id: u64)
    ensures |Places(peer, texts, id)| == TextsWith(texts, id)
    decreases |texts|
  {
    if texts == [] {
      assert Places(peer, texts, id) == {};
    } else {
      var n := |texts| - 1;
      var front := texts[..n];
      PlacesCount(peer, front, id);
      assert texts[n].msgId != id ==> Places(peer, texts, id) == Places(peer, front, id);
      assert texts[n].msgId == id ==> Places(peer, texts, id) == Places(peer, front, id) + {(peer, n)};
    }
  }

  /** One buffer and the others. */
  lemma HeldSplit(reg: Registry, peer: PeerId, id: u64)
    ensures |Held(reg.pendingSends - {peer}, id)| + TextsWith(Buffered(reg, peer), id) == |Held(reg.pendingSends, id)|
  {
    var pending := reg.pendingSends;
    if peer in pending {
      var here, rest := Places(peer, pending[peer], id), Held(pending - {peer}, id);
      PlacesCount(peer, pending[peer], id);
      assert Held(pending, id) == rest + here && rest !! here;
    } else {
      assert pending - {peer} == pending;
    }
  }

  lemma TextsSnoc(texts: seq<Outgoing>, t: Outgoing, id: u64)
    ensures TextsWith(texts + [t], id) == TextsWith(texts, id) + if t.msgId == id then 1 else 0
  {
    assert (texts + [t])[..|texts|] == texts;
  }

  lemma BufferOne(reg: Registry, peer: PeerId, t: Outgoing, id: u64)
    ensures Balance(Buffering(reg, peer, t), id) == Balance(reg, id) + if t.msgId == id then 1 else 0
  {
    var reg' := Buffering(reg, peer, t);
    HeldSplit(reg, peer, id);
    HeldSplit(reg', peer, id);
    TextsSnoc(Buffered(reg, peer), t, id);
    assert reg'.pendingSends - {peer} == reg.pendingSends - {peer};
  }

  /** A flush frames no text more often than it was buffered. */
  lemma {:induction false} FlushCounts(lib: Library, s: SessionState, texts: seq<Outgoing>, ts: u64, id: u64)
    ensures FramesWith(FlushAll(lib, s, texts, ts).frames, id) <= TextsWith(texts, id)
    decreases |texts|
  {
    if texts != [] {
      var front, last := texts[..|texts| - 1], texts[|texts| - 1];
      FlushCounts(lib, s, front, ts, id);
      var before := FlushAll(lib, s, front, ts);
      var e := EncryptMessage(lib, before.session, last.text, last.msgId, ts);
      if e.Sealed? {
        FramesWithSnoc(before.frames, e.frame, id);
      }
    }
  }

  // ---- One event ----

  lemma QueueOnly(reg: Registry, reg': Registry, o: Output, id: u64)
    requires reg'.pendingSends == reg.pendingSends && reg'.queue == reg.queue + [o]
    ensures Balance(reg', id) == Balance(reg, id) + if o.Notify? then FramesWith(o.frames, id) else 0
  {
    OutputsSnoc(reg.queue, o, id);
  }

  lemma DispatchedBalance(reg: Registry, peer: PeerId, o: SealOutcome, id: u64)
    requires peer in reg.sessions
    ensures Balance(Dispatched(reg, peer, o), id) == Balance(reg, id) + if o.Sealed? then FramesWith([o.frame], id) else 0
  {
    match o
    case Sealed(_, frame) => QueueOnly(reg, Dispatched(reg, peer, o), Notify(reg.sessions[peer].conn, [frame]), id);
    case NotSealed(e) => QueueOnly(reg, Dispatched(reg, peer, o), Generate(HandshakeFailed(peer, SessionFailure(e))), id);
    case Panics =>
  }

  lemma SealedText(lib: Library, s: SessionState, text: Bytes, msgId: u64, ts: u64)
    ensures var o := EncryptMessage(lib, s, text, msgId, ts); o.Sealed? ==> o.frame.msgType.Message? && o.frame.msgId == msgId
  {
  }

  lemma SendBalance(lib: Library, reg: Registry, peer: PeerId, text: Bytes, msgId: u64, ts: u64, id: u64)
    ensures Balance(SendMessage(lib, reg, peer, text, msgId, ts), id) <= Balance(reg, id) + if msgId == id then 1 else 0
  {
    if peer in reg.sessions {
      var o := EncryptMessage(lib, reg.sessions[peer].session, text, msgId, ts);
      DispatchedBalance(reg, peer, o, id);
      SealedText(lib, reg.sessions[peer].session, text, msgId, ts);
      if o.Sealed? {
        OneFrame(o.frame, id);
      }
    } else {
      BufferOne(reg, peer, Outgoing(msgId, text), id);
    }
  }

  lemma ControlBalance(lib: Library, reg: Registry, peer: PeerId, p: Plain, rand: u64, id: u64)
    requires !p.TextPlain?
    ensures var e := SendControl(lib, reg, peer, p, rand); e.Next? ==> Balance(e.reg, id) == Balance(reg, id)
  {
    if peer in reg.sessions {
      var o := SealPlain(lib, reg.sessions[peer].session, p, rand);
      if o.Sealed? {
        QueueOnly(reg, SendControl(lib, reg, peer, p, rand).reg, Notify(reg.sessions[peer].conn, [o.frame]), id);
        OneFrame(o.frame, id);
      }
    }
  }

  lemma FlushBalance(lib: Library, reg: Registry, device: PeerId, k: ConnKey, ts: u64, id: u64)
    requires device in reg.sessions
    ensures Balance(FlushPendingSends(lib, reg, device, k, ts), id) <= Balance(reg, id)
  {
    if device in reg.pendingSends {
      var f := FlushAll(lib, reg.sessions[device].session, reg.pendingSends[device], ts);
      FlushCounts(lib, reg.sessions[device].session, reg.pendingSends[device], ts, id);
      HeldSplit(reg, device, id);
      OutputsSnoc(reg.queue, Notify(k, f.frames), id);
    }
  }

  lemma InstallBalance(lib: Library, reg: Registry, k: ConnKey, result: Hs.HandshakeResult, ts: u64, id: u64)
    ensures Balance(Install(lib, reg, k, result, ts), id) <= Balance(reg, id)
  {
    var reg1 := MapTransport(reg.(handshakes := reg.handshakes - {k}), result.peerId, k.transport);
    var reg2 := reg1.(peerNames := reg1.peerNames[result.peerId := result.peerHello.userName],
                      sessions := reg1.sessions[result.peerId := Live(k, NewSession(result))]);
    FlushBalance(lib, reg2, result.peerId, k, ts, id);
  }

  lemma EstablishBalance(lib: Library, reg: Registry, k: ConnKey, result: Hs.HandshakeResult, env: Env, id: u64)
    ensures var e := OnEstablished(lib, reg, k, result, env); e.Next? ==> Balance(e.reg, id) <= Balance(reg, id)
  {
    var reg1 := Install(lib, reg, k, result, env.ts);
    InstallBalance(lib, reg, k, result, env.ts, id);
    var event := Generate(SessionEstablished(result.peerId, k.conn, result));
    if k in reg1.observedAddrs {
      var reg2 := reg1.(observedAddrs := reg1.observedAddrs - {k});
      var p := ObservedPlain(reg1.observedAddrs[k].ip, reg1.observedAddrs[k].port);
      ControlBalance(lib, reg2, result.peerId, p, env.rand, id);
      var e := SendControl(lib, reg2, result.peerId, p, env.rand);
      if e.Next? {
        QueueOnly(e.reg, Push(e.reg, event), event, id);
      }
    } else {
      QueueOnly(reg1, Push(reg1, event), event, id);
    }
  }

  /** A handshake never answers with a Message frame. */
  lemma HandshakeSendsNoMessage(lib: Library, identity: Identity, st: Hs.State, frame: Frame, coins: Hs.Coins)
    requires Hs.Present(st)
    ensures var r := Hs.OnFrame(lib, identity, st, frame, coins).reaction;
            r.Send? ==> forall i | 0 <= i < |r.frames| :: !r.frames[i].msgType.Message?
  {
  }

  lemma ReactionBalance(lib: Library, reg: Registry, k: ConnKey, o: Hs.Outcome, env: Env, id: u64)
    requires o.reaction.Send? ==> forall i | 0 <= i < |o.reaction.frames| :: !o.reaction.frames[i].msgType.Message?
    ensures var e := OnReaction(lib, reg, k, o, env); e.Next? ==> Balance(e.reg, id) <= Balance(reg, id)
  {
    match o.reaction
    case Send(frames) =>
      QueueOnly(reg, OnReaction(lib, reg, k, o, env).reg, Notify(k, frames), id);
      NoMessages(frames, id);
    case Complete(result) => EstablishBalance(lib, reg, k, result, env, id);
    case Failed(error) =>
      QueueOnly(reg, OnReaction(lib, reg, k, o, env).reg,
                Generate(HandshakeFailed(DeviceOr(reg, k.transport), HandshakeFailure(error))), id);
  }

  lemma OpenedBalance(lib: Library, reg: Registry, k: ConnKey, device: PeerId, i: Inbound, env: Env, id: u64)
    requires device in reg.sessions
    ensures var e := OnOpened(lib, reg, k, device, i, env); e.Next? ==> Balance(e.reg, id) == Balance(reg, id)
  {
    var event := Generate(EventFor(device, i));
    if i.InMessage? {
      var o := SealPlain(lib, reg.sessions[device].session, AckPlain(i.msgId, i.seqNo, env.ts), env.rand);
      if o.Sealed? {
        var reg1 := Push(SetSession(reg, device, o.state), Notify(k, [o.frame]));
        QueueOnly(reg, reg1, Notify(k, [o.frame]), id);
        OneFrame(o.frame, id);
        QueueOnly(reg1, Push(reg1, event), event, id);
      }
    } else {
      QueueOnly(reg, Push(reg, event), event, id);
    }
  }

  lemma SessionFrameBalance(lib: Library, reg: Registry, k: ConnKey, frame: Frame, env: Env, id: u64)
    ensures var e := OnSessionFrame(lib, reg, k, frame, env); e.Next? ==> Balance(e.reg, id) == Balance(reg, id)
  {
    if k.transport in reg.transportDevices && reg.transportDevices[k.transport] in reg.sessions {
      var device := reg.transportDevices[k.transport];
      var h := HandleFrame(lib, reg.sessions[device].session, frame);
      match h.answer
      case Opened(i) => OpenedBalance(lib, SetSession(reg, device, h.state), k, device, i, env, id);
      case Refused(e) =>
        QueueOnly(reg, OnSessionFrame(lib, reg, k, frame, env).reg, Generate(HandshakeFailed(device, SessionFailure(e))), id);
    }
  }

  lemma FrameBalance(lib: Library, reg: Registry, k: ConnKey, frame: Frame, env: Env, id: u64)
    requires ValidHandshakes(reg.handshakes)
    ensures var e := OnFrame(lib, reg, k, frame, env); e.Next? ==> Balance(e.reg, id) <= Balance(reg, id)
  {
    if frame.IsSessionFrame() {
      SessionFrameBalance(lib, reg, k, frame, env, id);
    } else if k in reg.handshakes {
      HandshakeSendsNoMessage(lib, reg.identity, reg.handshakes[k], frame, env.coins);
      ReactionBalance(lib, reg, k, Hs.OnFrame(lib, reg.identity, reg.handshakes[k], frame, env.coins), env, id);
    }
  }

  lemma {:induction false} ExpireBalance(reg: Registry, expired: seq<ConnKey>, id: u64)
    ensures Balance(ExpireHandshakes(reg, expired), id) == Balance(reg, id)
    decreases |expired|
  {
    if expired != [] {
      var front, k := expired[..|expired| - 1], expired[|expired| - 1];
      var reg1 := ExpireHandshakes(reg, front);
      ExpireBalance(reg, front, id);
      QueueOnly(reg1, ExpireHandshakes(reg, expired), Generate(HandshakeFailed(DeviceOr(reg1, k.transport), TimedOut)), id);
    }
  }

  lemma ReadyBalance(lib: Library, reg: Registry, k: ConnKey, now: nat, id: u64)
    ensures Balance(OnSubstreamReady(lib, reg, k, now), id) == Balance(reg, id)
  {
    if k !in reg.handshakes {
      var hello := HandshakeFrame(Hello, Hs.Initial(lib, reg.identity, DeviceOf(reg, k.transport)).myHelloPayload);
      QueueOnly(reg, OnSubstreamReady(lib, reg, k, now), Notify(k, [hello]), id);
      OneFrame(hello, id);
    }
  }

  lemma UpBalance(reg: Registry, k: ConnKey, seenFrom: Option<Source>, id: u64)
    ensures Balance(OnConnectionEstablished(reg, k, seenFrom), id) == Balance(reg, id)
  {
    QueueOnly(reg, OnConnectionEstablished(reg, k, seenFrom), Generate(PeerConnected(DeviceOr(reg, k.transport))), id);
  }

  lemma DownBalance(reg: Registry, k: ConnKey, remaining: nat, id: u64)
    ensures Balance(OnConnectionClosed(reg, k, remaining), id) == Balance(reg, id)
  {
    var peer := DeviceOr(reg, k.transport);
    var reg1 := DropSession(ForgetConnection(reg, k), k, peer);
    if remaining == 0 {
      QueueOnly(reg1, Push(reg1, Generate(PeerDisconnected(peer))), Generate(PeerDisconnected(peer)), id);
    }
  }

  lemma ConnectBalance(reg: Registry, device: PeerId, transport: PeerId, addrs: seq<Multiaddr>, id: u64)
    ensures Balance(Connect(reg, device, transport, addrs), id) == Balance(reg, id)
    ensures Balance(MapTransport(reg, device, transport), id) == Balance(reg, id)
  {
    if addrs != [] {
      QueueOnly(reg, Connect(reg, device, transport, addrs), Dial(transport, addrs), id);
    }
  }

  /** The texts with id `id` that an event asks to send. */
  function AsksFor(a: RegAction, id: u64): nat { if a.DoSend? && a.msgId == id then 1 else 0 }

  /** Control frames carry no text. */
  predicate Ordinary(a: RegAction) { a.DoControl? ==> !a.plain.TextPlain? }

  lemma EventBalance(lib: Library, reg: Registry, a: RegAction, id: u64)
    requires ValidHandshakes(reg.handshakes) && Ordinary(a) && !a.DoPoll? && Apply(lib, reg, a).Next?
    ensures Balance(Apply(lib, reg, a).reg, id) <= Balance(reg, id) + AsksFor(a, id)
  {
    match a {
      case DoSend(peer, text, msgId, ts) => SendBalance(lib, reg, peer, text, msgId, ts, id);
      case DoControl(peer, plain, rand) => ControlBalance(lib, reg, peer, plain, rand, id);
      case DoDeliver(k, frame, env) => FrameBalance(lib, reg, k, frame, env, id);
      case _ => QuietBalance(lib, reg, a, id);
    }
  }

  lemma QuietBalance(lib: Library, reg: Registry, a: RegAction, id: u64)
    requires ValidHandshakes(reg.handshakes) && !a.DoSend? && !a.DoControl? && !a.DoDeliver? && !a.DoPoll?
    ensures Apply(lib, reg, a).Next? && Balance(Apply(lib, reg, a).reg, id) == Balance(reg, id)
  {
    match a {
      case DoConnect(device, transport, addrs) => ConnectBalance(reg, device, transport, addrs, id);
      case DoMap(device, transport) => ConnectBalance(reg, device, transport, [], id);
      case DoReady(k, now) => ReadyBalance(lib, reg, k, now, id);
      case DoStreamClosed(_) =>
      case DoUp(k, seenFrom) => UpBalance(reg, k, seenFrom, id);
      case DoDown(k, remaining) => DownBalance(reg, k, remaining, id);
      case DoExpire(expired) => ExpireBalance(reg, expired, id);
    }
  }

  // ---- Whole runs ----

  /** The outputs handed out by the polls of a run, in order. */
  function Handed(lib: Library, reg: Registry, actions: seq<RegAction>): seq<Output>
    requires Valid(reg)
    decreases |actions|
  {
    if actions == [] then []
    else
      var front, last := actions[..|actions| - 1], actions[|actions| - 1];
      var before := RunRegistry(lib, reg, front);
      Handed(lib, reg, front) + if before.Next? then HandedBy(before.reg, last) else []
  }

  function SendsOf(actions: seq<RegAction>, id: u64): nat
    decreases |actions|
  {
    if actions == [] then 0 else SendsOf(actions[..|actions| - 1], id) + AsksFor(actions[|actions| - 1], id)
  }

  lemma PollMoves(handed: seq<Output>, queue: seq<Output>, id: u64)
    requires queue != []
    ensures OutputsWith(handed + [queue[0]], id) + OutputsWith(queue[1..], id) == OutputsWith(handed, id) + OutputsWith(queue, id)
  {
    OutputsSnoc(handed, queue[0], id);
    OutputsAppend([queue[0]], queue[1..], id);
    OutputsSnoc([], queue[0], id);
    assert [] + [queue[0]] == [queue[0]] && [queue[0]] + queue[1..] == queue;
  }

  /** What one event hands out. */
  function HandedBy(reg: Registry, a: RegAction): seq<Output> {
    if a.DoPoll? && reg.queue != [] then [reg.queue[0]] else []
  }

  lemma StepCounts(lib: Library, reg: Registry, handed: seq<Output>, a: RegAction, id: u64)
    requires ValidHandshakes(reg.handshakes) && Ordinary(a) && Apply(lib, reg, a).Next?
    ensures OutputsWith(handed + HandedBy(reg, a), id) + Balance(Apply(lib, reg, a).reg, id)
            <= OutputsWith(handed, id) + Balance(reg, id) + AsksFor(a, id)
  {
    if a.DoPoll? && reg.queue != [] {
      PollMoves(handed, reg.queue, id);
    } else {
      assert handed + HandedBy(reg, a) == handed;
      if !a.DoPoll? {
        EventBalance(lib, reg, a, id);
      }
    }
  }

  /** In every run, counting for any id: the Message frames handed out, plus those still
      queued, plus the texts still buffered, are at most the texts the user asked to send. */
  lemma {:induction false} NoTextFramedTwice(lib: Library, identity: Identity, actions: seq<RegAction>, id: u64)
    requires forall i | 0 <= i < |actions| :: Ordinary(actions[i])
    ensures Valid(NewRegistry(identity))
    ensures var e := RunRegistry(lib, NewRegistry(identity), actions);
            e.Next? ==> OutputsWith(Handed(lib, NewRegistry(identity), actions), id) + Balance(e.reg, id) <= SendsOf(actions, id)
    decreases |actions|
  {
    var start := NewRegistry(identity);
    if actions == [] {
      assert Held(map[], id) == {};
    } else {
      var front, last := actions[..|actions| - 1], actions[|actions| - 1];
      NoTextFramedTwice(lib, identity, front, id);
      var before := RunRegistry(lib, start, front);
      if before.Next? && Apply(lib, before.reg, last).Next? {
        StepCounts(lib, before.reg, Handed(lib, start, front), last, id);
      }
    }
  }
}
