/** The session behaviour (src/transport.rs): which handshakes, sessions and buffered sends a
    node has, and what each event does to them. */
module Registry {
  import opened ByteStrings
  import opened Framing
  import opened Library
  import Hs = Handshake
  import opened Session

  type ConnId = nat
  datatype ConnKey = ConnKey(transport: PeerId, conn: ConnId)
  datatype Outgoing = Outgoing(msgId: u64, text: Bytes)
  datatype Live = Live(conn: ConnKey, session: SessionState)
  datatype Source = Source(ip: IpAddr, port: u16)

  datatype Failure = HandshakeFailure(error: Hs.HandshakeError) | SessionFailure(cause: SessionError) | TimedOut

  datatype BehaviourEvent =
    | SessionEstablished(peer: PeerId, conn: ConnId, result: Hs.HandshakeResult)
    | HandshakeFailed(peer: PeerId, failure: Failure)
    | MessageReceived(peer: PeerId, msgId: u64, body: Bytes, ts: u64)
    | AckReceived(peer: PeerId, msgId: u64, ackSeq: u32)
    | ObservedAddrReported(peer: PeerId, ip: IpAddr, port: u16)
    | DialBackRequested(peer: PeerId, addr: Multiaddr)
    | DialBackResolved(peer: PeerId, addr: Multiaddr, reachable: bool)
    | PeerConnected(peer: PeerId)
    | PeerDisconnected(peer: PeerId)

  datatype Output = Notify(conn: ConnKey, frames: seq<Frame>) | Dial(transport: PeerId, addrs: seq<Multiaddr>) | Generate(event: BehaviourEvent)

  /** The random choices and the clock reading of one call. */
  datatype Env = Env(coins: Hs.Coins, ts: u64, rand: u64)

  /** `startedAt` is when the handshake of a connection was created, in milliseconds; an entry
      without a handshake is a leftover that nothing reads. */
  datatype Registry = Registry(
    identity: Identity,
    handshakes: map<ConnKey, Hs.State>,
    sessions: map<PeerId, Live>,
    peerNames: map<PeerId, Bytes>,
    pendingSends: map<PeerId, seq<Outgoing>>,
    connected: set<PeerId>,
    transportDevices: map<PeerId, PeerId>,
    deviceTransports: map<PeerId, PeerId>,
    observedAddrs: map<ConnKey, Source>,
    startedAt: map<ConnKey, nat>,
    queue: seq<Output>)

  /** `Crash` stands for a panic on an exhausted sequence counter. */
  datatype Effect = Next(reg: Registry) | Crash

  function NewRegistry(identity: Identity): Registry {
    Registry(identity, map[], map[], map[], map[], {}, map[], map[], map[], map[], [])
  }

  predicate ValidHandshakes(handshakes: map<ConnKey, Hs.State>) {
    forall k | k in handshakes :: Hs.Present(handshakes[k])
  }

  /** No handshake can fail an unwrap, each has its start time, and no device has both a
      session and buffered sends. */
  predicate Valid(reg: Registry) {
    && ValidHandshakes(reg.handshakes) && reg.handshakes.Keys <= reg.startedAt.Keys
    && forall d | d in reg.sessions :: d !in reg.pendingSends
  }

  function Push(reg: Registry, o: Output): Registry {
    reg.(queue := reg.queue + [o])
  }

  function DeviceOf(reg: Registry, transport: PeerId): Option<PeerId> {
    if transport in reg.transportDevices then Some(reg.transportDevices[transport]) else None
  }

  function DeviceOr(reg: Registry, transport: PeerId): PeerId {
    if transport in reg.transportDevices then reg.transportDevices[transport] else transport
  }

  function Buffered(reg: Registry, peer: PeerId): seq<Outgoing> {
    if peer in reg.pendingSends then reg.pendingSends[peer] else []
  }

  function SetSession(reg: Registry, peer: PeerId, s: SessionState): Registry
    requires peer in reg.sessions
  {
    reg.(sessions := reg.sessions[peer := reg.sessions[peer].(session := s)])
  }

  // ---- Sending ----

  /** A sealed text goes out on the connection of the session; a refusal is reported. */
  function Dispatched(reg: Registry, peer: PeerId, o: SealOutcome): Registry
    requires peer in reg.sessions
  {
    match o
    case Sealed(s, frame) => Push(SetSession(reg, peer, s), Notify(reg.sessions[peer].conn, [frame]))
    case NotSealed(e) => Push(reg, Generate(HandshakeFailed(peer, SessionFailure(e))))
    case Panics => reg
  }

  function Buffering(reg: Registry, peer: PeerId, t: Outgoing): Registry {
    reg.(pendingSends := reg.pendingSends[peer := Buffered(reg, peer) + [t]])
  }

  function SendMessage(lib: Library, reg: Registry, peer: PeerId, text: Bytes, msgId: u64, ts: u64): Registry {
    if peer in reg.sessions then Dispatched(reg, peer, EncryptMessage(lib, reg.sessions[peer].session, text, msgId, ts))
    else Buffering(reg, peer, Outgoing(msgId, text))
  }

  /** A sealed control frame goes out on the connection of the session. */
  function Controlled(reg: Registry, peer: PeerId, o: SealOutcome): Effect
    requires peer in reg.sessions
  {
    match o
    case Sealed(s, frame) => Next(Push(SetSession(reg, peer, s), Notify(reg.sessions[peer].conn, [frame])))
    case NotSealed(_) => Next(reg)
    case Panics => Crash
  }

  /** Observed-address reports, dial-back requests and dial-back results. */
  function SendControl(lib: Library, reg: Registry, peer: PeerId, p: Plain, rand: u64): Effect {
    if peer !in reg.sessions then Next(reg) else Controlled(reg, peer, SealPlain(lib, reg.sessions[peer].session, p, rand))
  }

  function MapTransport(reg: Registry, device: PeerId, transport: PeerId): Registry {
    reg.(transportDevices := reg.transportDevices[transport := device],
         deviceTransports := reg.deviceTransports[device := transport])
  }

  function Connect(reg: Registry, device: PeerId, transport: PeerId, addrs: seq<Multiaddr>): Registry {
    if addrs == [] then reg else Push(MapTransport(reg, device, transport), Dial(transport, addrs))
  }

  // ---- Handler events ----

  /** A new handshake on `k`, which opens with its Hello. */
  function Starting(reg: Registry, k: ConnKey, st: Hs.State, now: nat): Registry {
    Push(reg.(handshakes := reg.handshakes[k := st], startedAt := reg.startedAt[k := now]),
         Notify(k, [HandshakeFrame(Hello, st.myHelloPayload)]))
  }

  function OnSubstreamReady(lib: Library, reg: Registry, k: ConnKey, now: nat): Registry {
    if k in reg.handshakes then reg else Starting(reg, k, Hs.Initial(lib, reg.identity, DeviceOf(reg, k.transport)), now)
  }

  function OnStreamClosed(reg: Registry, k: ConnKey): Registry {
    reg.(handshakes := reg.handshakes - {k})
  }

  datatype Flushed = Flushed(session: SessionState, frames: seq<Frame>)

  /** What framing one more text adds to a flush. */
  function Onto(f: Flushed, o: SealOutcome): Flushed {
    match o
    case Sealed(s, frame) => Flushed(s, f.frames + [frame])
    case _ => f
  }

  /** Frames the buffered texts in order; a text that cannot be framed is skipped. */
  function FlushAll(lib: Library, s: SessionState, texts: seq<Outgoing>, ts: u64): Flushed
    decreases |texts|
  {
    if texts == [] then Flushed(s, [])
    else
      var before := FlushAll(lib, s, texts[..|texts| - 1], ts);
      var last := texts[|texts| - 1];
      Onto(before, EncryptMessage(lib, before.session, last.text, last.msgId, ts))
  }

  function FlushPendingSends(lib: Library, reg: Registry, device: PeerId, k: ConnKey, ts: u64): Registry
    requires device in reg.sessions
  {
    if device !in reg.pendingSends then reg
    else
      var f := FlushAll(lib, reg.sessions[device].session, reg.pendingSends[device], ts);
      Push(SetSession(reg.(pendingSends := reg.pendingSends - {device}), device, f.session), Notify(k, f.frames))
  }

  /** The bookkeeping of a completed handshake, up to and including the flush. */
  function Install(lib: Library, reg: Registry, k: ConnKey, result: Hs.HandshakeResult, ts: u64): (r: Registry)
    ensures result.peerId in r.sessions
  {
    var device := result.peerId;
    var reg1 := MapTransport(reg.(handshakes := reg.handshakes - {k}), device, k.transport);
    var reg2 := reg1.(peerNames := reg1.peerNames[device := result.peerHello.userName],
                      sessions := reg1.sessions[device := Live(k, NewSession(result))]);
    FlushPendingSends(lib, reg2, device, k, ts)
  }

  function OnEstablished(lib: Library, reg: Registry, k: ConnKey, result: Hs.HandshakeResult, env: Env): Effect {
    var device := result.peerId;
    var reg1 := Install(lib, reg, k, result, env.ts);
    var reg2 := if k in reg1.observedAddrs
                then SendControl(lib, reg1.(observedAddrs := reg1.observedAddrs - {k}), device,
                                 ObservedPlain(reg1.observedAddrs[k].ip, reg1.observedAddrs[k].port), env.rand)
                else Next(reg1);
    match reg2
    case Next(r) => Next(Push(r, Generate(SessionEstablished(device, k.conn, result))))
    case Crash => Crash
  }

  function Replying(reg: Registry, k: ConnKey, st: Hs.State, frames: seq<Frame>): Registry {
    Push(reg.(handshakes := reg.handshakes[k := st]), Notify(k, frames))
  }

  function Failing(reg: Registry, k: ConnKey, error: Hs.HandshakeError): Registry {
    Push(reg.(handshakes := reg.handshakes - {k}), Generate(HandshakeFailed(DeviceOr(reg, k.transport), HandshakeFailure(error))))
  }

  /** What the behaviour does with the answer of a handshake. */
  function OnReaction(lib: Library, reg: Registry, k: ConnKey, o: Hs.Outcome, env: Env): Effect {
    match o.reaction
    case Send(frames) => Next(Replying(reg, k, o.state, frames))
    case Complete(result) => OnEstablished(lib, reg, k, result, env)
    case Failed(e) => Next(Failing(reg, k, e))
  }

  function OnHandshakeFrame(lib: Library, reg: Registry, k: ConnKey, frame: Frame, env: Env): Effect
    requires ValidHandshakes(reg.handshakes)
  {
    if k !in reg.handshakes then Next(reg)
    else
      OnReaction(lib, reg, k, Hs.OnFrame(lib, reg.identity, reg.handshakes[k], frame, env.coins), env)
  }

  /** The event the node sees for an inbound item. */
  function EventFor(device: PeerId, i: Inbound): BehaviourEvent {
    match i
    case InMessage(_, msgId, ts, body) => MessageReceived(device, msgId, body, ts)
    case InAck(msgId, ackSeq) => AckReceived(device, msgId, ackSeq)
    case InObserved(_, ip, port) => ObservedAddrReported(device, ip, port)
    case InDialReq(_, addr) => DialBackRequested(device, addr)
    case InDialRes(_, addr, reachable) => DialBackResolved(device, addr, reachable)
  }

  /** The acknowledgement goes out before the message is reported. */
  function Acknowledged(reg: Registry, k: ConnKey, device: PeerId, event: BehaviourEvent, o: SealOutcome): Effect
    requires device in reg.sessions
  {
    match o
    case Sealed(s, ack) => Next(Push(Push(SetSession(reg, device, s), Notify(k, [ack])), Generate(event)))
    case _ => Crash
  }

  function OnOpened(lib: Library, reg: Registry, k: ConnKey, device: PeerId, i: Inbound, env: Env): Effect
    requires device in reg.sessions
  {
    if i.InMessage? then
      Acknowledged(reg, k, device, EventFor(device, i),
                   SealPlain(lib, reg.sessions[device].session, AckPlain(i.msgId, i.seqNo, env.ts), env.rand))
    else Next(Push(reg, Generate(EventFor(device, i))))
  }

  /** What the behaviour does with the answer of a session: the first refusal removes it. */
  function OnHandled(lib: Library, reg: Registry, k: ConnKey, device: PeerId, h: HandleOutcome, env: Env): Effect
    requires device in reg.sessions
  {
    match h.answer
    case Opened(i) => OnOpened(lib, SetSession(reg, device, h.state), k, device, i, env)
    case Refused(e) =>
      Next(Push(reg.(sessions := reg.sessions - {device}), Generate(HandshakeFailed(device, SessionFailure(e)))))
  }

  function OnSessionFrame(lib: Library, reg: Registry, k: ConnKey, frame: Frame, env: Env): Effect {
    if k.transport !in reg.transportDevices then Next(reg)
    else
      var device := reg.transportDevices[k.transport];
      if device !in reg.sessions then Next(reg)
      else
        OnHandled(lib, reg, k, device, HandleFrame(lib, reg.sessions[device].session, frame), env)
  }

  function OnFrame(lib: Library, reg: Registry, k: ConnKey, frame: Frame, env: Env): Effect
    requires ValidHandshakes(reg.handshakes)
  {
    if frame.IsSessionFrame() then OnSessionFrame(lib, reg, k, frame, env)
    else OnHandshakeFrame(lib, reg, k, frame, env)
  }

  // ---- Connections ----

  function OnConnectionEstablished(reg: Registry, k: ConnKey, seenFrom: Option<Source>): Registry {
    var reg1 := reg.(connected := reg.connected + {k.transport},
                     observedAddrs := if seenFrom.Some? then reg.observedAddrs[k := seenFrom.value] else reg.observedAddrs);
    Push(reg1, Generate(PeerConnected(DeviceOr(reg, k.transport))))
  }

  /** Removes the session of `peer` if it lives on connection `k`. */
  function DropSession(reg: Registry, k: ConnKey, peer: PeerId): Registry {
    if peer in reg.sessions && reg.sessions[peer].conn == k
    then reg.(sessions := reg.sessions - {peer},
              peerNames := if k.transport in reg.transportDevices then reg.peerNames - {peer} else reg.peerNames)
    else reg
  }

  function ForgetConnection(reg: Registry, k: ConnKey): Registry {
    reg.(observedAddrs := reg.observedAddrs - {k}, connected := reg.connected - {k.transport},
         handshakes := reg.handshakes - {k})
  }

  function OnConnectionClosed(reg: Registry, k: ConnKey, remaining: nat): Registry {
    var peer := DeviceOr(reg, k.transport);
    var reg1 := DropSession(ForgetConnection(reg, k), k, peer);
    if remaining == 0 then Push(reg1, Generate(PeerDisconnected(peer))) else reg1
  }

  const HANDSHAKE_TIMEOUT: nat := 30_000

  predicate TimedOutAt(reg: Registry, k: ConnKey, now: nat) {
    k in reg.handshakes && k in reg.startedAt && now > reg.startedAt[k] + HANDSHAKE_TIMEOUT
  }

  /** `expired` lists the handshakes that have timed out, each once, in the order the hash map
      yields them. */
  ghost predicate ListsTimedOut(reg: Registry, now: nat, expired: seq<ConnKey>) {
    && (forall i, j | 0 <= i < j < |expired| :: expired[i] != expired[j])
    && (forall k :: k in expired <==> TimedOutAt(reg, k, now))
  }

  /** Drops the timed-out handshakes, in the order they are visited. */
  function ExpireHandshakes(reg: Registry, expired: seq<ConnKey>): Registry
    decreases |expired|
  {
    if expired == [] then reg
    else
      var reg1 := ExpireHandshakes(reg, expired[..|expired| - 1]);
      var k := expired[|expired| - 1];
      Push(reg1.(handshakes := reg1.handshakes - {k}), Generate(HandshakeFailed(DeviceOr(reg1, k.transport), TimedOut)))
  }

  // ---- Any event, any run ----

  datatype RegAction =
    | DoSend(peer: PeerId, text: Bytes, msgId: u64, ts: u64)
    | DoControl(peer: PeerId, plain: Plain, rand: u64)
    | DoConnect(device: PeerId, transport: PeerId, addrs: seq<Multiaddr>)
    | DoMap(device: PeerId, transport: PeerId)
    | DoReady(k: ConnKey, now: nat)
    | DoDeliver(k: ConnKey, frame: Frame, env: Env)
    | DoStreamClosed(k: ConnKey)
    | DoUp(k: ConnKey, seenFrom: Option<Source>)
    | DoDown(k: ConnKey, remaining: nat)
    | DoExpire(expired: seq<ConnKey>)
    | DoPoll

  function Apply(lib: Library, reg: Registry, a: RegAction): Effect
    requires ValidHandshakes(reg.handshakes)
  {
    match a
    case DoSend(peer, text, msgId, ts) => Next(SendMessage(lib, reg, peer, text, msgId, ts))
    case DoControl(peer, plain, rand) => SendControl(lib, reg, peer, plain, rand)
    case DoConnect(device, transport, addrs) => Next(Connect(reg, device, transport, addrs))
    case DoMap(device, transport) => Next(MapTransport(reg, device, transport))
    case DoReady(k, now) => Next(OnSubstreamReady(lib, reg, k, now))
    case DoDeliver(k, frame, env) => OnFrame(lib, reg, k, frame, env)
    case DoStreamClosed(k) => Next(OnStreamClosed(reg, k))
    case DoUp(k, seenFrom) => Next(OnConnectionEstablished(reg, k, seenFrom))
    case DoDown(k, remaining) => Next(OnConnectionClosed(reg, k, remaining))
    case DoExpire(expired) => Next(ExpireHandshakes(reg, expired))
    case DoPoll => Next(reg.(queue := if reg.queue == [] then [] else reg.queue[1..]))
  }

  lemma {:induction false} ExpireKeeps(reg: Registry, expired: seq<ConnKey>)
    requires Valid(reg)
    ensures Valid(ExpireHandshakes(reg, expired))
    ensures ExpireHandshakes(reg, expired).sessions == reg.sessions
    ensures ExpireHandshakes(reg, expired).pendingSends == reg.pendingSends
    decreases |expired|
  {
    if expired != [] {
      ExpireKeeps(reg, expired[..|expired| - 1]);
    }
  }

  /** The handshakes left are exactly the others, untouched; each one dropped is reported. */
  lemma {:induction false} ExpireDrops(reg: Registry, expired: seq<ConnKey>)
    ensures var r := ExpireHandshakes(reg, expired);
            && r == reg.(handshakes := r.handshakes, queue := r.queue)
            && r.handshakes == (map k | k in reg.handshakes && k !in expired :: reg.handshakes[k])
            && r.queue == reg.queue + seq(|expired|, i requires 0 <= i < |expired| =>
                                            Generate(HandshakeFailed(DeviceOr(reg, expired[i].transport), TimedOut)))
    decreases |expired|
  {
    if expired != [] {
      var front, k := expired[..|expired| - 1], expired[|expired| - 1];
      ExpireDrops(reg, front);
      assert expired == front + [k];
    }
  }

  lemma DispatchedKeeps(reg: Registry, peer: PeerId, o: SealOutcome)
    requires Valid(reg) && peer in reg.sessions
    ensures Valid(Dispatched(reg, peer, o))
  {
  }

  lemma BufferingKeeps(reg: Registry, peer: PeerId, t: Outgoing)
    requires Valid(reg) && peer !in reg.sessions
    ensures Valid(Buffering(reg, peer, t))
  {
  }

  lemma ControlledKeeps(reg: Registry, peer: PeerId, o: SealOutcome)
    requires Valid(reg) && peer in reg.sessions
    ensures Controlled(reg, peer, o).Next? ==> Valid(Controlled(reg, peer, o).reg)
  {
  }

  lemma AcknowledgedKeeps(reg: Registry, k: ConnKey, device: PeerId, event: BehaviourEvent, o: SealOutcome)
    requires Valid(reg) && device in reg.sessions
    ensures var e := Acknowledged(reg, k, device, event, o); e.Next? ==> Valid(e.reg)
  {
  }

  lemma SendKeeps(lib: Library, reg: Registry, peer: PeerId, text: Bytes, msgId: u64, ts: u64)
    requires Valid(reg)
    ensures Valid(SendMessage(lib, reg, peer, text, msgId, ts))
  {
    if peer in reg.sessions {
      DispatchedKeeps(reg, peer, EncryptMessage(lib, reg.sessions[peer].session, text, msgId, ts));
    } else {
      BufferingKeeps(reg, peer, Outgoing(msgId, text));
    }
  }

  lemma ControlKeeps(lib: Library, reg: Registry, peer: PeerId, p: Plain, rand: u64)
    requires Valid(reg)
    ensures var e := SendControl(lib, reg, peer, p, rand); e.Next? ==> Valid(e.reg)
  {
    if peer in reg.sessions {
      ControlledKeeps(reg, peer, SealPlain(lib, reg.sessions[peer].session, p, rand));
    }
  }

  lemma OpenedKeeps(lib: Library, reg: Registry, k: ConnKey, device: PeerId, i: Inbound, env: Env)
    requires Valid(reg) && device in reg.sessions
    ensures OnOpened(lib, reg, k, device, i, env).Next? ==> Valid(OnOpened(lib, reg, k, device, i, env).reg)
  {
    if i.InMessage? {
      AcknowledgedKeeps(reg, k, device, EventFor(device, i),
                        SealPlain(lib, reg.sessions[device].session, AckPlain(i.msgId, i.seqNo, env.ts), env.rand));
    }
  }

  lemma SessionFrameKeeps(lib: Library, reg: Registry, k: ConnKey, frame: Frame, env: Env)
    requires Valid(reg)
    ensures OnSessionFrame(lib, reg, k, frame, env).Next? ==> Valid(OnSessionFrame(lib, reg, k, frame, env).reg)
  {
    if k.transport in reg.transportDevices && reg.transportDevices[k.transport] in reg.sessions {
      var device := reg.transportDevices[k.transport];
      var h := HandleFrame(lib, reg.sessions[device].session, frame);
      if h.answer.Opened? {
        OpenedKeeps(lib, SetSession(reg, device, h.state), k, device, h.answer.event, env);
      }
    }
  }

  lemma InstallKeeps(lib: Library, reg: Registry, k: ConnKey, result: Hs.HandshakeResult, ts: u64)
    requires Valid(reg)
    ensures Valid(Install(lib, reg, k, result, ts))
  {
    if result.peerId in reg.pendingSends {
    } else {
    }
  }

  lemma EstablishedKeeps(lib: Library, reg: Registry, k: ConnKey, result: Hs.HandshakeResult, env: Env)
    requires Valid(reg)
    ensures OnEstablished(lib, reg, k, result, env).Next? ==> Valid(OnEstablished(lib, reg, k, result, env).reg)
  {
    var reg1 := Install(lib, reg, k, result, env.ts);
    InstallKeeps(lib, reg, k, result, env.ts);
    if k in reg1.observedAddrs {
      ControlKeeps(lib, reg1.(observedAddrs := reg1.observedAddrs - {k}), result.peerId,
                   ObservedPlain(reg1.observedAddrs[k].ip, reg1.observedAddrs[k].port), env.rand);
    }
  }

  lemma HandshakeFrameKeeps(lib: Library, reg: Registry, k: ConnKey, frame: Frame, env: Env)
    requires Valid(reg)
    ensures OnHandshakeFrame(lib, reg, k, frame, env).Next? ==> Valid(OnHandshakeFrame(lib, reg, k, frame, env).reg)
  {
    if k in reg.handshakes {
      var o := Hs.OnFrame(lib, reg.identity, reg.handshakes[k], frame, env.coins);
      ReactionKeeps(lib, reg, k, o, env);
    }
  }

  lemma ReplyingKeeps(reg: Registry, k: ConnKey, st: Hs.State, frames: seq<Frame>)
    requires Valid(reg) && Hs.Present(st) && k in reg.handshakes
    ensures Valid(Replying(reg, k, st, frames))
  {
  }

  lemma FailingKeeps(reg: Registry, k: ConnKey, error: Hs.HandshakeError)
    requires Valid(reg)
    ensures Valid(Failing(reg, k, error))
  {
  }

  lemma ReactionKeeps(lib: Library, reg: Registry, k: ConnKey, o: Hs.Outcome, env: Env)
    requires Valid(reg) && Hs.Present(o.state) && k in reg.handshakes
    ensures OnReaction(lib, reg, k, o, env).Next? ==> Valid(OnReaction(lib, reg, k, o, env).reg)
  {
    match o.reaction
    case Send(frames) => ReplyingKeeps(reg, k, o.state, frames);
    case Complete(result) => EstablishedKeeps(lib, reg, k, result, env);
    case Failed(e) => FailingKeeps(reg, k, e);
  }

  lemma ForgetKeeps(reg: Registry, k: ConnKey)
    requires Valid(reg)
    ensures Valid(ForgetConnection(reg, k))
  {
  }

  lemma DropKeeps(reg: Registry, k: ConnKey, peer: PeerId)
    requires Valid(reg)
    ensures Valid(DropSession(reg, k, peer))
  {
  }

  lemma ClosedKeeps(reg: Registry, k: ConnKey, remaining: nat)
    requires Valid(reg)
    ensures Valid(OnConnectionClosed(reg, k, remaining))
  {
    ForgetKeeps(reg, k);
    DropKeeps(ForgetConnection(reg, k), k, DeviceOr(reg, k.transport));
  }

  lemma FrameKeeps(lib: Library, reg: Registry, k: ConnKey, frame: Frame, env: Env)
    requires Valid(reg)
    ensures OnFrame(lib, reg, k, frame, env).Next? ==> Valid(OnFrame(lib, reg, k, frame, env).reg)
  {
    if frame.IsSessionFrame() {
      SessionFrameKeeps(lib, reg, k, frame, env);
    } else {
      HandshakeFrameKeeps(lib, reg, k, frame, env);
    }
  }

  lemma StartingKeeps(reg: Registry, k: ConnKey, st: Hs.State, now: nat)
    requires Valid(reg) && Hs.Present(st)
    ensures Valid(Starting(reg, k, st, now))
  {
  }

  lemma ReadyKeeps(lib: Library, reg: Registry, k: ConnKey, now: nat)
    requires Valid(reg)
    ensures Valid(OnSubstreamReady(lib, reg, k, now))
  {
    if k !in reg.handshakes {
      StartingKeeps(reg, k, Hs.Initial(lib, reg.identity, DeviceOf(reg, k.transport)), now);
    }
  }

  lemma StreamClosedKeeps(reg: Registry, k: ConnKey)
    requires Valid(reg)
    ensures Valid(OnStreamClosed(reg, k))
  {
  }

  lemma ConnectingKeeps(reg: Registry, device: PeerId, transport: PeerId, addrs: seq<Multiaddr>)
    requires Valid(reg)
    ensures Valid(Connect(reg, device, transport, addrs)) && Valid(MapTransport(reg, device, transport))
  {
  }

  lemma UpKeeps(reg: Registry, k: ConnKey, seenFrom: Option<Source>)
    requires Valid(reg)
    ensures Valid(OnConnectionEstablished(reg, k, seenFrom))
  {
  }

  /** The events that involve no session. */
  lemma QuietKeeps(lib: Library, reg: Registry, a: RegAction)
    requires Valid(reg) && !a.DoSend? && !a.DoControl? && !a.DoDeliver?
    ensures Apply(lib, reg, a).Next? && Valid(Apply(lib, reg, a).reg)
  {
    match a {
      case DoReady(k, now) => ReadyKeeps(lib, reg, k, now);
      case DoStreamClosed(k) => StreamClosedKeeps(reg, k);
      case DoConnect(device, transport, addrs) => ConnectingKeeps(reg, device, transport, addrs);
      case DoMap(device, transport) => ConnectingKeeps(reg, device, transport, []);
      case DoExpire(expired) => ExpireKeeps(reg, expired);
      case DoUp(k, seenFrom) => UpKeeps(reg, k, seenFrom);
      case DoDown(k, remaining) => ClosedKeeps(reg, k, remaining);
      case DoPoll =>
    }
  }

  lemma ApplyKeepsValid(lib: Library, reg: Registry, a: RegAction)
    requires Valid(reg)
    ensures Apply(lib, reg, a).Next? ==> Valid(Apply(lib, reg, a).reg)
  {
    match a {
      case DoSend(peer, text, msgId, ts) => SendKeeps(lib, reg, peer, text, msgId, ts);
      case DoControl(peer, plain, rand) => ControlKeeps(lib, reg, peer, plain, rand);
      case DoDeliver(k, frame, env) => FrameKeeps(lib, reg, k, frame, env);
      case _ => QuietKeeps(lib, reg, a);
    }
  }

  function RunRegistry(lib: Library, reg: Registry, actions: seq<RegAction>): (e: Effect)
    requires Valid(reg)
    ensures e.Next? ==> Valid(e.reg)
    decreases |actions|
  {
    if actions == [] then Next(reg)
    else
      var before := RunRegistry(lib, reg, actions[..|actions| - 1]);
      if before.Crash? then Crash
      else
        ApplyKeepsValid(lib, before.reg, actions[|actions| - 1]);
        Apply(lib, before.reg, actions[|actions| - 1])
  }

  /** In every run, whatever frames arrive: a device with a session has nothing buffered. */
  lemma SessionMeansNothingBuffered(lib: Library, identity: Identity, actions: seq<RegAction>, peer: PeerId)
    ensures Valid(NewRegistry(identity))
    ensures var e := RunRegistry(lib, NewRegistry(identity), actions);
            e.Next? && peer in e.reg.sessions ==> Buffered(e.reg, peer) == []
  {
    var e := RunRegistry(lib, NewRegistry(identity), actions);
    if e.Next? && peer in e.reg.sessions {
      assert peer in e.reg.sessions.Keys;
    }
  }

  // ---- What sends and session frames leave alone ----

  lemma SendKeepsRest(lib: Library, reg: Registry, peer: PeerId, text: Bytes, msgId: u64, ts: u64)
    ensures var r := SendMessage(lib, reg, peer, text, msgId, ts);
            r.identity == reg.identity && r.handshakes == reg.handshakes && (peer in reg.sessions ==> r.pendingSends == reg.pendingSends)
  {
    if peer in reg.sessions {
      DispatchedKeepsRest(reg, peer, EncryptMessage(lib, reg.sessions[peer].session, text, msgId, ts));
    }
  }

  lemma DispatchedKeepsRest(reg: Registry, peer: PeerId, o: SealOutcome)
    requires peer in reg.sessions
    ensures var r := Dispatched(reg, peer, o);
            r.identity == reg.identity && r.handshakes == reg.handshakes && r.pendingSends == reg.pendingSends
  {
  }

  lemma ControlledKeepsRest(reg: Registry, peer: PeerId, o: SealOutcome)
    requires peer in reg.sessions
    ensures var e := Controlled(reg, peer, o);
            e.Next? ==> e.reg.identity == reg.identity && e.reg.handshakes == reg.handshakes && e.reg.pendingSends == reg.pendingSends
  {
  }

  lemma AcknowledgedKeepsRest(reg: Registry, k: ConnKey, device: PeerId, event: BehaviourEvent, o: SealOutcome)
    requires device in reg.sessions
    ensures var e := Acknowledged(reg, k, device, event, o);
            e.Next? ==> e.reg.identity == reg.identity && e.reg.handshakes == reg.handshakes && e.reg.pendingSends == reg.pendingSends
  {
  }

  lemma ControlKeepsRest(lib: Library, reg: Registry, peer: PeerId, p: Plain, rand: u64)
    ensures var e := SendControl(lib, reg, peer, p, rand);
            e.Next? ==> e.reg.identity == reg.identity && e.reg.handshakes == reg.handshakes && e.reg.pendingSends == reg.pendingSends
    ensures peer !in reg.sessions ==> SendControl(lib, reg, peer, p, rand) == Next(reg)
  {
    if peer in reg.sessions {
      ControlledKeepsRest(reg, peer, SealPlain(lib, reg.sessions[peer].session, p, rand));
    }
  }

  lemma ReceiveKeepsRest(lib: Library, reg: Registry, k: ConnKey, frame: Frame, env: Env)
    ensures var e := OnSessionFrame(lib, reg, k, frame, env);
            e.Next? ==> e.reg.identity == reg.identity && e.reg.handshakes == reg.handshakes && e.reg.pendingSends == reg.pendingSends
  {
    if k.transport in reg.transportDevices && reg.transportDevices[k.transport] in reg.sessions {
      var device := reg.transportDevices[k.transport];
      var h := HandleFrame(lib, reg.sessions[device].session, frame);
      if h.answer.Opened? {
        OpenedKeepsRest(lib, SetSession(reg, device, h.state), k, device, h.answer.event, env);
      }
    }
  }

  lemma OpenedKeepsRest(lib: Library, reg: Registry, k: ConnKey, device: PeerId, i: Inbound, env: Env)
    requires device in reg.sessions
    ensures var e := OnOpened(lib, reg, k, device, i, env);
            e.Next? ==> e.reg.identity == reg.identity && e.reg.handshakes == reg.handshakes && e.reg.pendingSends == reg.pendingSends
  {
    if i.InMessage? {
      AcknowledgedKeepsRest(reg, k, device, EventFor(device, i),
                            SealPlain(lib, reg.sessions[device].session, AckPlain(i.msgId, i.seqNo, env.ts), env.rand));
    }
  }

  // ---- What a flush frames ----

  /** The texts that fit in a message, in order. */
  function Fitting(texts: seq<Outgoing>): seq<Outgoing>
    decreases |texts|
  {
    if texts == [] then []
    else
      var before, last := Fitting(texts[..|texts| - 1]), texts[|texts| - 1];
      if |last.text| <= MAX_MESSAGE_BYTES then before + [last] else before
  }

  /** The frames of `texts`, numbered from `from`. */
  function TextFrames(lib: Library, s: SessionState, from: nat, texts: seq<Outgoing>, ts: u64): (fs: seq<Frame>)
    requires from + |texts| <= MAX_U32
    ensures |fs| == |texts|
    ensures forall i | 0 <= i < |fs| :: fs[i] == FrameFor(lib, s, from + i, texts[i].msgId, TextPlain(ts, texts[i].text))
  {
    seq(|texts|, i requires 0 <= i < |texts| => FrameFor(lib, s, from + i, texts[i].msgId, TextPlain(ts, texts[i].text)))
  }

  lemma {:induction false} FittingShorter(texts: seq<Outgoing>)
    ensures |Fitting(texts)| <= |texts|
    decreases |texts|
  {
    if texts != [] {
      FittingShorter(texts[..|texts| - 1]);
    }
  }

  /** How many of the texts that fit still find a sequence number. */
  function Numbered(s: SessionState, texts: seq<Outgoing>): (n: nat)
    ensures n <= |Fitting(texts)| && s.outSeq + n <= MAX_U32
  {
    if s.outSeq + |Fitting(texts)| <= MAX_U32 then |Fitting(texts)| else MAX_U32 - s.outSeq
  }

  /** A flush frames exactly the texts that fit, in send order, with consecutive sequence
      numbers, until the numbers run out; the ones that do not fit take no number. */
  lemma {:induction false} FlushFramesFitting(lib: Library, s: SessionState, texts: seq<Outgoing>, ts: u64)
    ensures FlushAll(lib, s, texts, ts) == FlushOf(lib, s, texts, ts)
    decreases |texts|
  {
    if texts != [] {
      var front, last := texts[..|texts| - 1], texts[|texts| - 1];
      FlushFramesFitting(lib, s, front, ts);
      FlushOfSnoc(lib, s, front, last, ts);
      assert texts == front + [last];
    } else {
      assert Fitting(texts) == [];
    }
  }

  /** The flush, said without the loop. */
  function FlushOf(lib: Library, s: SessionState, texts: seq<Outgoing>, ts: u64): Flushed {
    var n := Numbered(s, texts);
    Flushed(s.(outSeq := s.outSeq + n), TextFrames(lib, s, s.outSeq, Fitting(texts)[..n], ts))
  }

  lemma FittingSnoc(texts: seq<Outgoing>, t: Outgoing)
    ensures Fitting(texts + [t]) == if |t.text| <= MAX_MESSAGE_BYTES then Fitting(texts) + [t] else Fitting(texts)
  {
    assert (texts + [t])[..|texts|] == texts;
  }

  /** Whether one more text is framed. */
  predicate Frameable(s: SessionState, texts: seq<Outgoing>, t: Outgoing) {
    |t.text| <= MAX_MESSAGE_BYTES && s.outSeq + Numbered(s, texts) < MAX_U32
  }

  lemma NumberedSnoc(s: SessionState, texts: seq<Outgoing>, t: Outgoing)
    ensures var n, n' := Numbered(s, texts), Numbered(s, texts + [t]);
            if Frameable(s, texts, t) then n' == n + 1 && Fitting(texts + [t])[..n'] == Fitting(texts)[..n] + [t]
            else n' == n && Fitting(texts + [t])[..n'] == Fitting(texts)[..n]
  {
    FittingSnoc(texts, t);
  }

  lemma NotFramed(lib: Library, f: Flushed, t: Outgoing, ts: u64)
    requires |t.text| > MAX_MESSAGE_BYTES || f.session.outSeq == MAX_U32
    ensures Onto(f, EncryptMessage(lib, f.session, t.text, t.msgId, ts)) == f
  {
  }

  lemma FlushOfSnoc(lib: Library, s: SessionState, texts: seq<Outgoing>, t: Outgoing, ts: u64)
    ensures var before := FlushOf(lib, s, texts, ts);
            FlushOf(lib, s, texts + [t], ts) == Onto(before, EncryptMessage(lib, before.session, t.text, t.msgId, ts))
  {
    var n := Numbered(s, texts);
    NumberedSnoc(s, texts, t);
    if Frameable(s, texts, t) {
      TextFramesSnoc(lib, s, s.outSeq, Fitting(texts)[..n], t, ts);
      NextText(lib, s, n, t, ts);
    } else {
      NotFramed(lib, FlushOf(lib, s, texts, ts), t, ts);
    }
  }

  lemma NextText(lib: Library, s: SessionState, n: nat, t: Outgoing, ts: u64)
    requires s.outSeq + n < MAX_U32 && |t.text| <= MAX_MESSAGE_BYTES
    ensures EncryptMessage(lib, s.(outSeq := s.outSeq + n), t.text, t.msgId, ts)
            == Sealed(s.(outSeq := s.outSeq + n + 1), FrameFor(lib, s, s.outSeq + n, t.msgId, TextPlain(ts, t.text)))
  {
  }

  lemma TextFramesSnoc(lib: Library, s: SessionState, from: nat, texts: seq<Outgoing>, t: Outgoing, ts: u64)
    requires from + |texts| < MAX_U32
    ensures TextFrames(lib, s, from, texts + [t], ts)
            == TextFrames(lib, s, from, texts, ts) + [FrameFor(lib, s, from + |texts|, t.msgId, TextPlain(ts, t.text))]
  {
  }

  /** Establishing a session frames the buffered texts from sequence number 0 and leaves
      nothing buffered, so no text is framed twice. */
  lemma InstallFlushes(lib: Library, reg: Registry, k: ConnKey, result: Hs.HandshakeResult, ts: u64)
    ensures var r, s := Install(lib, reg, k, result, ts), NewSession(result);
            var n := Numbered(s, Buffered(reg, result.peerId));
            && result.peerId !in r.pendingSends
            && r.sessions[result.peerId] == Live(k, s.(outSeq := n))
            && r.queue == (if result.peerId in reg.pendingSends
                           then reg.queue + [Notify(k, TextFrames(lib, s, 0, Fitting(Buffered(reg, result.peerId))[..n], ts))]
                           else reg.queue)
  {
    FlushFramesFitting(lib, NewSession(result), Buffered(reg, result.peerId), ts);
  }
}
