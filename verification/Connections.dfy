/** What the session behaviour remembers about connections, and which events and dials it hands
    out for them (src/transport.rs). */
module Connections {
  import opened ByteStrings
  import opened Framing
  import opened Library
  import Hs = Handshake
  import opened Session
  import opened R = Registry
  import opened Conversation

  /** The device behind a transport peer, or the transport peer itself while it is not known. */
  predicate KnownAs(reg: Registry, transport: PeerId, peer: PeerId) {
    (transport in reg.transportDevices && reg.transportDevices[transport] == peer) || (transport !in reg.transportDevices && peer == transport)
  }

  /** A new connection is announced once, under the device id if it is known; the source is kept
      for an inbound one. */
  lemma ConnectionOpens(reg: Registry, k: ConnKey, seenFrom: Option<Source>, peer: PeerId)
    requires KnownAs(reg, k.transport, peer)
    ensures var reg' := OnConnectionEstablished(reg, k, seenFrom);
            && reg'.queue == reg.queue + [Generate(PeerConnected(peer))]
            && (forall t :: t in reg'.connected <==> t in reg.connected || t == k.transport)
            && (forall j :: j in reg'.observedAddrs <==> j in reg.observedAddrs || (j == k && seenFrom.Some?))
            && (seenFrom.Some? ==> reg'.observedAddrs[k] == seenFrom.value)
            && reg'.sessions == reg.sessions && reg'.handshakes == reg.handshakes && reg'.pendingSends == reg.pendingSends
  {
  }

  /** PeerDisconnected is reported exactly when no connection to the peer remains; what is kept
      for the connection is forgotten either way, and nothing kept for another one. */
  lemma ConnectionCloses(reg: Registry, k: ConnKey, remaining: nat, peer: PeerId)
    requires KnownAs(reg, k.transport, peer)
    ensures var queue := OnConnectionClosed(reg, k, remaining).queue;
            queue == if remaining == 0 then reg.queue + [Generate(PeerDisconnected(peer))] else reg.queue
    ensures Forgotten(reg, OnConnectionClosed(reg, k, remaining), k)
  {
    var forgotten := ForgetConnection(reg, k);
    assert peer == DeviceOr(reg, k.transport);
    DropForgets(forgotten, k, peer);
    ClosedFrom(reg, k, remaining, peer, DropSession(forgotten, k, peer));
  }

  lemma ClosedFrom(reg: Registry, k: ConnKey, remaining: nat, peer: PeerId, dropped: Registry)
    requires peer == DeviceOr(reg, k.transport) && dropped == DropSession(ForgetConnection(reg, k), k, peer)
    requires Forgotten(reg, dropped, k) && dropped.queue == reg.queue
    ensures var reg' := OnConnectionClosed(reg, k, remaining);
            && Forgotten(reg, reg', k)
            && reg'.queue == if remaining == 0 then reg.queue + [Generate(PeerDisconnected(peer))] else reg.queue
  {
    assert OnConnectionClosed(reg, k, remaining) == if remaining == 0 then Push(dropped, Generate(PeerDisconnected(peer))) else dropped;
  }

  predicate Forgotten(reg: Registry, reg': Registry, k: ConnKey) {
    && reg'.handshakes == reg.handshakes - {k} && reg'.observedAddrs == reg.observedAddrs - {k}
    && reg'.connected == reg.connected - {k.transport}
    && reg'.pendingSends == reg.pendingSends && reg'.transportDevices == reg.transportDevices && reg'.deviceTransports == reg.deviceTransports
  }

  lemma DropForgets(reg: Registry, k: ConnKey, peer: PeerId)
    ensures var reg' := DropSession(reg, k, peer);
            && reg'.handshakes == reg.handshakes && reg'.observedAddrs == reg.observedAddrs && reg'.connected == reg.connected
            && reg'.pendingSends == reg.pendingSends && reg'.transportDevices == reg.transportDevices
            && reg'.deviceTransports == reg.deviceTransports && reg'.queue == reg.queue
  {
  }

  /** Asking to connect dials the transport peer at exactly these addresses, and from then on the
      transport peer is known as the device; with no address nothing happens. */
  lemma ConnectDials(reg: Registry, device: PeerId, transport: PeerId, addrs: seq<Multiaddr>)
    ensures var reg' := Connect(reg, device, transport, addrs);
            if addrs == [] then reg' == reg
            else && reg'.queue == reg.queue + [Dial(transport, addrs)] && KnownAs(reg', transport, device)
                 && device in reg'.deviceTransports && reg'.deviceTransports[device] == transport
                 && (forall t, d | t != transport :: KnownAs(reg', t, d) <==> KnownAs(reg, t, d))
                 && reg'.sessions == reg.sessions && reg'.pendingSends == reg.pendingSends
  {
  }

  /** The device a handshake has authenticated is known from then on, in both directions and by
      the name it signed; its handshake is over; the source it was seen from is reported to it
      and forgotten; and the last thing reported is the session. */
  lemma EstablishmentIsKnown(lib: Library, reg: Registry, k: ConnKey, result: Hs.HandshakeResult, env: Env)
    requires OnEstablished(lib, reg, k, result, env).Next?
    ensures var reg' := OnEstablished(lib, reg, k, result, env).reg;
            && KnownAs(reg', k.transport, result.peerId)
            && result.peerId in reg'.deviceTransports && reg'.deviceTransports[result.peerId] == k.transport
            && result.peerId in reg'.peerNames && reg'.peerNames[result.peerId] == result.peerHello.userName
            && k !in reg'.handshakes && k !in reg'.observedAddrs
            && reg'.queue != [] && reg'.queue[|reg'.queue| - 1] == Generate(SessionEstablished(result.peerId, k.conn, result))
  {
    var reg1 := Install(lib, reg, k, result, env.ts);
    InstallIsKnown(lib, reg, k, result, env.ts);
    if k in reg1.observedAddrs {
      var reg2 := reg1.(observedAddrs := reg1.observedAddrs - {k});
      var p := ObservedPlain(reg1.observedAddrs[k].ip, reg1.observedAddrs[k].port);
      ControlIsQuiet(lib, reg2, result.peerId, p, env.rand);
    }
  }

  predicate Names(reg: Registry, k: ConnKey, result: Hs.HandshakeResult) {
    && KnownAs(reg, k.transport, result.peerId)
    && result.peerId in reg.deviceTransports && reg.deviceTransports[result.peerId] == k.transport
    && result.peerId in reg.peerNames && reg.peerNames[result.peerId] == result.peerHello.userName
    && k !in reg.handshakes
  }

  lemma InstallIsKnown(lib: Library, reg: Registry, k: ConnKey, result: Hs.HandshakeResult, ts: u64)
    ensures Names(Install(lib, reg, k, result, ts), k, result)
  {
  }

  lemma ControlIsQuiet(lib: Library, reg: Registry, peer: PeerId, p: Plain, rand: u64)
    ensures var e := SendControl(lib, reg, peer, p, rand);
            e.Next? ==> && e.reg.transportDevices == reg.transportDevices && e.reg.deviceTransports == reg.deviceTransports
                        && e.reg.peerNames == reg.peerNames && e.reg.handshakes == reg.handshakes && e.reg.observedAddrs == reg.observedAddrs
  {
    if peer in reg.sessions {
      ControlledIsQuiet(reg, peer, SealPlain(lib, reg.sessions[peer].session, p, rand));
    }
  }

  lemma ControlledIsQuiet(reg: Registry, peer: PeerId, o: SealOutcome)
    requires peer in reg.sessions
    ensures var e := Controlled(reg, peer, o);
            e.Next? ==> && e.reg.transportDevices == reg.transportDevices && e.reg.deviceTransports == reg.deviceTransports
                        && e.reg.peerNames == reg.peerNames && e.reg.handshakes == reg.handshakes && e.reg.observedAddrs == reg.observedAddrs
  {
  }

  // ---- Handshakes ----

  /** Every other handshake is as it was. */
  ghost predicate OthersKept(reg: Registry, reg': Registry, k: ConnKey) {
    forall j | j != k :: (j in reg'.handshakes <==> j in reg.handshakes) && (j in reg.handshakes ==> reg'.handshakes[j] == reg.handshakes[j])
  }

  /** What must happen after a handshake has answered `o`. A refusal ends it, and the failure is
      reported under the id the peer is known by; otherwise it moves on, and its answer is sent
      on the same connection. */
  ghost predicate Reacts(reg: Registry, k: ConnKey, o: Hs.Outcome, peer: PeerId, e: Effect) {
    match o.reaction
    case Failed(error) =>
      && e.Next? && k !in e.reg.handshakes && OthersKept(reg, e.reg, k) && e.reg.sessions == reg.sessions
      && e.reg.queue == reg.queue + [Generate(HandshakeFailed(peer, HandshakeFailure(error)))]
    case Send(frames) =>
      && e.Next? && k in e.reg.handshakes && e.reg.handshakes[k] == o.state && OthersKept(reg, e.reg, k)
      && e.reg.sessions == reg.sessions && e.reg.queue == reg.queue + [Notify(k, frames)]
    case Complete(_) => true
  }

  lemma ReplyingDecides(reg: Registry, k: ConnKey, st: Hs.State, frames: seq<Frame>)
    ensures var reg' := Replying(reg, k, st, frames);
            && k in reg'.handshakes && reg'.handshakes[k] == st && OthersKept(reg, reg', k)
            && reg'.sessions == reg.sessions && reg'.queue == reg.queue + [Notify(k, frames)]
  {
  }

  lemma FailingDecides(reg: Registry, k: ConnKey, error: Hs.HandshakeError, peer: PeerId)
    requires KnownAs(reg, k.transport, peer)
    ensures var reg' := Failing(reg, k, error);
            && k !in reg'.handshakes && OthersKept(reg, reg', k) && reg'.sessions == reg.sessions
            && reg'.queue == reg.queue + [Generate(HandshakeFailed(peer, HandshakeFailure(error)))]
  {
  }

  lemma ReactionDecides(lib: Library, reg: Registry, k: ConnKey, o: Hs.Outcome, env: Env, peer: PeerId)
    requires KnownAs(reg, k.transport, peer)
    ensures Reacts(reg, k, o, peer, OnReaction(lib, reg, k, o, env))
  {
    match o.reaction
    case Send(frames) => ReplyingDecides(reg, k, o.state, frames);
    case Failed(error) => FailingDecides(reg, k, error, peer);
    case Complete(_) =>
  }

  /** Every frame for a handshake; without a handshake it does nothing. */
  lemma HandshakeFrameDecides(lib: Library, reg: Registry, k: ConnKey, frame: Frame, env: Env, peer: PeerId)
    requires ValidHandshakes(reg.handshakes) && !frame.IsSessionFrame() && KnownAs(reg, k.transport, peer)
    ensures var e := OnFrame(lib, reg, k, frame, env);
            if k !in reg.handshakes then e == Next(reg)
            else Reacts(reg, k, Hs.OnFrame(lib, reg.identity, reg.handshakes[k], frame, env.coins), peer, e)
  {
    if k in reg.handshakes {
      ReactionDecides(lib, reg, k, Hs.OnFrame(lib, reg.identity, reg.handshakes[k], frame, env.coins), env, peer);
    }
  }

  /** A substream starts one handshake per connection, which expects the device the transport
      peer is known as; a closed stream ends exactly that handshake. */
  lemma StreamDecides(lib: Library, reg: Registry, k: ConnKey, now: nat)
    ensures var reg' := OnSubstreamReady(lib, reg, k, now);
            if k in reg.handshakes then reg' == reg
            else && k in reg'.handshakes && OthersKept(reg, reg', k)
                 && reg'.handshakes[k].expectedPeer == (if k.transport in reg.transportDevices then Some(reg.transportDevices[k.transport]) else None)
                 && reg'.handshakes[k].step.WaitHello? && k in reg'.startedAt && reg'.startedAt[k] == now
                 && reg'.queue == reg.queue + [Notify(k, [HandshakeFrame(Hello, Hs.EncodeHello(lib, reg.identity))])]
    ensures var reg' := OnStreamClosed(reg, k);
            k !in reg'.handshakes && OthersKept(reg, reg', k) && reg'.sessions == reg.sessions && reg'.queue == reg.queue
  {
  }
}
