/** The session behaviour as the object the program updates in place (src/transport.rs).
    Every method is proved to do what the functions of module Registry say. */
module Behaviour {
  import opened ByteStrings
  import opened Framing
  import opened Library
  import Hs = Handshake
  import opened Session
  import opened R = Registry

  class SessionBehaviour {
    const lib: Library
    const identity: Identity
    var handshakes: map<ConnKey, Hs.State>
    var sessions: map<PeerId, Live>
    var peerNames: map<PeerId, Bytes>
    var pendingSends: map<PeerId, seq<Outgoing>>
    var connected: set<PeerId>
    var transportDevices: map<PeerId, PeerId>
    var deviceTransports: map<PeerId, PeerId>
    var observedAddrs: map<ConnKey, Source>
    var startedAt: map<ConnKey, nat>
    var queue: seq<Output>

    ghost function View(): Registry
      reads this
    {
      R.Registry(identity, handshakes, sessions, peerNames, pendingSends, connected, transportDevices,
                        deviceTransports, observedAddrs, startedAt, queue)
    }

    constructor (lib: Library, identity: Identity)
      ensures this.lib == lib && View() == NewRegistry(identity) && Valid(View())
    {
      this.lib, this.identity := lib, identity;
      handshakes, sessions, peerNames, pendingSends, connected := map[], map[], map[], map[], {};
      transportDevices, deviceTransports, observedAddrs, startedAt, queue := map[], map[], map[], map[], [];
    }

    method Send(peer: PeerId, text: Bytes, msgId: u64, ts: u64)
      requires Valid(View())
      modifies this`sessions, this`pendingSends, this`queue
      ensures View() == SendMessage(lib, old(View()), peer, text, msgId, ts) && Valid(View())
    {
      SendKeeps(lib, View(), peer, text, msgId, ts);
      if peer in sessions {
        Dispatch(peer, EncryptMessage(lib, sessions[peer].session, text, msgId, ts));
      } else {
        var buffered := if peer in pendingSends then pendingSends[peer] else [];
        pendingSends := pendingSends[peer := buffered + [Outgoing(msgId, text)]];
      }
    }

    method Dispatch(peer: PeerId, o: SealOutcome)
      requires peer in sessions
      modifies this`sessions, this`queue
      ensures View() == Dispatched(old(View()), peer, o)
    {
      match o {
        case Sealed(s, frame) =>
          queue := queue + [Notify(sessions[peer].conn, [frame])];
          sessions := sessions[peer := sessions[peer].(session := s)];
        case NotSealed(e) =>
          queue := queue + [Generate(HandshakeFailed(peer, SessionFailure(e)))];
        case Panics =>
      }
    }

    /** False means the program panics. */
    method SendControlFrame(peer: PeerId, p: Plain, rand: u64) returns (ok: bool)
      modifies this`sessions, this`queue
      ensures old(Valid(View())) && ok ==> Valid(View())
      ensures ok <==> SendControl(lib, old(View()), peer, p, rand).Next?
      ensures ok ==> View() == SendControl(lib, old(View()), peer, p, rand).reg
    {
      if peer !in sessions {
        return true;
      }
      var live := sessions[peer];
      var r := SealPlain(lib, live.session, p, rand);
      if r.Panics? {
        return false;
      }
      sessions := sessions[peer := live.(session := r.state)];
      queue := queue + [Notify(live.conn, [r.frame])];
      ok := true;
    }

    method ConnectTo(device: PeerId, transport: PeerId, addrs: seq<Multiaddr>)
      requires Valid(View())
      modifies this`transportDevices, this`deviceTransports, this`queue
      ensures View() == Connect(old(View()), device, transport, addrs) && Valid(View())
    {
      if addrs == [] {
        return;
      }
      RecordTransport(device, transport);
      queue := queue + [Dial(transport, addrs)];
    }

    method RecordTransport(device: PeerId, transport: PeerId)
      modifies this`transportDevices, this`deviceTransports
      ensures View() == MapTransport(old(View()), device, transport)
      ensures old(Valid(View())) ==> Valid(View())
    {
      transportDevices := transportDevices[transport := device];
      deviceTransports := deviceTransports[device := transport];
    }

    method SubstreamReady(k: ConnKey, now: nat)
      requires Valid(View())
      modifies this`handshakes, this`startedAt, this`queue
      ensures View() == OnSubstreamReady(lib, old(View()), k, now) && Valid(View())
    {
      ReadyKeeps(lib, View(), k, now);
      if k in handshakes {
        return;
      }
      var expected := if k.transport in transportDevices then Some(transportDevices[k.transport]) else None;
      var st := Hs.Initial(lib, identity, expected);
      StartHandshake(k, st, now);
    }

    method StartHandshake(k: ConnKey, st: Hs.State, now: nat)
      modifies this`handshakes, this`startedAt, this`queue
      ensures View() == Starting(old(View()), k, st, now)
    {
      handshakes, startedAt := handshakes[k := st], startedAt[k := now];
      queue := queue + [Notify(k, [HandshakeFrame(Hello, st.myHelloPayload)])];
    }

    method StreamClosed(k: ConnKey)
      requires Valid(View())
      modifies this`handshakes
      ensures View() == OnStreamClosed(old(View()), k) && Valid(View())
    {
      handshakes := handshakes - {k};
    }

    method FrameReceived(k: ConnKey, frame: Frame, env: Env) returns (ok: bool)
      requires Valid(View())
      modifies this
      ensures ok <==> OnFrame(lib, old(View()), k, frame, env).Next?
      ensures ok ==> View() == OnFrame(lib, old(View()), k, frame, env).reg && Valid(View())
    {
      FrameKeeps(lib, View(), k, frame, env);
      if frame.IsSessionFrame() {
        ok := SessionFrameReceived(k, frame, env);
      } else {
        ok := HandshakeFrameReceived(k, frame, env);
      }
    }

    method HandshakeFrameReceived(k: ConnKey, frame: Frame, env: Env) returns (ok: bool)
      requires Valid(View())
      modifies this
      ensures ok <==> OnHandshakeFrame(lib, old(View()), k, frame, env).Next?
      ensures ok ==> View() == OnHandshakeFrame(lib, old(View()), k, frame, env).reg
    {
      if k !in handshakes {
        return true;
      }
      var o := Hs.OnFrame(lib, identity, handshakes[k], frame, env.coins);
      ok := React(k, o, env);
    }

    method React(k: ConnKey, o: Hs.Outcome, env: Env) returns (ok: bool)
      modifies this
      ensures ok <==> OnReaction(lib, old(View()), k, o, env).Next?
      ensures ok ==> View() == OnReaction(lib, old(View()), k, o, env).reg
    {
      match o.reaction {
        case Send(frames) =>
          handshakes := handshakes[k := o.state];
          queue := queue + [Notify(k, frames)];
          ok := true;
        case Complete(result) =>
          ok := Establish(k, result, env);
        case Failed(e) =>
          handshakes := handshakes - {k};
          var peer := if k.transport in transportDevices then transportDevices[k.transport] else k.transport;
          queue := queue + [Generate(HandshakeFailed(peer, HandshakeFailure(e)))];
          ok := true;
      }
    }

    method Establish(k: ConnKey, result: Hs.HandshakeResult, env: Env) returns (ok: bool)
      modifies this
      ensures ok <==> OnEstablished(lib, old(View()), k, result, env).Next?
      ensures ok ==> View() == OnEstablished(lib, old(View()), k, result, env).reg
    {
      var device := result.peerId;
      InstallSession(k, result, env.ts);
      ok := true;
      if k in observedAddrs {
        var source := observedAddrs[k];
        observedAddrs := observedAddrs - {k};
        ok := SendControlFrame(device, ObservedPlain(source.ip, source.port), env.rand);
        if !ok {
          return;
        }
      }
      queue := queue + [Generate(SessionEstablished(device, k.conn, result))];
    }

    method InstallSession(k: ConnKey, result: Hs.HandshakeResult, ts: u64)
      modifies this
      ensures View() == Install(lib, old(View()), k, result, ts)
    {
      var device := result.peerId;
      handshakes := handshakes - {k};
      RecordTransport(device, k.transport);
      peerNames := peerNames[device := result.peerHello.userName];
      sessions := sessions[device := Live(k, NewSession(result))];
      Flush(device, k, ts);
    }

    /** Frames the buffered texts one after the other. */
    method Flush(device: PeerId, k: ConnKey, ts: u64)
      requires device in sessions
      modifies this`pendingSends, this`sessions, this`queue
      ensures View() == FlushPendingSends(lib, old(View()), device, k, ts)
    {
      if device !in pendingSends {
        return;
      }
      var texts := pendingSends[device];
      pendingSends := pendingSends - {device};
      var frames: seq<Frame> := [];
      var session := sessions[device].session;
      ghost var s0 := session;
      for i := 0 to |texts|
        invariant Flushed(session, frames) == FlushAll(lib, s0, texts[..i], ts)
      {
        assert texts[..i + 1][..i] == texts[..i] && texts[..i + 1][i] == texts[i];
        match EncryptMessage(lib, session, texts[i].text, texts[i].msgId, ts) {
          case Sealed(s, frame) =>
            session := s;
            frames := frames + [frame];
          case NotSealed(_) =>
          case Panics =>
        }
      }
      assert texts[..|texts|] == texts;
      sessions := sessions[device := sessions[device].(session := session)];
      queue := queue + [Notify(k, frames)];
    }

    method SessionFrameReceived(k: ConnKey, frame: Frame, env: Env) returns (ok: bool)
      modifies this`sessions, this`queue
      ensures ok <==> OnSessionFrame(lib, old(View()), k, frame, env).Next?
      ensures ok ==> View() == OnSessionFrame(lib, old(View()), k, frame, env).reg
    {
      if k.transport !in transportDevices {
        return true;
      }
      var device := transportDevices[k.transport];
      if device !in sessions {
        return true;
      }
      var h := HandleFrame(lib, sessions[device].session, frame);
      match h.answer {
        case Opened(i) =>
          sessions := sessions[device := sessions[device].(session := h.state)];
          ok := Surface(k, device, i, env);
        case Refused(e) =>
          sessions := sessions - {device};
          queue := queue + [Generate(HandshakeFailed(device, SessionFailure(e)))];
          ok := true;
      }
    }

    /** Acknowledges a message and reports what was received. */
    method Surface(k: ConnKey, device: PeerId, i: Inbound, env: Env) returns (ok: bool)
      requires device in sessions
      modifies this`sessions, this`queue
      ensures ok <==> OnOpened(lib, old(View()), k, device, i, env).Next?
      ensures ok ==> View() == OnOpened(lib, old(View()), k, device, i, env).reg
    {
      if i.InMessage? {
        var r := SealPlain(lib, sessions[device].session, AckPlain(i.msgId, i.seqNo, env.ts), env.rand);
        if !r.Sealed? {
          return false;
        }
        sessions := sessions[device := sessions[device].(session := r.state)];
        queue := queue + [Notify(k, [r.frame])];
      }
      queue := queue + [Generate(EventFor(device, i))];
      ok := true;
    }

    method ConnectionEstablished(k: ConnKey, seenFrom: Option<Source>)
      requires Valid(View())
      modifies this`connected, this`observedAddrs, this`queue
      ensures View() == OnConnectionEstablished(old(View()), k, seenFrom) && Valid(View())
    {
      connected := connected + {k.transport};
      if seenFrom.Some? {
        observedAddrs := observedAddrs[k := seenFrom.value];
      }
      var peer := if k.transport in transportDevices then transportDevices[k.transport] else k.transport;
      queue := queue + [Generate(PeerConnected(peer))];
    }

    method ConnectionClosed(k: ConnKey, remaining: nat)
      requires Valid(View())
      modifies this`observedAddrs, this`connected, this`handshakes, this`sessions, this`peerNames, this`queue
      ensures View() == OnConnectionClosed(old(View()), k, remaining) && Valid(View())
    {
      ClosedKeeps(View(), k, remaining);
      var peer := if k.transport in transportDevices then transportDevices[k.transport] else k.transport;
      Forget(k);
      CloseSession(k, peer);
      if remaining == 0 {
        queue := queue + [Generate(PeerDisconnected(peer))];
      }
    }

    method Forget(k: ConnKey)
      modifies this`observedAddrs, this`connected, this`handshakes
      ensures View() == ForgetConnection(old(View()), k)
    {
      observedAddrs := observedAddrs - {k};
      connected := connected - {k.transport};
      handshakes := handshakes - {k};
    }

    method CloseSession(k: ConnKey, peer: PeerId)
      modifies this`sessions, this`peerNames
      ensures View() == DropSession(old(View()), k, peer)
    {
      if peer in sessions && sessions[peer].conn == k {
        sessions := sessions - {peer};
        if k.transport in transportDevices {
          peerNames := peerNames - {peer};
        }
      }
    }

    /** One poll: drops the handshakes that timed out, then hands out the oldest output. */
    method Poll(now: nat, expired: seq<ConnKey>) returns (next: Option<Output>)
      requires Valid(View()) && ListsTimedOut(View(), now, expired)
      modifies this`handshakes, this`queue
      ensures Valid(View())
      ensures handshakes == map k | k in old(handshakes) && now <= old(startedAt)[k] + 30_000 :: old(handshakes)[k]
      ensures var r := ExpireHandshakes(old(View()), expired);
              if r.queue == [] then next.None? && View() == r
              else next == Some(r.queue[0]) && View() == r.(queue := r.queue[1..])
    {
      ExpireKeeps(View(), expired);
      ExpireDrops(View(), expired);
      Expire(expired);
      if queue == [] {
        return None;
      }
      next := Some(queue[0]);
      queue := queue[1..];
    }

    method Expire(expired: seq<ConnKey>)
      modifies this`handshakes, this`queue
      ensures View() == ExpireHandshakes(old(View()), expired)
    {
      ghost var reg0 := View();
      for i := 0 to |expired|
        invariant View() == ExpireHandshakes(reg0, expired[..i])
      {
        assert expired[..i + 1][..i] == expired[..i] && expired[..i + 1][i] == expired[i];
        var k := expired[i];
        handshakes := handshakes - {k};
        var peer := if k.transport in transportDevices then transportDevices[k.transport] else k.transport;
        queue := queue + [Generate(HandshakeFailed(peer, TimedOut))];
      }
      assert expired[..|expired|] == expired;
    }
  }
}
