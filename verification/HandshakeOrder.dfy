/** One handshake fed arbitrary frames: what it can ever accept. */
module HandshakeOrder {
  import opened ByteStrings
  import opened Framing
  import opened Library
  import opened Handshake

  datatype Input = Input(frame: Frame, coins: Coins)

  /** The state after `inputs`. */
  function Feed(lib: Library, id: Identity, st: State, inputs: seq<Input>): (r: State)
    requires Present(st)
    ensures Present(r)
    decreases |inputs|
  {
    if inputs == [] then st
    else
      var last := inputs[|inputs| - 1];
      OnFrame(lib, id, Feed(lib, id, st, inputs[..|inputs| - 1]), last.frame, last.coins).state
  }

  /** The types of the frames that were not rejected, in order. */
  function Accepted(lib: Library, id: Identity, st: State, inputs: seq<Input>): seq<MessageType>
    requires Present(st)
    decreases |inputs|
  {
    if inputs == [] then []
    else
      var front, last := inputs[..|inputs| - 1], inputs[|inputs| - 1];
      var before := Accepted(lib, id, st, front);
      if OnFrame(lib, id, Feed(lib, id, st, front), last.frame, last.coins).reaction.Failed? then before
      else before + [last.frame.msgType]
  }

  const FULL_ORDER: seq<MessageType> := [Hello, KemOffer, KemResponse, Auth, Ready]
  const EARLY_RESPONSE: seq<MessageType> := [Hello, KemResponse, KemOffer]

  /** The state fields tell how far along one of the two orders the handshake is. */
  predicate Tracks(st: State, accepted: seq<MessageType>) {
    var n := |accepted|;
    || (accepted <= FULL_ORDER && (st.peerHello.Some? <==> n >= 1) && (st.peerOfferPayload.Some? <==> n >= 2)
        && (st.peerResponsePayload.Some? <==> n >= 3) && (st.transcript.Some? <==> n >= 3)
        && (st.peerAuthOk <==> n >= 4) && (st.peerReady.Some? <==> n >= 5))
    || (n >= 2 && accepted <= EARLY_RESPONSE && st.peerHello.Some? && st.peerResponsePayload.Some?
        && (st.peerOfferPayload.Some? <==> n >= 3) && st.transcript.None?)
  }

  lemma TracksStep(lib: Library, id: Identity, st: State, accepted: seq<MessageType>, input: Input)
    requires Present(st) && Tracks(st, accepted)
    requires !OnFrame(lib, id, st, input.frame, input.coins).reaction.Failed?
    ensures Tracks(OnFrame(lib, id, st, input.frame, input.coins).state, accepted + [input.frame.msgType])
  {
    var n := |accepted|;
    if accepted <= FULL_ORDER {
      assert n == 0 ==> accepted == [];
      assert n == 1 ==> accepted == [Hello];
      assert n == 2 ==> accepted == [Hello, KemOffer] || accepted == [Hello, KemResponse];
      assert n == 3 ==> accepted == [Hello, KemOffer, KemResponse];
      assert n == 4 ==> accepted == [Hello, KemOffer, KemResponse, Auth];
    } else {
      assert n == 2 ==> accepted == [Hello, KemResponse];
    }
  }

  lemma {:induction false} FeedTracks(lib: Library, id: Identity, expected: Option<PeerId>, inputs: seq<Input>)
    ensures Tracks(Feed(lib, id, Initial(lib, id, expected), inputs), Accepted(lib, id, Initial(lib, id, expected), inputs))
    decreases |inputs|
  {
    if inputs != [] {
      var st := Initial(lib, id, expected);
      var front, last := inputs[..|inputs| - 1], inputs[|inputs| - 1];
      FeedTracks(lib, id, expected, front);
      var mid := Feed(lib, id, st, front);
      if !OnFrame(lib, id, mid, last.frame, last.coins).reaction.Failed? {
        TracksStep(lib, id, mid, Accepted(lib, id, st, front), last);
      }
    }
  }

  /** A prefix of one of the two orders repeats no type. */
  lemma PrefixDistinct(accepted: seq<MessageType>)
    requires accepted <= FULL_ORDER || accepted <= EARLY_RESPONSE
    ensures forall i, j | 0 <= i < j < |accepted| :: accepted[i] != accepted[j]
  {
    if accepted <= FULL_ORDER {
      assert forall i, j | 0 <= i < j < 5 :: FULL_ORDER[i] != FULL_ORDER[j];
      assert accepted == FULL_ORDER[..|accepted|];
    } else {
      assert forall i, j | 0 <= i < j < 3 :: EARLY_RESPONSE[i] != EARLY_RESPONSE[j];
      assert accepted == EARLY_RESPONSE[..|accepted|];
    }
  }

  lemma TracksEstablished(st: State, accepted: seq<MessageType>)
    requires Present(st) && Tracks(st, accepted)
    ensures st.step.Established? <==> accepted == FULL_ORDER
    ensures |accepted| >= 2 && accepted[1] == KemResponse ==> st.transcript.None?
  {
    if accepted <= FULL_ORDER {
      assert |accepted| >= 2 ==> accepted[1] == FULL_ORDER[1];
      assert |accepted| == 5 ==> accepted == FULL_ORDER;
    }
  }

  /** A handshake counts the peer as authenticated only by verifying an Auth frame. */
  lemma AuthVerified(lib: Library, id: Identity, st: State, frame: Frame, coins: Coins)
    requires Present(st) && OnFrame(lib, id, st, frame, coins).state.peerAuthOk
    ensures var st' := OnFrame(lib, id, st, frame, coins).state;
            st'.transcript == st.transcript && st'.peerHello == st.peerHello && st.transcript.Some? && st.peerHello.Some?
    ensures !st.peerAuthOk ==> frame.msgType.Auth? && lib.verify(st.peerHello.value.pubkey, AuthMessage(st.transcript.value), frame.payload)
  {
  }

  /** One of the inputs is an Auth frame that verifies under the peer's key over the transcript. */
  ghost predicate AuthSeen(lib: Library, st: State, inputs: seq<Input>)
    requires st.peerHello.Some? && st.transcript.Some?
  {
    exists i :: 0 <= i < |inputs| && inputs[i].frame.msgType.Auth?
      && lib.verify(st.peerHello.value.pubkey, AuthMessage(st.transcript.value), inputs[i].frame.payload)
  }

  lemma {:induction false} AuthenticatedByAuth(lib: Library, id: Identity, expected: Option<PeerId>, inputs: seq<Input>)
    requires Feed(lib, id, Initial(lib, id, expected), inputs).peerAuthOk
    ensures var st := Feed(lib, id, Initial(lib, id, expected), inputs);
            st.peerHello.Some? && st.transcript.Some? && AuthSeen(lib, st, inputs)
    decreases |inputs|
  {
    var st := Initial(lib, id, expected);
    var front, last := inputs[..|inputs| - 1], inputs[|inputs| - 1];
    var mid := Feed(lib, id, st, front);
    AuthVerified(lib, id, mid, last.frame, last.coins);
    if mid.peerAuthOk {
      AuthenticatedByAuth(lib, id, expected, front);
      var i :| 0 <= i < |front| && front[i].frame.msgType.Auth?
        && lib.verify(mid.peerHello.value.pubkey, AuthMessage(mid.transcript.value), front[i].frame.payload);
      assert inputs[i] == front[i];
    }
  }

  /** For every frame sequence, honest or not: no type is accepted twice, and the handshake
      is Established exactly when it has accepted the five types in protocol order. In
      particular a KemResponse accepted before the KemOffer rules Established out for good. An
      established handshake was fed an Auth frame whose signature verifies under the key of
      its peer over its transcript. */
  lemma AcceptedOrder(lib: Library, id: Identity, expected: Option<PeerId>, inputs: seq<Input>)
    ensures var accepted := Accepted(lib, id, Initial(lib, id, expected), inputs);
            var st := Feed(lib, id, Initial(lib, id, expected), inputs);
            && (accepted <= FULL_ORDER || accepted <= EARLY_RESPONSE)
            && (forall i, j | 0 <= i < j < |accepted| :: accepted[i] != accepted[j])
            && (st.step.Established? <==> accepted == FULL_ORDER)
            && (|accepted| >= 2 && accepted[1] == KemResponse ==> st.transcript.None?)
            && (st.step.Established? ==> st.peerHello.Some? && st.transcript.Some? && AuthSeen(lib, st, inputs))
  {
    FeedTracks(lib, id, expected, inputs);
    var st := Initial(lib, id, expected);
    PrefixDistinct(Accepted(lib, id, st, inputs));
    TracksEstablished(Feed(lib, id, st, inputs), Accepted(lib, id, st, inputs));
    if Feed(lib, id, st, inputs).step.Established? {
      AuthenticatedByAuth(lib, id, expected, inputs);
    }
  }

  // ---- Which frames are accepted ----

  /** The frame is the first of its type, with what it needs already there. */
  predicate InTurn(st: State, t: MessageType) {
    match t
    case Hello => st.peerHello.None?
    case KemOffer => st.peerHello.Some? && st.peerOfferPayload.None?
    case KemResponse => st.peerHello.Some? && st.peerResponsePayload.None?
    case Auth => st.transcript.Some? && !st.peerAuthOk
    case Ready => st.peerAuthOk && st.peerReady.None?
    case _ => false
  }

  /** The payload is what a frame of that type must carry at this point. */
  predicate Carries(lib: Library, st: State, t: MessageType, payload: Bytes)
    requires Present(st) && InTurn(st, t)
  {
    match t
    case Hello =>
      DecodeHello(lib, payload).Some? && (st.expectedPeer.Some? ==> st.expectedPeer.value == PeerIdOf(lib, DecodeHello(lib, payload).value.pubkey))
    case KemOffer => |payload| == EK_LEN
    case KemResponse => |payload| == CT_LEN
    case Auth => lib.verify(st.peerHello.value.pubkey, AuthMessage(st.transcript.value), payload)
    case Ready => payload == st.keys.value.sessionId
  }

  /** When exactly a frame is accepted, and how the refusals of the others differ: a frame that
      was already accepted is a duplicate, one that comes too early is unexpected, and the key
      and the signature have their own. */
  lemma AcceptsExactly(lib: Library, id: Identity, st: State, frame: Frame, coins: Coins)
    requires Present(st)
    ensures var r, t := OnFrame(lib, id, st, frame, coins).reaction, frame.msgType;
            && (!r.Failed? <==> frame.flags == 0 && InTurn(st, t) && Carries(lib, st, t, frame.payload))
            && (r == Failed(Duplicate(t)) <==>
                frame.flags == 0 && match t case Hello => st.peerHello.Some? case KemOffer => st.peerOfferPayload.Some?
                                            case KemResponse => st.peerResponsePayload.Some? case Auth => st.peerAuthOk
                                            case Ready => st.peerReady.Some? case _ => false)
            && (r == Failed(Unexpected(t)) <==>
                frame.flags == 0 && match t case Hello => false case KemOffer => st.peerHello.None? case KemResponse => st.peerHello.None?
                                            case Auth => st.transcript.None? case Ready => !st.peerAuthOk case _ => true)
            && (r == Failed(BadSignature) <==>
                frame.flags == 0 && t.Auth? && InTurn(st, t) && !Carries(lib, st, t, frame.payload))
            && (r == Failed(PeerIdMismatch) <==>
                frame.flags == 0 && t.Hello? && InTurn(st, t) && DecodeHello(lib, frame.payload).Some? && !Carries(lib, st, t, frame.payload))
  {
    match frame.msgType
    case Hello => HelloAccepts(lib, st, frame.payload, coins);
    case _ =>
  }

  lemma HelloAccepts(lib: Library, st: State, payload: Bytes, coins: Coins)
    requires Present(st)
    ensures var r := OnHello(lib, st, payload, coins).reaction;
            && (!r.Failed? <==> st.peerHello.None? && Carries(lib, st, Hello, payload))
            && (r.Failed? ==> r.error == if st.peerHello.Some? then Duplicate(Hello)
                                         else if DecodeHello(lib, payload).None? then InvalidFrame("malformed Hello payload")
                                         else PeerIdMismatch)
  {
  }
}
