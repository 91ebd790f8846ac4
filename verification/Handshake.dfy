/** One side of the authenticated key establishment (src/handshake.rs). */
module Handshake {
  import opened ByteStrings
  import opened Framing
  import opened Library

  const MAX_USER_NAME: nat := 64
  const AUTH_LABEL: Bytes := Ascii("jeangrey/mvp1/auth/v1")

  datatype PeerHello = PeerHello(pubkey: PubKey, deviceUuid: Uuid, userName: Bytes)

  datatype SessionKeys = SessionKeys(sessionId: SessionId, aToB: Key, bToA: Key)

  datatype HandshakeResult = HandshakeResult(
    myId: PeerId, peerId: PeerId, peerHello: PeerHello, keys: SessionKeys, sendKey: Key, recvKey: Key)

  datatype Step = WaitHello | WaitAuth | WaitReady | Established

  datatype HandshakeError =
    | InvalidFrame(reason: string)
    | Duplicate(t: MessageType)
    | PeerIdMismatch
    | BadSignature
    | Unexpected(t: MessageType)

  datatype Reaction = Send(frames: seq<Frame>) | Complete(result: HandshakeResult) | Failed(error: HandshakeError)

  /** The random choices one call may draw on. */
  datatype Coins = Coins(kemKey: nat, encap: nat, signature: nat)

  datatype State = State(
    myId: PeerId,
    expectedPeer: Option<PeerId>,
    step: Step,
    peerId: Option<PeerId>,
    peerHello: Option<PeerHello>,
    myHelloPayload: Bytes,
    peerHelloPayload: Option<Bytes>,
    myOfferPayload: Option<Bytes>,
    peerOfferPayload: Option<Bytes>,
    myResponsePayload: Option<Bytes>,
    peerResponsePayload: Option<Bytes>,
    kemDk: Option<nat>,
    ssToPeer: Option<Key>,
    ssFromPeer: Option<Key>,
    peerAuthOk: bool,
    peerReady: Option<SessionId>,
    transcript: Option<Digest>,
    keys: Option<SessionKeys>,
    result: Option<HandshakeResult>
  )

  datatype Outcome = Outcome(state: State, reaction: Reaction)

  // ---- Hello payload: [uuid 16][name length 2][name][public key 1952] ----

  function EncodeHello(lib: Library, id: Identity): Bytes {
    id.deviceUuid + Tagged(2, id.userName) + lib.publicKey(id.secretKey)
  }

  function DecodeHello(lib: Library, payload: Bytes): Option<PeerHello> {
    if |payload| < 18 + PUBKEY_LEN then None
    else
      var nameLen := FromBigEndian(payload[16..18]);
      if nameLen > MAX_USER_NAME then None
      else if |payload| != 18 + nameLen + PUBKEY_LEN then None
      else if !lib.utf8(payload[18..18 + nameLen]) then None
      else Some(PeerHello(payload[18 + nameLen..], payload[..16], payload[18..18 + nameLen]))
  }

  /** A device's Hello is readable exactly when its name is at most 64 bytes; the cast of the
      name length to 16 bits never makes a longer name readable. */
  lemma HelloRoundTrip(lib: Library, id: Identity)
    requires lib.utf8(id.userName)
    ensures DecodeHello(lib, EncodeHello(lib, id)) ==
            if |id.userName| <= MAX_USER_NAME
            then Some(PeerHello(lib.publicKey(id.secretKey), id.deviceUuid, id.userName)) else None
  {
    HelloLayout(lib, id);
    Widths();
    if |id.userName| < 0x1_0000 {
      BigEndianRoundTrip(|id.userName|, 2);
    }
  }

  /** Where the fields of a Hello are. */
  lemma HelloLayout(lib: Library, id: Identity)
    ensures var p, n := EncodeHello(lib, id), |id.userName|;
            && |p| == 18 + n + PUBKEY_LEN && p[..16] == id.deviceUuid && p[16..18] == BigEndian(n, 2)
            && p[18..18 + n] == id.userName && p[18 + n..] == lib.publicKey(id.secretKey)
  {
  }

  /** A readable Hello names the key of the device that encoded it. */
  lemma HelloNamesKey(lib: Library, id: Identity)
    requires |id.userName| <= MAX_USER_NAME
    ensures var h := DecodeHello(lib, EncodeHello(lib, id)); h.Some? ==> h.value.pubkey == lib.publicKey(id.secretKey)
  {
    HelloLayout(lib, id);
    Widths();
    BigEndianRoundTrip(|id.userName|, 2);
  }

  // ---- Transcript, secrets and keys ----

  /** One transcript item: tag byte, 4-byte length, payload. */
  function Item(tag: byte, payload: Bytes): Bytes {
    [tag] + Tagged(4, payload)
  }

  /** The bytes hashed into the transcript: by frame type, lower Peer ID first. */
  function TranscriptBytes(first: seq<Bytes>, second: seq<Bytes>): Bytes
    requires |first| == 3 && |second| == 3
  {
    TranscriptGroups(first, second, 3)
  }

  /** The first `n` groups; group i holds the two payloads of frame type i + 1. */
  function TranscriptGroups(first: seq<Bytes>, second: seq<Bytes>, n: nat): Bytes
    requires |first| == 3 && |second| == 3 && n <= 3
  {
    if n == 0 then []
    else TranscriptGroups(first, second, n - 1) + Item(n, first[n - 1]) + Item(n, second[n - 1])
  }

  function TranscriptInput(myId: PeerId, peerId: PeerId, mine: seq<Bytes>, theirs: seq<Bytes>): Bytes
    requires |mine| == 3 && |theirs| == 3
  {
    if Less(myId, peerId) then TranscriptBytes(mine, theirs) else TranscriptBytes(theirs, mine)
  }

  /** The loop of the program: the hasher is fed item by item. */
  method BuildTranscript(lib: Library, myId: PeerId, peerId: PeerId, mine: seq<Bytes>, theirs: seq<Bytes>)
    returns (digest: Digest)
    requires |mine| == 3 && |theirs| == 3
    ensures digest == lib.sha256(TranscriptInput(myId, peerId, mine, theirs))
  {
    var fed: Bytes := [];
    var mineFirst := Less(myId, peerId);
    ghost var first, second := if mineFirst then mine else theirs, if mineFirst then theirs else mine;
    for i := 0 to 3
      invariant fed == TranscriptGroups(first, second, i)
    {
      var pair := if mineFirst then [mine[i], theirs[i]] else [theirs[i], mine[i]];
      for j := 0 to 2
        invariant j == 0 ==> fed == TranscriptGroups(first, second, i)
        invariant j == 1 ==> fed == TranscriptGroups(first, second, i) + Item(i + 1, first[i])
        invariant j == 2 ==> fed == TranscriptGroups(first, second, i + 1)
      {
        fed := fed + Item(i + 1, pair[j]);
      }
    }
    digest := lib.sha256(fed);
  }

  /** Both secrets, the one created by the higher Peer ID first. */
  function CombineSecrets(toPeer: Key, fromPeer: Key, mineIsLower: bool): Bytes {
    if mineIsLower then fromPeer + toPeer else toPeer + fromPeer
  }

  function DeriveKeys(lib: Library, ikm: Bytes, transcript: Digest): SessionKeys {
    SessionKeys(lib.hkdfId(transcript, ikm, Ascii("jeangrey/mvp1/session-id/v1")),
                lib.hkdfKey(transcript, ikm, Ascii("jeangrey/mvp1/aead/a-to-b/v1")),
                lib.hkdfKey(transcript, ikm, Ascii("jeangrey/mvp1/aead/b-to-a/v1")))
  }

  /** (send key, receive key) of the party `myId`. */
  function SelectKeys(keys: SessionKeys, myId: PeerId, peerId: PeerId): (Key, Key) {
    if Less(myId, peerId) then (keys.aToB, keys.bToA) else (keys.bToA, keys.aToB)
  }

  function AuthMessage(transcript: Digest): Bytes {
    AUTH_LABEL + transcript
  }

  // ---- The state machine ----

  /** Which fields are present together. Under it no `unwrap` of the program can fail. */
  predicate Present(st: State) {
    && (st.peerHello.Some? <==> st.peerHelloPayload.Some?)
    && (st.peerHello.Some? <==> st.peerId.Some?)
    && (st.peerHello.Some? <==> st.kemDk.Some?)
    && (st.peerHello.Some? <==> st.myOfferPayload.Some?)
    && (st.peerOfferPayload.Some? <==> st.ssToPeer.Some?)
    && (st.peerOfferPayload.Some? <==> st.myResponsePayload.Some?)
    && (st.peerResponsePayload.Some? <==> st.ssFromPeer.Some?)
    && (st.peerOfferPayload.Some? || st.peerResponsePayload.Some? ==> st.peerHello.Some?)
    && (st.transcript.Some? <==> st.keys.Some?)
    && (st.transcript.Some? ==> st.peerOfferPayload.Some? && st.peerResponsePayload.Some?)
    && (st.peerAuthOk ==> st.transcript.Some?)
    && (st.peerReady.Some? ==> st.peerAuthOk)
    && (st.peerReady.Some? <==> st.result.Some?)
    && st.step == (if st.peerReady.Some? then Established else if st.peerAuthOk then WaitReady
                   else if st.transcript.Some? then WaitAuth else WaitHello)
  }

  function Initial(lib: Library, id: Identity, expectedPeer: Option<PeerId>): (st: State)
    ensures Present(st)
  {
    State(DeviceId(lib, id), expectedPeer, WaitHello, None, None, EncodeHello(lib, id), None, None, None, None, None,
          None, None, None, false, None, None, None, None)
  }

  function Reject(st: State, error: HandshakeError): Outcome {
    Outcome(st, Failed(error))
  }

  function Reply(st: State, t: MessageType, payload: Bytes): Outcome {
    Outcome(st, Send([HandshakeFrame(t, payload)]))
  }

  function OnHello(lib: Library, st: State, payload: Bytes, coins: Coins): Outcome {
    if st.peerHelloPayload.Some? then Reject(st, Duplicate(Hello))
    else
      match DecodeHello(lib, payload)
      case None => Reject(st, InvalidFrame("malformed Hello payload"))
      case Some(hello) => OnDecodedHello(lib, st, payload, hello, coins)
  }

  function OnDecodedHello(lib: Library, st: State, payload: Bytes, hello: PeerHello, coins: Coins): Outcome {
    var peerId := PeerIdOf(lib, hello.pubkey);
    if st.expectedPeer.Some? && st.expectedPeer.value != peerId then Reject(st, PeerIdMismatch)
    else
      var offer := lib.encapKey(coins.kemKey);
      Reply(st.(peerId := Some(peerId), peerHello := Some(hello), peerHelloPayload := Some(payload),
                kemDk := Some(coins.kemKey), myOfferPayload := Some(offer)), KemOffer, offer)
  }

  function OnKemOffer(lib: Library, st: State, payload: Bytes, coins: Coins): Outcome {
    if st.peerHello.None? then Reject(st, Unexpected(KemOffer))
    else if st.peerOfferPayload.Some? then Reject(st, Duplicate(KemOffer))
    else if |payload| != EK_LEN then Reject(st, InvalidFrame("bad KemOffer payload"))
    else
      var ct := lib.ciphertext(payload, coins.encap);
      Reply(st.(peerOfferPayload := Some(payload), ssToPeer := Some(lib.sharedSecret(payload, coins.encap)),
                myResponsePayload := Some(ct)), KemResponse, ct)
  }

  function OnKemResponse(lib: Library, id: Identity, st: State, payload: Bytes, coins: Coins): Outcome
    requires Present(st)
  {
    if st.peerHello.None? then Reject(st, Unexpected(KemResponse))
    else if st.peerResponsePayload.Some? then Reject(st, Duplicate(KemResponse))
    else if |payload| != CT_LEN then Reject(st, InvalidFrame("bad KemResponse payload"))
    else
      var st' := st.(peerResponsePayload := Some(payload),
                     ssFromPeer := Some(lib.decapsulate(st.kemDk.value, payload)));
      if st'.myResponsePayload.Some? then FinishKem(lib, id, st', coins) else Outcome(st', Send([]))
  }

  function TranscriptOf(lib: Library, st: State): Digest
    requires Present(st) && st.peerOfferPayload.Some? && st.peerResponsePayload.Some?
  {
    lib.sha256(TranscriptInput(st.myId, st.peerId.value, MyPayloads(st), PeerPayloads(st)))
  }

  function MyPayloads(st: State): (s: seq<Bytes>)
    requires Present(st) && st.peerOfferPayload.Some?
    ensures |s| == 3
  {
    [st.myHelloPayload, st.myOfferPayload.value, st.myResponsePayload.value]
  }

  function PeerPayloads(st: State): (s: seq<Bytes>)
    requires Present(st) && st.peerOfferPayload.Some? && st.peerResponsePayload.Some?
    ensures |s| == 3
  {
    [st.peerHelloPayload.value, st.peerOfferPayload.value, st.peerResponsePayload.value]
  }

  function KeysOf(lib: Library, st: State): SessionKeys
    requires Present(st) && st.peerOfferPayload.Some? && st.peerResponsePayload.Some?
  {
    DeriveKeys(lib, CombineSecrets(st.ssToPeer.value, st.ssFromPeer.value, Less(st.myId, st.peerId.value)),
               TranscriptOf(lib, st))
  }

  function FinishKem(lib: Library, id: Identity, st: State, coins: Coins): Outcome
    requires Present(st) && st.peerOfferPayload.Some? && st.peerResponsePayload.Some?
  {
    var transcript := TranscriptOf(lib, st);
    Reply(st.(transcript := Some(transcript), keys := Some(KeysOf(lib, st)), step := WaitAuth),
          Auth, lib.sign(id.secretKey, AuthMessage(transcript), coins.signature))
  }

  function OnAuth(lib: Library, st: State, payload: Bytes): Outcome
    requires Present(st)
  {
    if st.peerAuthOk then Reject(st, Duplicate(Auth))
    else if st.transcript.None? || st.peerHello.None? then Reject(st, Unexpected(Auth))
    else if !lib.verify(st.peerHello.value.pubkey, AuthMessage(st.transcript.value), payload) then
      Reject(st, BadSignature)
    else Reply(st.(peerAuthOk := true, step := WaitReady), Ready, st.keys.value.sessionId)
  }

  function ResultOf(st: State): HandshakeResult
    requires Present(st) && st.keys.Some?
  {
    var (sendKey, recvKey) := SelectKeys(st.keys.value, st.myId, st.peerId.value);
    HandshakeResult(st.myId, st.peerId.value, st.peerHello.value, st.keys.value, sendKey, recvKey)
  }

  function OnReady(st: State, payload: Bytes): Outcome
    requires Present(st)
  {
    if st.peerReady.Some? then Reject(st, Duplicate(Ready))
    else if !st.peerAuthOk then Reject(st, Unexpected(Ready))
    else if |payload| != 16 then Reject(st, InvalidFrame("bad Ready payload"))
    else if payload != st.keys.value.sessionId then Reject(st, InvalidFrame("session id mismatch"))
    else Outcome(st.(peerReady := Some(payload), step := Established, result := Some(ResultOf(st))),
                 Complete(ResultOf(st)))
  }

  function OnFrame(lib: Library, id: Identity, st: State, frame: Frame, coins: Coins): (o: Outcome)
    requires Present(st)
    ensures Present(o.state)
    ensures o.reaction.Failed? ==> o.state == st
  {
    if frame.flags != 0 then Reject(st, InvalidFrame("flags set"))
    else
      match frame.msgType
      case Hello => OnHello(lib, st, frame.payload, coins)
      case KemOffer => OnKemOffer(lib, st, frame.payload, coins)
      case KemResponse => OnKemResponse(lib, id, st, frame.payload, coins)
      case Auth => OnAuth(lib, st, frame.payload)
      case Ready => OnReady(st, frame.payload)
      case _ => Reject(st, Unexpected(frame.msgType))
  }

  // ---- The object the program updates in place ----

  class Handshake {
    const lib: Library
    const myId: PeerId
    const expectedPeer: Option<PeerId>
    const myHelloPayload: Bytes
    var step: Step
    var peerId: Option<PeerId>
    var peerHello: Option<PeerHello>
    var peerHelloPayload: Option<Bytes>
    var myOfferPayload: Option<Bytes>
    var peerOfferPayload: Option<Bytes>
    var myResponsePayload: Option<Bytes>
    var peerResponsePayload: Option<Bytes>
    var kemDk: Option<nat>
    var ssToPeer: Option<Key>
    var ssFromPeer: Option<Key>
    var peerAuthOk: bool
    var peerReady: Option<SessionId>
    var transcript: Option<Digest>
    var keys: Option<SessionKeys>
    var result: Option<HandshakeResult>

    ghost function View(): State
      reads this
    {
      State(myId, expectedPeer, step, peerId, peerHello, myHelloPayload, peerHelloPayload, myOfferPayload,
            peerOfferPayload, myResponsePayload, peerResponsePayload, kemDk, ssToPeer, ssFromPeer,
            peerAuthOk, peerReady, transcript, keys, result)
    }

    constructor (lib: Library, id: Identity, expectedPeer: Option<PeerId>)
      ensures View() == Initial(lib, id, expectedPeer)
    {
      this.lib := lib;
      myId, this.expectedPeer, myHelloPayload := DeviceId(lib, id), expectedPeer, EncodeHello(lib, id);
      step, peerAuthOk := WaitHello, false;
      peerId, peerHello, peerHelloPayload, myOfferPayload := None, None, None, None;
      peerOfferPayload, myResponsePayload, peerResponsePayload := None, None, None;
      kemDk, ssToPeer, ssFromPeer, peerReady := None, None, None, None;
      transcript, keys, result := None, None, None;
    }

    method HandleFrame(id: Identity, frame: Frame, coins: Coins) returns (reaction: Reaction)
      requires Present(View())
      modifies this
      ensures Present(View())
      ensures Outcome(View(), reaction) == OnFrame(lib, id, old(View()), frame, coins)
    {
      if frame.flags != 0 {
        return Failed(InvalidFrame("flags set"));
      }
      match frame.msgType {
        case Hello => reaction := HandleHello(frame.payload, coins);
        case KemOffer => reaction := HandleKemOffer(frame.payload, coins);
        case KemResponse => reaction := HandleKemResponse(id, frame.payload, coins);
        case Auth => reaction := HandleAuth(frame.payload);
        case Ready => reaction := HandleReady(frame.payload);
        case _ => reaction := Failed(Unexpected(frame.msgType));
      }
    }

    method HandleHello(payload: Bytes, coins: Coins) returns (reaction: Reaction)
      modifies this`peerId, this`peerHello, this`peerHelloPayload, this`kemDk, this`myOfferPayload
      ensures Outcome(View(), reaction) == OnHello(lib, old(View()), payload, coins)
    {
      if peerHelloPayload.Some? {
        return Failed(Duplicate(Hello));
      }
      var decoded := DecodeHello(lib, payload);
      if decoded.None? {
        return Failed(InvalidFrame("malformed Hello payload"));
      }
      reaction := AcceptHello(payload, decoded.value, coins);
    }

    method AcceptHello(payload: Bytes, hello: PeerHello, coins: Coins) returns (reaction: Reaction)
      modifies this`peerId, this`peerHello, this`peerHelloPayload, this`kemDk, this`myOfferPayload
      ensures Outcome(View(), reaction) == OnDecodedHello(lib, old(View()), payload, hello, coins)
    {
      var id := PeerIdOf(lib, hello.pubkey);
      if expectedPeer.Some? && expectedPeer.value != id {
        return Failed(PeerIdMismatch);
      }
      peerId := Some(id);
      peerHello := Some(hello);
      peerHelloPayload := Some(payload);
      kemDk := Some(coins.kemKey);
      var offer := lib.encapKey(coins.kemKey);
      myOfferPayload := Some(offer);
      reaction := Send([HandshakeFrame(KemOffer, offer)]);
    }

    method HandleKemOffer(payload: Bytes, coins: Coins) returns (reaction: Reaction)
      modifies this`peerOfferPayload, this`ssToPeer, this`myResponsePayload
      ensures Outcome(View(), reaction) == OnKemOffer(lib, old(View()), payload, coins)
    {
      if peerHello.None? {
        return Failed(Unexpected(KemOffer));
      }
      if peerOfferPayload.Some? {
        return Failed(Duplicate(KemOffer));
      }
      if |payload| != EK_LEN {
        return Failed(InvalidFrame("bad KemOffer payload"));
      }
      var ct := lib.ciphertext(payload, coins.encap);
      peerOfferPayload := Some(payload);
      ssToPeer := Some(lib.sharedSecret(payload, coins.encap));
      myResponsePayload := Some(ct);
      reaction := Send([HandshakeFrame(KemResponse, ct)]);
    }

    method HandleKemResponse(id: Identity, payload: Bytes, coins: Coins) returns (reaction: Reaction)
      requires Present(View())
      modifies this
      ensures Outcome(View(), reaction) == OnKemResponse(lib, id, old(View()), payload, coins)
    {
      if peerHello.None? {
        return Failed(Unexpected(KemResponse));
      }
      if peerResponsePayload.Some? {
        return Failed(Duplicate(KemResponse));
      }
      if |payload| != CT_LEN {
        return Failed(InvalidFrame("bad KemResponse payload"));
      }
      peerResponsePayload := Some(payload);
      ssFromPeer := Some(lib.decapsulate(kemDk.value, payload));
      if myResponsePayload.Some? {
        reaction := Finish(id, coins);
      } else {
        reaction := Send([]);
      }
    }

    method Finish(id: Identity, coins: Coins) returns (reaction: Reaction)
      requires Present(View()) && peerOfferPayload.Some? && peerResponsePayload.Some?
      modifies this
      ensures Outcome(View(), reaction) == FinishKem(lib, id, old(View()), coins)
    {
      var mine := [myHelloPayload, myOfferPayload.value, myResponsePayload.value];
      var theirs := [peerHelloPayload.value, peerOfferPayload.value, peerResponsePayload.value];
      var digest := BuildTranscript(lib, myId, peerId.value, mine, theirs);
      transcript := Some(digest);
      var ikm := CombineSecrets(ssToPeer.value, ssFromPeer.value, Less(myId, peerId.value));
      keys := Some(DeriveKeys(lib, ikm, digest));
      var sig := lib.sign(id.secretKey, AUTH_LABEL + digest, coins.signature);
      step := WaitAuth;
      reaction := Send([HandshakeFrame(Auth, sig)]);
    }

    method HandleAuth(payload: Bytes) returns (reaction: Reaction)
      requires Present(View())
      modifies this
      ensures Outcome(View(), reaction) == OnAuth(lib, old(View()), payload)
    {
      if peerAuthOk {
        return Failed(Duplicate(Auth));
      }
      if transcript.None? || peerHello.None? {
        return Failed(Unexpected(Auth));
      }
      if !lib.verify(peerHello.value.pubkey, AUTH_LABEL + transcript.value, payload) {
        return Failed(BadSignature);
      }
      peerAuthOk := true;
      step := WaitReady;
      reaction := Send([HandshakeFrame(Ready, keys.value.sessionId)]);
    }

    method HandleReady(payload: Bytes) returns (reaction: Reaction)
      requires Present(View())
      modifies this
      ensures Outcome(View(), reaction) == OnReady(old(View()), payload)
    {
      if peerReady.Some? {
        return Failed(Duplicate(Ready));
      }
      if !peerAuthOk {
        return Failed(Unexpected(Ready));
      }
      if |payload| != 16 {
        return Failed(InvalidFrame("bad Ready payload"));
      }
      if payload != keys.value.sessionId {
        return Failed(InvalidFrame("session id mismatch"));
      }
      peerReady := Some(payload);
      step := Established;
      var (sendKey, recvKey) := SelectKeys(keys.value, myId, peerId.value);
      var r := HandshakeResult(myId, peerId.value, peerHello.value, keys.value, sendKey, recvKey);
      result := Some(r);
      reaction := Complete(r);
    }
  }
}
