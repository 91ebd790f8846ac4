/** Two honest devices over two FIFO channels: every interleaving of deliveries. */
module HandshakePair {
  import opened ByteStrings
  import opened Framing
  import opened Library
  import opened Handshake

  /** A device and the random choices it makes in this handshake. Each component of `coins`
      is drawn by one handler only. */
  datatype Party = Party(id: Identity, coins: Coins, expected: Option<PeerId>)

  /** Two parties that may meet, possibly one and the same device. */
  ghost predicate Meet(lib: Library, me: Party, peer: Party) {
    Correct(lib) && Introduces(lib, me, peer) && Introduces(lib, peer, me)
  }

  ghost predicate Honest(lib: Library, me: Party, peer: Party) {
    Meet(lib, me, peer) && DeviceId(lib, me.id) != DeviceId(lib, peer.id)
  }

  /** `me` has a legal name, and `peer` expects nobody in particular or exactly `me`. */
  ghost predicate Introduces(lib: Library, me: Party, peer: Party) {
    && lib.utf8(me.id.userName) && |me.id.userName| <= MAX_USER_NAME
    && (peer.expected.Some? ==> peer.expected.value == DeviceId(lib, me.id))
  }

  // ---- The payloads the two devices will exchange ----

  function OfferOf(lib: Library, me: Party): EncapKey { lib.encapKey(me.coins.kemKey) }

  function ResponseOf(lib: Library, me: Party, peer: Party): Ciphertext {
    lib.ciphertext(OfferOf(lib, peer), me.coins.encap)
  }

  /** The secret `me` creates for `peer`. */
  function SecretOf(lib: Library, me: Party, peer: Party): Key {
    lib.sharedSecret(OfferOf(lib, peer), me.coins.encap)
  }

  function PayloadsOf(lib: Library, me: Party, peer: Party): (s: seq<Bytes>)
    ensures |s| == 3
  {
    [EncodeHello(lib, me.id), OfferOf(lib, me), ResponseOf(lib, me, peer)]
  }

  function PairTranscript(lib: Library, me: Party, peer: Party): Digest {
    lib.sha256(TranscriptInput(DeviceId(lib, me.id), DeviceId(lib, peer.id), PayloadsOf(lib, me, peer), PayloadsOf(lib, peer, me)))
  }

  function PairKeys(lib: Library, me: Party, peer: Party): SessionKeys {
    DeriveKeys(lib, CombineSecrets(SecretOf(lib, me, peer), SecretOf(lib, peer, me), Less(DeviceId(lib, me.id), DeviceId(lib, peer.id))),
               PairTranscript(lib, me, peer))
  }

  /** The k-th frame `me` sends. */
  function FrameOf(lib: Library, me: Party, peer: Party, k: nat): Frame
    requires k < 5
  {
    match k
    case 0 => HandshakeFrame(Hello, EncodeHello(lib, me.id))
    case 1 => HandshakeFrame(KemOffer, OfferOf(lib, me))
    case 2 => HandshakeFrame(KemResponse, ResponseOf(lib, me, peer))
    case 3 => HandshakeFrame(Auth, lib.sign(me.id.secretKey, AuthMessage(PairTranscript(lib, me, peer)), me.coins.signature))
    case _ => HandshakeFrame(Ready, PairKeys(lib, me, peer).sessionId)
  }

  function PairHello(lib: Library, peer: Party): PeerHello {
    PeerHello(lib.publicKey(peer.id.secretKey), peer.id.deviceUuid, peer.id.userName)
  }

  function PairResult(lib: Library, me: Party, peer: Party): HandshakeResult {
    var keys := PairKeys(lib, me, peer);
    var (sendKey, recvKey) := SelectKeys(keys, DeviceId(lib, me.id), DeviceId(lib, peer.id));
    HandshakeResult(DeviceId(lib, me.id), DeviceId(lib, peer.id), PairHello(lib, peer), keys, sendKey, recvKey)
  }

  function When<T>(b: bool, x: T): Option<T> { if b then Some(x) else None }

  /** The state of `me` after the first k frames of `peer`. */
  function StateAt(lib: Library, me: Party, peer: Party, k: nat): State {
    State(DeviceId(lib, me.id), me.expected,
          if k >= 5 then Established else if k == 4 then WaitReady else if k == 3 then WaitAuth else WaitHello,
          When(k >= 1, DeviceId(lib, peer.id)), When(k >= 1, PairHello(lib, peer)),
          EncodeHello(lib, me.id), When(k >= 1, EncodeHello(lib, peer.id)),
          When(k >= 1, OfferOf(lib, me)), When(k >= 2, OfferOf(lib, peer)),
          When(k >= 2, ResponseOf(lib, me, peer)), When(k >= 3, ResponseOf(lib, peer, me)),
          When(k >= 1, me.coins.kemKey), When(k >= 2, SecretOf(lib, me, peer)), When(k >= 3, SecretOf(lib, peer, me)),
          k >= 4, When(k >= 5, PairKeys(lib, me, peer).sessionId),
          When(k >= 3, PairTranscript(lib, me, peer)), When(k >= 3, PairKeys(lib, me, peer)),
          When(k >= 5, PairResult(lib, me, peer)))
  }

  /** Both sides compute the same transcript and keys. */
  predicate Symmetric(lib: Library, me: Party, peer: Party) {
    PairTranscript(lib, me, peer) == PairTranscript(lib, peer, me) && PairKeys(lib, me, peer) == PairKeys(lib, peer, me)
  }

  /** Both sides hash the same bytes, combine the secrets in the same order and take
      opposite directions of the same keys. */
  lemma PairAgrees(lib: Library, me: Party, peer: Party)
    requires DeviceId(lib, me.id) != DeviceId(lib, peer.id)
    ensures Symmetric(lib, me, peer)
    ensures PairResult(lib, me, peer).sendKey == PairResult(lib, peer, me).recvKey
    ensures PairResult(lib, me, peer).recvKey == PairResult(lib, peer, me).sendKey
  {
    LessTotal(DeviceId(lib, me.id), DeviceId(lib, peer.id));
  }

  /** What `me` answers to the k-th frame of `peer`. */
  function ReactionAt(lib: Library, me: Party, peer: Party, k: nat): Reaction
    requires k < 5
  {
    if k < 4 then Send([FrameOf(lib, me, peer, k + 1)]) else Complete(PairResult(lib, me, peer))
  }

  lemma StatePresent(lib: Library, me: Party, peer: Party, k: nat)
    ensures Present(StateAt(lib, me, peer, k))
  {
  }

  /** `me` takes the k-th frame of `peer` and answers with its own next one. */
  ghost predicate Takes(lib: Library, me: Party, peer: Party, k: nat)
    requires k < 5
  {
    && Present(StateAt(lib, me, peer, k))
    && OnFrame(lib, me.id, StateAt(lib, me, peer, k), FrameOf(lib, peer, me, k), me.coins)
       == Outcome(StateAt(lib, me, peer, k + 1), ReactionAt(lib, me, peer, k))
  }

  lemma TakesHello(lib: Library, me: Party, peer: Party)
    requires Meet(lib, me, peer)
    ensures Takes(lib, me, peer, 0)
  {
    HelloRoundTrip(lib, peer.id);
  }

  lemma OffersAnswer(lib: Library, me: Party, peer: Party)
    ensures OnKemOffer(lib, StateAt(lib, me, peer, 1), OfferOf(lib, peer), me.coins)
            == Outcome(StateAt(lib, me, peer, 2), ReactionAt(lib, me, peer, 1))
  {
  }

  lemma TakesOffer(lib: Library, me: Party, peer: Party)
    requires Meet(lib, me, peer)
    ensures Takes(lib, me, peer, 1)
  {
    OffersAnswer(lib, me, peer);
    StatePresent(lib, me, peer, 1);
  }

  /** The state of `me` between storing the response of `peer` and deriving the keys. */
  function StateWithResponse(lib: Library, me: Party, peer: Party): State {
    StateAt(lib, me, peer, 2).(peerResponsePayload := Some(ResponseOf(lib, peer, me)), ssFromPeer := Some(SecretOf(lib, peer, me)))
  }

  lemma DerivesPairKeys(lib: Library, me: Party, peer: Party)
    ensures var st := StateWithResponse(lib, me, peer);
            Present(st) && TranscriptOf(lib, st) == PairTranscript(lib, me, peer) && KeysOf(lib, st) == PairKeys(lib, me, peer)
  {
    var st := StateWithResponse(lib, me, peer);
    assert MyPayloads(st) == PayloadsOf(lib, me, peer);
    assert PeerPayloads(st) == PayloadsOf(lib, peer, me);
  }

  lemma StoresResponse(lib: Library, me: Party, peer: Party)
    requires Meet(lib, me, peer)
    ensures var st := StateAt(lib, me, peer, 2);
            var stored := StateWithResponse(lib, me, peer);
            Present(st) && Present(stored) &&
            OnKemResponse(lib, me.id, st, ResponseOf(lib, peer, me), me.coins) == FinishKem(lib, me.id, stored, me.coins)
  {
    assert lib.decapsulate(me.coins.kemKey, ResponseOf(lib, peer, me)) == SecretOf(lib, peer, me);
  }

  lemma TakesResponse(lib: Library, me: Party, peer: Party)
    requires Meet(lib, me, peer)
    ensures Takes(lib, me, peer, 2)
  {
    StoresResponse(lib, me, peer);
    DerivesPairKeys(lib, me, peer);
  }

  lemma TakesAuth(lib: Library, me: Party, peer: Party)
    requires Meet(lib, me, peer) && Symmetric(lib, me, peer)
    ensures Takes(lib, me, peer, 3)
  {
    assert lib.verify(lib.publicKey(peer.id.secretKey), AuthMessage(PairTranscript(lib, peer, me)), FrameOf(lib, peer, me, 3).payload);
  }

  lemma ReadyFrame(lib: Library, me: Party, peer: Party)
    requires Symmetric(lib, me, peer)
    ensures FrameOf(lib, peer, me, 4) == HandshakeFrame(Ready, PairKeys(lib, me, peer).sessionId)
  {
  }

  lemma ReadyDispatch(lib: Library, id: Identity, st: State, payload: Bytes, coins: Coins)
    requires Present(st)
    ensures OnFrame(lib, id, st, HandshakeFrame(Ready, payload), coins) == OnReady(st, payload)
  {
  }

  lemma ReadyAnswer(lib: Library, me: Party, peer: Party, sessionId: SessionId)
    requires sessionId == PairKeys(lib, me, peer).sessionId
    ensures Present(StateAt(lib, me, peer, 4))
    ensures OnReady(StateAt(lib, me, peer, 4), sessionId) == Outcome(StateAt(lib, me, peer, 5), ReactionAt(lib, me, peer, 4))
  {
  }

  lemma TakesReady(lib: Library, me: Party, peer: Party)
    requires Meet(lib, me, peer) && Symmetric(lib, me, peer)
    ensures Takes(lib, me, peer, 4)
  {
    var st, sessionId := StateAt(lib, me, peer, 4), PairKeys(lib, me, peer).sessionId;
    ReadyFrame(lib, me, peer);
    ReadyAnswer(lib, me, peer, sessionId);
    ReadyDispatch(lib, me.id, st, sessionId, me.coins);
  }

  lemma MeetingStep(lib: Library, me: Party, peer: Party, k: nat)
    requires Meet(lib, me, peer) && Symmetric(lib, me, peer) && k < 5
    ensures Takes(lib, me, peer, k)
  {
    match k {
      case 0 => TakesHello(lib, me, peer);
      case 1 => TakesOffer(lib, me, peer);
      case 2 => TakesResponse(lib, me, peer);
      case 3 => TakesAuth(lib, me, peer);
      case 4 => TakesReady(lib, me, peer);
    }
  }

  lemma HonestStep(lib: Library, me: Party, peer: Party, k: nat)
    requires Honest(lib, me, peer) && k < 5
    ensures Takes(lib, me, peer, k)
  {
    PairAgrees(lib, me, peer);
    MeetingStep(lib, me, peer, k);
  }

  // ---- Runs ----

  /** `toB` and `toA` are the frames in flight, oldest first. */
  datatype Pair = Pair(a: State, b: State, toB: seq<Frame>, toA: seq<Frame>)

  datatype Delivery = Delivered(pair: Pair) | NothingToDeliver | Broken(error: HandshakeError)

  function StartPair(lib: Library, a: Party, b: Party): Pair {
    Pair(Initial(lib, a.id, a.expected), Initial(lib, b.id, b.expected),
         [HandshakeFrame(Hello, EncodeHello(lib, a.id))], [HandshakeFrame(Hello, EncodeHello(lib, b.id))])
  }

  function FramesOf(r: Reaction): seq<Frame> { if r.Send? then r.frames else [] }

  /** Delivers the oldest frame to `b` (or to `a`). */
  function Deliver(lib: Library, a: Party, b: Party, w: Pair, toB: bool): Delivery
    requires Present(w.a) && Present(w.b)
  {
    if toB then
      if w.toB == [] then NothingToDeliver
      else
        var o := OnFrame(lib, b.id, w.b, w.toB[0], b.coins);
        if o.reaction.Failed? then Broken(o.reaction.error)
        else Delivered(Pair(w.a, o.state, w.toB[1..], w.toA + FramesOf(o.reaction)))
    else
      if w.toA == [] then NothingToDeliver
      else
        var o := OnFrame(lib, a.id, w.a, w.toA[0], a.coins);
        if o.reaction.Failed? then Broken(o.reaction.error)
        else Delivered(Pair(o.state, w.b, w.toB + FramesOf(o.reaction), w.toA[1..]))
  }

  /** The outcome of delivering as `schedule` says, stopping at the first delivery that is
      impossible or fails. */
  function RunPair(lib: Library, a: Party, b: Party, schedule: seq<bool>): (d: Delivery)
    ensures d.Delivered? ==> Present(d.pair.a) && Present(d.pair.b)
    decreases |schedule|
  {
    if schedule == [] then Delivered(StartPair(lib, a, b))
    else
      var before := RunPair(lib, a, b, schedule[..|schedule| - 1]);
      if !before.Delivered? then before
      else Deliver(lib, a, b, before.pair, schedule[|schedule| - 1])
  }

  /** Frames sent after receiving k. */
  function Sent(k: nat): nat { if k < 5 then k + 1 else 5 }

  function FrameRange(lib: Library, me: Party, peer: Party, lo: nat, hi: nat): (s: seq<Frame>)
    requires lo <= hi <= 5
    ensures |s| == hi - lo
    decreases hi - lo
  {
    if lo == hi then [] else [FrameOf(lib, me, peer, lo)] + FrameRange(lib, me, peer, lo + 1, hi)
  }

  lemma {:induction false} FrameRangeSnoc(lib: Library, me: Party, peer: Party, lo: nat, hi: nat)
    requires lo <= hi < 5
    ensures FrameRange(lib, me, peer, lo, hi) + [FrameOf(lib, me, peer, hi)] == FrameRange(lib, me, peer, lo, hi + 1)
    decreases hi - lo
  {
    if lo < hi {
      FrameRangeSnoc(lib, me, peer, lo + 1, hi);
      assert FrameRange(lib, me, peer, lo, hi) + [FrameOf(lib, me, peer, hi)]
          == [FrameOf(lib, me, peer, lo)] + (FrameRange(lib, me, peer, lo + 1, hi) + [FrameOf(lib, me, peer, hi)]);
    }
  }

  predicate Reachable(i: nat, j: nat) {
    i <= 5 && j <= 5 && i <= Sent(j) && j <= Sent(i)
  }

  /** The only state in which `a` has received i frames and `b` has received j. */
  function PairAt(lib: Library, a: Party, b: Party, i: nat, j: nat): Pair
    requires Reachable(i, j)
  {
    Pair(StateAt(lib, a, b, i), StateAt(lib, b, a, j), FrameRange(lib, a, b, j, Sent(i)), FrameRange(lib, b, a, i, Sent(j)))
  }

  lemma FrameRangeHead(lib: Library, me: Party, peer: Party, lo: nat, hi: nat)
    requires lo < hi <= 5
    ensures FrameRange(lib, me, peer, lo, hi)[0] == FrameOf(lib, me, peer, lo)
    ensures FrameRange(lib, me, peer, lo, hi)[1..] == FrameRange(lib, me, peer, lo + 1, hi)
  {
  }

  /** The channel of `me` after its answer to the k-th frame of `peer`. */
  lemma AnswerQueued(lib: Library, me: Party, peer: Party, lo: nat, k: nat)
    requires k < 5 && lo <= Sent(k)
    ensures !ReactionAt(lib, me, peer, k).Failed?
    ensures FrameRange(lib, me, peer, lo, Sent(k)) + FramesOf(ReactionAt(lib, me, peer, k)) == FrameRange(lib, me, peer, lo, Sent(k + 1))
  {
    if k < 4 {
      FrameRangeSnoc(lib, me, peer, lo, k + 1);
    } else {
      assert FramesOf(ReactionAt(lib, me, peer, k)) == [];
    }
  }

  lemma DeliveredToA(lib: Library, a: Party, b: Party, w: Pair, o: Outcome)
    requires Present(w.a) && Present(w.b) && w.toA != []
    requires OnFrame(lib, a.id, w.a, w.toA[0], a.coins) == o && !o.reaction.Failed?
    ensures Deliver(lib, a, b, w, false) == Delivered(Pair(o.state, w.b, w.toB + FramesOf(o.reaction), w.toA[1..]))
  {
  }

  lemma DeliveredToB(lib: Library, a: Party, b: Party, w: Pair, o: Outcome)
    requires Present(w.a) && Present(w.b) && w.toB != []
    requires OnFrame(lib, b.id, w.b, w.toB[0], b.coins) == o && !o.reaction.Failed?
    ensures Deliver(lib, a, b, w, true) == Delivered(Pair(w.a, o.state, w.toB[1..], w.toA + FramesOf(o.reaction)))
  {
  }

  lemma DeliverToA(lib: Library, a: Party, b: Party, i: nat, j: nat)
    requires Honest(lib, a, b) && Reachable(i, j)
    requires Present(StateAt(lib, a, b, i)) && Present(StateAt(lib, b, a, j))
    ensures Deliver(lib, a, b, PairAt(lib, a, b, i, j), false)
            == if i < Sent(j) && i < 5 then Delivered(PairAt(lib, a, b, i + 1, j)) else NothingToDeliver
  {
    if i < Sent(j) && i < 5 {
      HonestStep(lib, a, b, i);
      AnswerQueued(lib, a, b, j, i);
      FrameRangeHead(lib, b, a, i, Sent(j));
      DeliveredToA(lib, a, b, PairAt(lib, a, b, i, j), Outcome(StateAt(lib, a, b, i + 1), ReactionAt(lib, a, b, i)));
    }
  }

  lemma DeliverToB(lib: Library, a: Party, b: Party, i: nat, j: nat)
    requires Honest(lib, a, b) && Reachable(i, j)
    requires Present(StateAt(lib, a, b, i)) && Present(StateAt(lib, b, a, j))
    ensures Deliver(lib, a, b, PairAt(lib, a, b, i, j), true)
            == if j < Sent(i) && j < 5 then Delivered(PairAt(lib, a, b, i, j + 1)) else NothingToDeliver
  {
    if j < Sent(i) && j < 5 {
      HonestStep(lib, b, a, j);
      AnswerQueued(lib, b, a, i, j);
      FrameRangeHead(lib, a, b, j, Sent(i));
      DeliveredToB(lib, a, b, PairAt(lib, a, b, i, j), Outcome(StateAt(lib, b, a, j + 1), ReactionAt(lib, b, a, j)));
    }
  }

  lemma StartReaches(lib: Library, a: Party, b: Party)
    ensures StartPair(lib, a, b) == PairAt(lib, a, b, 0, 0)
  {
    assert FrameRange(lib, a, b, 0, 1) == [FrameOf(lib, a, b, 0)] + FrameRange(lib, a, b, 1, 1);
    assert FrameRange(lib, b, a, 0, 1) == [FrameOf(lib, b, a, 0)] + FrameRange(lib, b, a, 1, 1);
  }

  /** `d` is the state after n deliveries, or the schedule asked for an empty channel. */
  predicate Reaches(lib: Library, a: Party, b: Party, d: Delivery, n: nat, i: nat, j: nat) {
    && !d.Broken?
    && (d.Delivered? ==> Reachable(i, j) && i + j == n && d.pair == PairAt(lib, a, b, i, j))
  }

  lemma StepReaches(lib: Library, a: Party, b: Party, i: nat, j: nat, toB: bool)
    requires Honest(lib, a, b) && Reachable(i, j)
    ensures Present(StateAt(lib, a, b, i)) && Present(StateAt(lib, b, a, j))
    ensures Reaches(lib, a, b, Deliver(lib, a, b, PairAt(lib, a, b, i, j), toB), i + j + 1,
                    if toB then i else i + 1, if toB then j + 1 else j)
  {
    StatePresent(lib, a, b, i);
    StatePresent(lib, b, a, j);
    if toB {
      DeliverToB(lib, a, b, i, j);
    } else {
      DeliverToA(lib, a, b, i, j);
    }
  }

  lemma {:induction false} RunReaches(lib: Library, a: Party, b: Party, schedule: seq<bool>) returns (i: nat, j: nat)
    requires Honest(lib, a, b)
    ensures Reaches(lib, a, b, RunPair(lib, a, b, schedule), |schedule|, i, j)
    decreases |schedule|
  {
    i, j := 0, 0;
    if schedule == [] {
      StartReaches(lib, a, b);
    } else {
      var front, toB := schedule[..|schedule| - 1], schedule[|schedule| - 1];
      i, j := RunReaches(lib, a, b, front);
      if RunPair(lib, a, b, front).Delivered? {
        StepReaches(lib, a, b, i, j, toB);
        i, j := if toB then i else i + 1, if toB then j + 1 else j;
      }
    }
  }

  /** Both sides are established on the same session with opposite keys. */
  ghost predicate Complementary(lib: Library, a: Party, b: Party, w: Pair) {
    && w.a.step.Established? && w.b.step.Established? && w.a.result.Some? && w.b.result.Some?
    && w.a.result.value.keys == w.b.result.value.keys
    && w.a.result.value.sendKey == w.b.result.value.recvKey
    && w.a.result.value.recvKey == w.b.result.value.sendKey
    && w.a.result.value.peerId == DeviceId(lib, b.id)
    && w.b.result.value.peerId == DeviceId(lib, a.id)
  }

  predicate CanContinue(lib: Library, a: Party, b: Party, schedule: seq<bool>) {
    RunPair(lib, a, b, schedule + [true]).Delivered? || RunPair(lib, a, b, schedule + [false]).Delivered?
  }

  lemma RunExtends(lib: Library, a: Party, b: Party, schedule: seq<bool>, toB: bool)
    requires RunPair(lib, a, b, schedule).Delivered?
    ensures RunPair(lib, a, b, schedule + [toB]) == Deliver(lib, a, b, RunPair(lib, a, b, schedule).pair, toB)
  {
    assert (schedule + [toB])[..|schedule|] == schedule;
  }

  lemma FinalPair(lib: Library, a: Party, b: Party)
    requires Honest(lib, a, b)
    ensures Complementary(lib, a, b, PairAt(lib, a, b, 5, 5))
    ensures PairAt(lib, a, b, 5, 5).toA == [] && PairAt(lib, a, b, 5, 5).toB == []
  {
    PairAgrees(lib, a, b);
  }

  lemma ContinuesBeforeTen(lib: Library, a: Party, b: Party, i: nat, j: nat)
    requires Honest(lib, a, b) && Reachable(i, j)
    ensures Present(StateAt(lib, a, b, i)) && Present(StateAt(lib, b, a, j))
    ensures var w := PairAt(lib, a, b, i, j);
            Deliver(lib, a, b, w, true).Delivered? || Deliver(lib, a, b, w, false).Delivered? <==> i + j < 10
  {
    StatePresent(lib, a, b, i);
    StatePresent(lib, b, a, j);
    DeliverToA(lib, a, b, i, j);
    DeliverToB(lib, a, b, i, j);
  }

  /** Every interleaving of deliveries between two honest devices: no frame is refused, a run
      that is not finished can continue, and a run is finished exactly after ten deliveries,
      with nothing in flight and both sides established on the same session. */
  lemma HandshakeCompletes(lib: Library, a: Party, b: Party, schedule: seq<bool>)
    requires Honest(lib, a, b)
    ensures !RunPair(lib, a, b, schedule).Broken?
    ensures var d := RunPair(lib, a, b, schedule);
            d.Delivered? ==>
              && |schedule| <= 10
              && (|schedule| < 10 <==> CanContinue(lib, a, b, schedule))
              && (|schedule| == 10 ==> d.pair.toA == [] && d.pair.toB == [] && Complementary(lib, a, b, d.pair))
  {
    var i, j := RunReaches(lib, a, b, schedule);
    if RunPair(lib, a, b, schedule).Delivered? {
      ContinuesBeforeTen(lib, a, b, i, j);
      RunExtends(lib, a, b, schedule, true);
      RunExtends(lib, a, b, schedule, false);
      FinalPair(lib, a, b);
    }
  }
}
