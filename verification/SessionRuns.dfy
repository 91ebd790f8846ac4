/** Whole runs of sessions: nonces are never reused, and a session only ever yields what its
    peer sealed. */
module SessionRuns {
  import opened ByteStrings
  import opened Framing
  import opened Library
  import opened Handshake
  import opened Session

  // ---- Counters and nonces ----

  datatype Action = SendText(text: Bytes, msgId: u64, ts: u64) | SendPlain(p: Plain, msgId: u64) | Receive(frame: Frame)

  datatype Progress = Progress(state: SessionState, frames: seq<Frame>)

  function Emit(before: Progress, o: SealOutcome): Progress {
    if o.Sealed? then Progress(o.state, before.frames + [o.frame]) else before
  }

  function Do(lib: Library, p: Progress, a: Action): Progress {
    match a
    case SendText(text, msgId, ts) => Emit(p, EncryptMessage(lib, p.state, text, msgId, ts))
    case SendPlain(plain, msgId) => Emit(p, SealPlain(lib, p.state, plain, msgId))
    case Receive(frame) => Progress(HandleFrame(lib, p.state, frame).state, p.frames)
  }

  /** The session and the frames it has sealed after `actions`; a refused or panicking call
      seals nothing. */
  function DoAll(lib: Library, s: SessionState, actions: seq<Action>): Progress
    decreases |actions|
  {
    if actions == [] then Progress(s, []) else Do(lib, DoAll(lib, s, actions[..|actions| - 1]), actions[|actions| - 1])
  }

  ghost predicate SealedUnder(lib: Library, s: SessionState, f: Frame, seqNo: u32) {
    && f.seqNo == seqNo && f.sessionId == s.sessionId
    && exists p :: f.payload == lib.seal(s.sendKey, NonceFor(s.myDir, seqNo), AadFor(s.sessionId, f.msgType, seqNo, f.msgId), p)
  }

  ghost predicate Counted(lib: Library, s: SessionState, p: Progress) {
    && p.state.(outSeq := s.outSeq, inSeq := s.inSeq, seqViolations := s.seqViolations, seen := s.seen) == s
    && p.state.outSeq == |p.frames|
    && forall i | 0 <= i < |p.frames| :: SealedUnder(lib, s, p.frames[i], i)
  }

  lemma DoCounts(lib: Library, s: SessionState, p: Progress, a: Action)
    requires Counted(lib, s, p)
    ensures Counted(lib, s, Do(lib, p, a))
    ensures !a.Receive? && p.state.outSeq == MAX_U32 ==> Do(lib, p, a) == p
    ensures a.SendText? && |a.text| > MAX_MESSAGE_BYTES ==> Do(lib, p, a) == p
    ensures |Do(lib, p, a).frames| > |p.frames| <==>
            !a.Receive? && p.state.outSeq < MAX_U32 && !(a.SendText? && |a.text| > MAX_MESSAGE_BYTES)
  {
    var p' := Do(lib, p, a);
    if |p'.frames| > |p.frames| {
      var n := p.state.outSeq;
      var plain := if a.SendText? then TextPlain(a.ts, a.text) else a.p;
      assert p'.frames[n].payload == lib.seal(s.sendKey, NonceFor(s.myDir, n), AadFor(s.sessionId, p'.frames[n].msgType, n, p'.frames[n].msgId), PlainBytes(lib, plain));
      assert forall i | 0 <= i < n :: p'.frames[i] == p.frames[i];
    }
  }

  lemma {:induction false} RunCounts(lib: Library, s: SessionState, actions: seq<Action>)
    requires s.outSeq == 0
    ensures Counted(lib, s, DoAll(lib, s, actions))
    decreases |actions|
  {
    if actions != [] {
      RunCounts(lib, s, actions[..|actions| - 1]);
      DoCounts(lib, s, DoAll(lib, s, actions[..|actions| - 1]), actions[|actions| - 1]);
    }
  }

  /** The two ends of one session, as NewSession makes them. */
  ghost predicate Ends(a: SessionState, b: SessionState) {
    && a.sessionId == b.sessionId && a.sendKey == b.recvKey && a.recvKey == b.sendKey
    && a.myDir == b.peerDir && a.peerDir == b.myDir && a.myDir != b.myDir
  }

  /** Over any runs of the two ends, every frame is sealed under its position as sequence
      number, the counter is the number of frames sealed, and no two frames of either
      direction share a nonce, whatever the keys. */
  lemma NoncesNeverRepeat(lib: Library, a: SessionState, b: SessionState, actsA: seq<Action>, actsB: seq<Action>)
    requires Ends(a, b) && a.outSeq == 0 && b.outSeq == 0
    ensures var pa, pb := DoAll(lib, a, actsA), DoAll(lib, b, actsB);
            && Counted(lib, a, pa) && Counted(lib, b, pb)
            && (forall i, j | 0 <= i < j < |pa.frames| ::
                  NonceFor(a.myDir, pa.frames[i].seqNo) != NonceFor(a.myDir, pa.frames[j].seqNo))
            && (forall i, j | 0 <= i < |pa.frames| && 0 <= j < |pb.frames| ::
                  NonceFor(a.myDir, pa.frames[i].seqNo) != NonceFor(b.myDir, pb.frames[j].seqNo))
  {
    RunCounts(lib, a, actsA);
    RunCounts(lib, b, actsB);
    var pa, pb := DoAll(lib, a, actsA), DoAll(lib, b, actsB);
    forall i, j | 0 <= i < j < |pa.frames|
      ensures NonceFor(a.myDir, pa.frames[i].seqNo) != NonceFor(a.myDir, pa.frames[j].seqNo)
    {
      assert SealedUnder(lib, a, pa.frames[i], i) && SealedUnder(lib, a, pa.frames[j], j);
      DistinctNonces(a.myDir, a.myDir, i, j);
    }
    forall i, j | 0 <= i < |pa.frames| && 0 <= j < |pb.frames|
      ensures NonceFor(a.myDir, pa.frames[i].seqNo) != NonceFor(b.myDir, pb.frames[j].seqNo)
    {
      DistinctNonces(a.myDir, b.myDir, pa.frames[i].seqNo, pb.frames[j].seqNo);
    }
  }

  lemma DistinctNonces(dir: Dir, dir': Dir, seqNo: u32, seqNo': u32)
    requires dir != dir' || seqNo != seqNo'
    ensures NonceFor(dir, seqNo) != NonceFor(dir', seqNo')
  {
    if NonceFor(dir, seqNo) == NonceFor(dir', seqNo') {
      NonceInjective(dir, dir', seqNo, seqNo');
    }
  }

  /** The ends that a completed handshake produces are complementary. */
  lemma HandshakeGivesEnds(r: HandshakeResult, q: HandshakeResult)
    requires r.myId == q.peerId && r.peerId == q.myId && r.myId != r.peerId
    requires r.keys == q.keys && r.sendKey == q.recvKey && r.recvKey == q.sendKey
    ensures Ends(NewSession(r), NewSession(q)) && NewSession(r).outSeq == 0 && NewSession(q).outSeq == 0
  {
    LessTotal(r.myId, r.peerId);
  }

  // ---- Arbitrary frames to one session ----

  datatype SentPlain = SentPlain(plain: Plain, msgId: u64)

  /** `sender` is the honest peer and `sent` all it has sealed; `receiver` is None once an
      error has removed the session; `events` is everything it has yielded. */
  datatype Net = Net(sender: SessionState, sent: seq<SentPlain>, receiver: Option<SessionState>, events: seq<Inbound>)

  datatype NetAction = Seal(plain: Plain, msgId: u64) | Inject(frame: Frame)

  /** Ideal AEAD: a ciphertext opens under the session's receive key only if the peer sealed
      that plaintext with that nonce and associated data. */
  ghost predicate Authentic(lib: Library, n: Net, r: SessionState, f: Frame) {
    var nonce, aad := NonceFor(r.peerDir, f.seqNo), AadFor(r.sessionId, f.msgType, f.seqNo, f.msgId);
    var plaintext := lib.open(r.recvKey, nonce, aad, f.payload);
    plaintext.Some? ==> exists k | 0 <= k < |n.sent| && k <= MAX_U32 ::
      && nonce == NonceFor(n.sender.myDir, k)
      && aad == AadFor(n.sender.sessionId, TypeOf(n.sent[k].plain), k, n.sent[k].msgId)
      && plaintext.value == PlainBytes(lib, n.sent[k].plain)
  }

  ghost predicate NetStep(lib: Library, n: Net, a: NetAction, n': Net) {
    match a
    case Seal(plain, msgId) =>
      var o := SealPlain(lib, n.sender, plain, msgId);
      n' == if o.Sealed? then n.(sender := o.state, sent := n.sent + [SentPlain(plain, msgId)]) else n
    case Inject(frame) =>
      && n.receiver.Some? && Authentic(lib, n, n.receiver.value, frame)
      && match HandleFrame(lib, n.receiver.value, frame)
         case Handled(s, Opened(event)) => n' == n.(receiver := Some(s), events := n.events + [event])
         case Handled(_, Refused(_)) => n' == n.(receiver := None)
  }

  ghost predicate NetRun(lib: Library, nets: seq<Net>, actions: seq<NetAction>) {
    && |nets| == |actions| + 1
    && nets[0].sent == [] && nets[0].events == [] && nets[0].receiver.Some?
    && Ends(nets[0].sender, nets[0].receiver.value) && nets[0].sender.outSeq == 0 && nets[0].receiver.value.inSeq == 0
    && forall i | 0 <= i < |actions| :: NetStep(lib, nets[i], actions[i], nets[i + 1])
  }

  /** `event` is how the sealed bytes of `sent` read at position k. */
  predicate Reads(lib: Library, k: u32, sent: SentPlain, event: Inbound) {
    ParsePlaintext(lib, k, TypeOf(sent.plain), sent.msgId, PlainBytes(lib, sent.plain)) == Opened(event)
  }

  predicate ReadsAll(lib: Library, sent: seq<SentPlain>, events: seq<Inbound>)
    requires |events| <= |sent| <= MAX_U32
  {
    forall k | 0 <= k < |events| :: Reads(lib, k, sent[k], events[k])
  }

  lemma ReadsSnoc(lib: Library, sent: seq<SentPlain>, events: seq<Inbound>, e: Inbound)
    requires |events| < |sent| <= MAX_U32 && ReadsAll(lib, sent, events) && Reads(lib, |events|, sent[|events|], e)
    ensures ReadsAll(lib, sent, events + [e])
  {
    var p := (k: nat, event: Inbound) => k < |sent| && Reads(lib, k, sent[k], event);
    ForallSnoc(p, events, e);
    assert forall k | 0 <= k < |events + [e]| :: p(k, (events + [e])[k]);
  }

  lemma ForallSnoc<T>(p: (nat, T) -> bool, s: seq<T>, x: T)
    requires (forall k | 0 <= k < |s| :: p(k, s[k])) && p(|s|, x)
    ensures forall k | 0 <= k < |s + [x]| :: p(k, (s + [x])[k])
  {
  }

  ghost predicate NetInv(lib: Library, n: Net) {
    && n.sender.outSeq == |n.sent| && |n.events| <= |n.sent|
    && |n.sent| <= MAX_U32 && ReadsAll(lib, n.sent, n.events)
    && (n.receiver.Some? ==> Ends(n.sender, n.receiver.value) && n.receiver.value.inSeq == |n.events|)
  }

  /** A frame that opens is the next one the peer sealed. */
  lemma OpensNext(lib: Library, n: Net, f: Frame)
    requires NetInv(lib, n) && n.receiver.Some? && Authentic(lib, n, n.receiver.value, f)
    requires HandleFrame(lib, n.receiver.value, f).answer.Opened?
    ensures var k := |n.events|;
            && k < |n.sent|
            && Reads(lib, k, n.sent[k], HandleFrame(lib, n.receiver.value, f).answer.event)
  {
    var r := n.receiver.value;
    var nonce, aad := NonceFor(r.peerDir, f.seqNo), AadFor(r.sessionId, f.msgType, f.seqNo, f.msgId);
    var plaintext := lib.open(r.recvKey, nonce, aad, f.payload);
    var k :| 0 <= k < |n.sent| && k <= MAX_U32 && nonce == NonceFor(n.sender.myDir, k)
          && aad == AadFor(n.sender.sessionId, TypeOf(n.sent[k].plain), k, n.sent[k].msgId)
          && plaintext.value == PlainBytes(lib, n.sent[k].plain);
    NonceInjective(r.peerDir, n.sender.myDir, f.seqNo, k);
    AadInjective(r.sessionId, n.sender.sessionId, f.msgType, TypeOf(n.sent[k].plain), f.seqNo, k, f.msgId, n.sent[k].msgId);
  }

  lemma SealKeeps(lib: Library, n: Net, plain: Plain, msgId: u64, n': Net)
    requires NetInv(lib, n) && NetStep(lib, n, Seal(plain, msgId), n')
    ensures NetInv(lib, n')
  {
  }

  lemma InjectKeeps(lib: Library, n: Net, frame: Frame, n': Net)
    requires NetInv(lib, n) && NetStep(lib, n, Inject(frame), n')
    ensures NetInv(lib, n')
  {
    if HandleFrame(lib, n.receiver.value, frame).answer.Opened? {
      OpensNext(lib, n, frame);
      ReadsSnoc(lib, n.sent, n.events, HandleFrame(lib, n.receiver.value, frame).answer.event);
    }
  }

  lemma NetStepKeeps(lib: Library, n: Net, a: NetAction, n': Net)
    requires NetInv(lib, n) && NetStep(lib, n, a, n')
    ensures NetInv(lib, n')
  {
    match a
    case Seal(plain, msgId) => SealKeeps(lib, n, plain, msgId, n');
    case Inject(frame) => InjectKeeps(lib, n, frame, n');
  }

  lemma {:induction false} NetRunKeeps(lib: Library, nets: seq<Net>, actions: seq<NetAction>, k: nat)
    requires NetRun(lib, nets, actions) && k < |nets|
    ensures NetInv(lib, nets[k])
  {
    if k > 0 {
      NetRunKeeps(lib, nets, actions, k - 1);
      assert NetStep(lib, nets[k - 1], actions[k - 1], nets[k]);
      NetStepKeeps(lib, nets[k - 1], actions[k - 1], nets[k]);
    }
  }

  /** With arbitrary frames injected, what a session has yielded is a prefix of what its peer
      sealed, each event being how the sealed bytes read: nothing forged, altered, dropped
      from the middle, repeated or reordered. A payload is seen as the part of it that
      arrives, so within the length limit it is seen exactly as sent. */
  lemma YieldsPrefixOfSealed(lib: Library, nets: seq<Net>, actions: seq<NetAction>)
    requires NetRun(lib, nets, actions)
    ensures var n := nets[|actions|];
            && |n.events| <= |n.sent| <= MAX_U32
            && (forall k | 0 <= k < |n.events| :: Reads(lib, k, n.sent[k], n.events[k]))
            && (forall k | 0 <= k < |n.events| && Typed(lib, n.sent[k].plain) ::
                  var got := Arriving(lib, n.sent[k].plain);
                  got.Some? && n.events[k] == InboundOf(k, n.sent[k].msgId, got.value))
            && (AddrTextCorrect(lib) ==> forall k | 0 <= k < |n.events| && Sendable(lib, n.sent[k].plain) ::
                  n.events[k] == InboundOf(k, n.sent[k].msgId, n.sent[k].plain))
  {
    NetRunKeeps(lib, nets, actions, |actions|);
    var n := nets[|actions|];
    forall k | 0 <= k < |n.events| && Typed(lib, n.sent[k].plain)
      ensures var got := Arriving(lib, n.sent[k].plain);
              got.Some? && n.events[k] == InboundOf(k, n.sent[k].msgId, got.value)
    {
      assert Reads(lib, k, n.sent[k], n.events[k]);
      PlainRoundTrip(lib, k, n.sent[k].msgId, n.sent[k].plain);
    }
    if AddrTextCorrect(lib) {
      forall k | 0 <= k < |n.events| && Sendable(lib, n.sent[k].plain)
        ensures n.events[k] == InboundOf(k, n.sent[k].msgId, n.sent[k].plain)
      {
        SendableArrives(lib, n.sent[k].plain);
      }
    }
  }
}
