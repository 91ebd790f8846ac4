/** Any number of honest devices and handshakes on a network that may deliver any frame to
    anyone. Signatures are unforgeable and the transcript hash has no collision among the
    inputs actually hashed. */
module Agreement {
  import opened ByteStrings
  import opened Framing
  import opened Library
  import opened Handshake
  import HandshakeOrder
  import Records

  // ---- The transcript determines the six payloads ----

  lemma ItemUnique(tag: byte, a: Bytes, b: Bytes, x: Bytes, y: Bytes)
    requires |a| < 0x1_0000_0000 && |b| < 0x1_0000_0000
    requires Item(tag, a) + x == Item(tag, b) + y
    ensures a == b && x == y
  {
    Widths();
    ConcatAssociative([tag], Tagged(4, a), x);
    ConcatAssociative([tag], Tagged(4, b), y);
    SplitAt([tag], [tag], Tagged(4, a) + x, Tagged(4, b) + y);
    TaggedUnique(4, a, b, x, y);
  }

  lemma Nest(a: Bytes, b: Bytes, c: Bytes, d: Bytes, e: Bytes, f: Bytes)
    ensures [] + a + b + c + d + e + f == a + (b + (c + (d + (e + (f + [])))))
  {
  }

  function NestedTranscript(f: seq<Bytes>, s: seq<Bytes>): Bytes
    requires |f| == 3 && |s| == 3
  {
    Item(1, f[0]) + (Item(1, s[0]) + (Item(2, f[1]) + (Item(2, s[1]) + (Item(3, f[2]) + (Item(3, s[2]) + [])))))
  }

  lemma TranscriptNests(f: seq<Bytes>, s: seq<Bytes>)
    requires |f| == 3 && |s| == 3
    ensures TranscriptBytes(f, s) == NestedTranscript(f, s)
  {
    Nest(Item(1, f[0]), Item(1, s[0]), Item(2, f[1]), Item(2, s[1]), Item(3, f[2]), Item(3, s[2]));
    assert TranscriptGroups(f, s, 1) == [] + Item(1, f[0]) + Item(1, s[0]);
    assert TranscriptGroups(f, s, 2) == TranscriptGroups(f, s, 1) + Item(2, f[1]) + Item(2, s[1]);
  }

  predicate Short(payloads: seq<Bytes>) {
    forall i | 0 <= i < |payloads| :: |payloads[i]| < 0x1_0000_0000
  }

  lemma TranscriptInjective(f: seq<Bytes>, s: seq<Bytes>, f': seq<Bytes>, s': seq<Bytes>)
    requires |f| == 3 && |s| == 3 && |f'| == 3 && |s'| == 3
    requires Short(f) && Short(s) && Short(f') && Short(s')
    requires TranscriptBytes(f, s) == TranscriptBytes(f', s')
    ensures f == f' && s == s'
  {
    TranscriptNests(f, s);
    TranscriptNests(f', s');
    var t6, t6' := Item(3, s[2]) + [], Item(3, s'[2]) + [];
    var t5, t5' := Item(3, f[2]) + t6, Item(3, f'[2]) + t6';
    var t4, t4' := Item(2, s[1]) + t5, Item(2, s'[1]) + t5';
    var t3, t3' := Item(2, f[1]) + t4, Item(2, f'[1]) + t4';
    var t2, t2' := Item(1, s[0]) + t3, Item(1, s'[0]) + t3';
    ItemUnique(1, f[0], f'[0], t2, t2');
    ItemUnique(1, s[0], s'[0], t3, t3');
    ItemUnique(2, f[1], f'[1], t4, t4');
    ItemUnique(2, s[1], s'[1], t5, t5');
    ItemUnique(3, f[2], f'[2], t6, t6');
    ItemUnique(3, s[2], s'[2], [], []);
    assert f == [f[0], f[1], f[2]] && f' == [f'[0], f'[1], f'[2]];
    assert s == [s[0], s[1], s[2]] && s' == [s'[0], s'[1], s'[2]];
  }

  // ---- What every handshake keeps, whatever it is fed ----

  ghost predicate Responded(lib: Library, st: State)
    requires Present(st) && st.peerOfferPayload.Some?
  {
    exists r :: st.myResponsePayload.value == lib.ciphertext(st.peerOfferPayload.value, r)
             && st.ssToPeer.value == lib.sharedSecret(st.peerOfferPayload.value, r)
  }

  ghost predicate Consistent(lib: Library, id: Identity, st: State) {
    && Present(st)
    && st.myId == DeviceId(lib, id) && st.myHelloPayload == EncodeHello(lib, id)
    && (st.peerHello.Some? ==>
          && DecodeHello(lib, st.peerHelloPayload.value) == st.peerHello
          && st.peerId.value == PeerIdOf(lib, st.peerHello.value.pubkey)
          && (st.expectedPeer.Some? ==> st.expectedPeer == st.peerId)
          && st.myOfferPayload.value == lib.encapKey(st.kemDk.value))
    && (st.peerOfferPayload.Some? ==> |st.peerOfferPayload.value| == EK_LEN && Responded(lib, st))
    && (st.peerResponsePayload.Some? ==>
          && |st.peerResponsePayload.value| == CT_LEN
          && st.ssFromPeer.value == lib.decapsulate(st.kemDk.value, st.peerResponsePayload.value))
    && (st.transcript.Some? ==> st.transcript.value == TranscriptOf(lib, st) && st.keys.value == KeysOf(lib, st))
    && (st.result.Some? ==> st.result.value == ResultOf(st))
  }

  lemma HelloConsistent(lib: Library, id: Identity, st: State, payload: Bytes, coins: Coins)
    requires Consistent(lib, id, st)
    ensures Consistent(lib, id, OnHello(lib, st, payload, coins).state)
  {
  }

  lemma OfferConsistent(lib: Library, id: Identity, st: State, payload: Bytes, coins: Coins)
    requires Consistent(lib, id, st)
    ensures Consistent(lib, id, OnKemOffer(lib, st, payload, coins).state)
  {
    var o := OnKemOffer(lib, st, payload, coins);
    if !o.reaction.Failed? {
      assert o.state.myResponsePayload.value == lib.ciphertext(payload, coins.encap)
          && o.state.ssToPeer.value == lib.sharedSecret(payload, coins.encap);
    }
  }

  lemma OnFrameConsistent(lib: Library, id: Identity, st: State, frame: Frame, coins: Coins)
    requires Consistent(lib, id, st)
    ensures Consistent(lib, id, OnFrame(lib, id, st, frame, coins).state)
  {
    var o := OnFrame(lib, id, st, frame, coins);
    if frame.msgType.Hello? {
      HelloConsistent(lib, id, st, frame.payload, coins);
    } else if frame.msgType.KemOffer? {
      OfferConsistent(lib, id, st, frame.payload, coins);
    } else if st.peerOfferPayload.Some? {
      var r :| st.myResponsePayload.value == lib.ciphertext(st.peerOfferPayload.value, r)
            && st.ssToPeer.value == lib.sharedSecret(st.peerOfferPayload.value, r);
      assert o.state.myResponsePayload.value == lib.ciphertext(o.state.peerOfferPayload.value, r)
          && o.state.ssToPeer.value == lib.sharedSecret(o.state.peerOfferPayload.value, r);
    }
  }

  // ---- The world ----

  datatype Instance = Instance(id: Identity, st: State)

  /** `devices` are the honest devices; `signed` is everything any of them has signed, and
      `records` the address records among it. */
  datatype World = World(devices: set<Identity>, instances: seq<Instance>, signed: set<(PubKey, Bytes)>,
                         records: set<(PubKey, Records.AddrRecord)>)

  datatype Event =
    | Begin(id: Identity, expected: Option<PeerId>)
    | Inject(k: nat, frame: Frame, coins: Coins)
    | PublishRecord(id: Identity, addrs: seq<Multiaddr>, now: u64)

  ghost predicate InitialWorld(w: World) {
    w.instances == [] && w.signed == {} && w.records == {}
    && forall d | d in w.devices :: |d.userName| <= MAX_USER_NAME
  }

  function PublicKeyOf(lib: Library, i: Instance): PubKey { lib.publicKey(i.id.secretKey) }

  ghost predicate HonestKey(lib: Library, w: World, pk: PubKey) {
    exists d :: d in w.devices && lib.publicKey(d.secretKey) == pk
  }

  /** A signature that verifies under an honest key over `msg` exists only if the owner of
      the key signed `msg`. */
  ghost predicate Unforged(lib: Library, w: World, pk: PubKey, msg: Bytes, sig: Bytes) {
    HonestKey(lib, w, pk) && lib.verify(pk, msg, sig) ==> (pk, msg) in w.signed
  }

  /** Any frame may be injected anywhere, short of forging a signature. */
  ghost predicate Possible(lib: Library, w: World, e: Event) {
    match e
    case Begin(id, _) => id in w.devices
    case Inject(k, frame, _) =>
      && k < |w.instances| && Present(w.instances[k].st)
      && (frame.msgType.Auth? && w.instances[k].st.transcript.Some? ==>
            Unforged(lib, w, w.instances[k].st.peerHello.value.pubkey, AuthMessage(w.instances[k].st.transcript.value), frame.payload))
    case PublishRecord(id, addrs, now) => id in w.devices && Records.Sized(Records.UnsignedRecord(lib, id, addrs, now))
  }

  function AfterInject(lib: Library, w: World, k: nat, frame: Frame, coins: Coins): World
    requires k < |w.instances| && Present(w.instances[k].st)
  {
    var i := w.instances[k];
    var st' := OnFrame(lib, i.id, i.st, frame, coins).state;
    var signed' := if i.st.transcript.None? && st'.transcript.Some?
                   then w.signed + {(PublicKeyOf(lib, i), AuthMessage(st'.transcript.value))} else w.signed;
    w.(instances := w.instances[k := Instance(i.id, st')], signed := signed')
  }

  function After(lib: Library, w: World, e: Event): World
    requires e.Inject? ==> e.k < |w.instances| && Present(w.instances[e.k].st)
  {
    match e
    case Begin(id, expected) => w.(instances := w.instances + [Instance(id, Initial(lib, id, expected))])
    case Inject(k, frame, coins) => AfterInject(lib, w, k, frame, coins)
    case PublishRecord(id, addrs, now) =>
      var r := Records.UnsignedRecord(lib, id, addrs, now);
      var pk := lib.publicKey(id.secretKey);
      w.(signed := w.signed + {(pk, Records.SignedBytes(r))}, records := w.records + {(pk, r)})
  }

  ghost predicate WorldRun(lib: Library, worlds: seq<World>, events: seq<Event>) {
    && |worlds| == |events| + 1 && InitialWorld(worlds[0])
    && forall i | 0 <= i < |events| :: Possible(lib, worlds[i], events[i]) && worlds[i + 1] == After(lib, worlds[i], events[i])
  }

  // ---- The invariant ----

  ghost predicate SignedInHandshake(lib: Library, w: World, pk: PubKey, m: Bytes, k: nat)
    requires k < |w.instances|
  {
    PublicKeyOf(lib, w.instances[k]) == pk && w.instances[k].st.transcript.Some?
    && m == AuthMessage(w.instances[k].st.transcript.value)
  }

  /** Every signature ever made is over a handshake transcript or an address record. */
  ghost predicate Accounted(lib: Library, w: World, pk: PubKey, m: Bytes) {
    || (exists k :: 0 <= k < |w.instances| && SignedInHandshake(lib, w, pk, m, k))
    || (exists r :: (pk, r) in w.records && m == Records.SignedBytes(r))
  }

  ghost predicate Authenticated(lib: Library, w: World, i: Instance) {
    Present(i.st) && i.st.peerAuthOk && HonestKey(lib, w, i.st.peerHello.value.pubkey)
    ==> (i.st.peerHello.value.pubkey, AuthMessage(i.st.transcript.value)) in w.signed
  }

  ghost predicate Inv(lib: Library, w: World) {
    && (forall d | d in w.devices :: |d.userName| <= MAX_USER_NAME)
    && (forall k | 0 <= k < |w.instances| ::
          w.instances[k].id in w.devices && Consistent(lib, w.instances[k].id, w.instances[k].st)
          && Authenticated(lib, w, w.instances[k]))
    && (forall s | s in w.signed :: Accounted(lib, w, s.0, s.1))
    && (forall s | s in w.records :: Records.Sized(s.1))
  }

  lemma InjectKeepsInv(lib: Library, w: World, k: nat, frame: Frame, coins: Coins)
    requires Inv(lib, w) && Possible(lib, w, Inject(k, frame, coins))
    ensures Inv(lib, AfterInject(lib, w, k, frame, coins))
  {
    var w' := AfterInject(lib, w, k, frame, coins);
    var i := w.instances[k];
    OnFrameConsistent(lib, i.id, i.st, frame, coins);
    InjectAuthenticates(lib, w, k, frame, coins);
    forall s | s in w'.signed
      ensures Accounted(lib, w', s.0, s.1)
    {
      InjectAccounts(lib, w, k, frame, coins, s);
    }
  }

  lemma InjectAuthenticates(lib: Library, w: World, k: nat, frame: Frame, coins: Coins)
    requires Inv(lib, w) && Possible(lib, w, Inject(k, frame, coins))
    ensures var w' := AfterInject(lib, w, k, frame, coins);
            forall j | 0 <= j < |w'.instances| :: Authenticated(lib, w', w'.instances[j])
  {
    var w' := AfterInject(lib, w, k, frame, coins);
    forall j | 0 <= j < |w'.instances|
      ensures Authenticated(lib, w', w'.instances[j])
    {
      assert Authenticated(lib, w, w.instances[j]);
      assert w'.devices == w.devices && w.signed <= w'.signed;
      if j == k && w'.instances[k].st.peerAuthOk {
        HandshakeOrder.AuthVerified(lib, w.instances[k].id, w.instances[k].st, frame, coins);
      }
    }
  }

  lemma InjectAccounts(lib: Library, w: World, k: nat, frame: Frame, coins: Coins, s: (PubKey, Bytes))
    requires Inv(lib, w) && Possible(lib, w, Inject(k, frame, coins))
    requires s in AfterInject(lib, w, k, frame, coins).signed
    ensures Accounted(lib, AfterInject(lib, w, k, frame, coins), s.0, s.1)
  {
    var w' := AfterInject(lib, w, k, frame, coins);
    if s in w.signed {
      assert Accounted(lib, w, s.0, s.1);
      if exists j :: 0 <= j < |w.instances| && SignedInHandshake(lib, w, s.0, s.1, j) {
        var j :| 0 <= j < |w.instances| && SignedInHandshake(lib, w, s.0, s.1, j);
        if j == k {
          TranscriptKept(lib, w.instances[k].id, w.instances[k].st, frame, coins);
        }
        assert SignedInHandshake(lib, w', s.0, s.1, j);
      }
    } else {
      assert SignedInHandshake(lib, w', s.0, s.1, k);
    }
  }

  lemma TranscriptKept(lib: Library, id: Identity, st: State, frame: Frame, coins: Coins)
    requires Present(st) && st.transcript.Some?
    ensures OnFrame(lib, id, st, frame, coins).state.transcript == st.transcript
  {
  }

  lemma PublishKeepsInv(lib: Library, w: World, e: Event)
    requires Inv(lib, w) && e.PublishRecord? && Possible(lib, w, e)
    ensures Inv(lib, After(lib, w, e))
  {
    var w' := After(lib, w, e);
    forall s | s in w'.signed
      ensures Accounted(lib, w', s.0, s.1)
    {
      if s in w.signed {
        assert Accounted(lib, w, s.0, s.1);
        if exists j :: 0 <= j < |w.instances| && SignedInHandshake(lib, w, s.0, s.1, j) {
          var j :| 0 <= j < |w.instances| && SignedInHandshake(lib, w, s.0, s.1, j);
          assert SignedInHandshake(lib, w', s.0, s.1, j);
        } else {
          var r :| (s.0, r) in w.records && s.1 == Records.SignedBytes(r);
          assert (s.0, r) in w'.records;
        }
      } else {
        var r := Records.UnsignedRecord(lib, e.id, e.addrs, e.now);
        assert (s.0, r) in w'.records && s.1 == Records.SignedBytes(r);
      }
    }
    assert forall k | 0 <= k < |w.instances| :: Authenticated(lib, w, w.instances[k]);
  }

  lemma BeginKeepsInv(lib: Library, w: World, e: Event)
    requires Inv(lib, w) && e.Begin? && Possible(lib, w, e)
    ensures Inv(lib, After(lib, w, e))
  {
    var w' := After(lib, w, e);
    forall s | s in w'.signed
      ensures Accounted(lib, w', s.0, s.1)
    {
      assert Accounted(lib, w, s.0, s.1);
      if exists j :: 0 <= j < |w.instances| && SignedInHandshake(lib, w, s.0, s.1, j) {
        var j :| 0 <= j < |w.instances| && SignedInHandshake(lib, w, s.0, s.1, j);
        assert SignedInHandshake(lib, w', s.0, s.1, j);
      }
    }
    assert forall k | 0 <= k < |w.instances| :: Authenticated(lib, w, w.instances[k]);
  }

  lemma {:induction false} RunKeepsInv(lib: Library, worlds: seq<World>, events: seq<Event>, n: nat)
    requires WorldRun(lib, worlds, events) && n < |worlds|
    ensures Inv(lib, worlds[n])
  {
    if n > 0 {
      RunKeepsInv(lib, worlds, events, n - 1);
      var e := events[n - 1];
      assert Possible(lib, worlds[n - 1], e) && worlds[n] == After(lib, worlds[n - 1], e);
      match e {
        case Begin(_, _) => BeginKeepsInv(lib, worlds[n - 1], e);
        case Inject(k, frame, coins) => InjectKeepsInv(lib, worlds[n - 1], k, frame, coins);
        case PublishRecord(_, _, _) => PublishKeepsInv(lib, worlds[n - 1], e);
      }
    }
  }

  // ---- Agreement ----

  ghost predicate Hashed(i: Instance) { Present(i.st) && i.st.transcript.Some? }

  function HashInput(i: Instance): Bytes
    requires Hashed(i)
  {
    TranscriptInput(i.st.myId, i.st.peerId.value, MyPayloads(i.st), PeerPayloads(i.st))
  }

  /** SHA-256 did not collide on two transcripts of this world. */
  ghost predicate NoCollision(lib: Library, w: World) {
    forall i, j | i in w.instances && j in w.instances && Hashed(i) && Hashed(j)
                  && lib.sha256(HashInput(i)) == lib.sha256(HashInput(j)) :: HashInput(i) == HashInput(j)
  }

  /** The two label strings differ, so an Auth signature is never a record signature. */
  lemma LabelsDiffer(digest: Digest, r: Records.AddrRecord)
    ensures AuthMessage(digest) != Records.SignedBytes(r)
  {
    assert AuthMessage(digest)[15] == AUTH_LABEL[15] == 'u' as int;
    assert Records.SignedBytes(r)[15] == Records.RECORD_SIGN_PREFIX[15] == 'd' as int;
  }

  lemma TranscriptSigner(lib: Library, w: World, pk: PubKey, digest: Digest) returns (k: nat)
    requires Accounted(lib, w, pk, AuthMessage(digest))
    ensures k < |w.instances| && SignedInHandshake(lib, w, pk, AuthMessage(digest), k)
  {
    forall r | (pk, r) in w.records
      ensures AuthMessage(digest) != Records.SignedBytes(r)
    {
      LabelsDiffer(digest, r);
    }
    k :| 0 <= k < |w.instances| && SignedInHandshake(lib, w, pk, AuthMessage(digest), k);
  }

  lemma RecordSigner(lib: Library, w: World, pk: PubKey, r: Records.AddrRecord) returns (original: Records.AddrRecord)
    requires Accounted(lib, w, pk, Records.SignedBytes(r))
    ensures (pk, original) in w.records && Records.SignedBytes(original) == Records.SignedBytes(r)
  {
    forall k | 0 <= k < |w.instances| && w.instances[k].st.transcript.Some?
      ensures AuthMessage(w.instances[k].st.transcript.value) != Records.SignedBytes(r)
    {
      LabelsDiffer(w.instances[k].st.transcript.value, r);
    }
    original :| (pk, original) in w.records && Records.SignedBytes(r) == Records.SignedBytes(original);
  }

  lemma HelloDeterminesKey(lib: Library, id: Identity, id': Identity)
    requires EncodeHello(lib, id) == EncodeHello(lib, id')
    ensures lib.publicKey(id.secretKey) == lib.publicKey(id'.secretKey)
  {
    var p := EncodeHello(lib, id);
    assert p[|p| - PUBKEY_LEN..] == lib.publicKey(id.secretKey);
    assert p[|p| - PUBKEY_LEN..] == lib.publicKey(id'.secretKey);
  }

  /** `j` holds the six payloads of `i` with the roles swapped. */
  ghost predicate Mirrors(i: State, j: State) {
    && Present(i) && Present(j) && i.transcript.Some? && j.transcript.Some?
    && MyPayloads(j) == PeerPayloads(i) && PeerPayloads(j) == MyPayloads(i)
  }

  lemma ShortPayloads(lib: Library, id: Identity, st: State)
    requires Consistent(lib, id, st) && st.transcript.Some? && |id.userName| <= MAX_USER_NAME
    ensures Short(MyPayloads(st)) && Short(PeerPayloads(st))
  {
    assert DecodeHello(lib, st.peerHelloPayload.value).Some?;
  }

  /** Equal transcripts of different devices can only be mirror images. */
  lemma EqualInputsMirror(lib: Library, i: Instance, j: Instance)
    requires Consistent(lib, i.id, i.st) && Consistent(lib, j.id, j.st) && Hashed(i) && Hashed(j)
    requires |i.id.userName| <= MAX_USER_NAME && |j.id.userName| <= MAX_USER_NAME
    requires PublicKeyOf(lib, i) != PublicKeyOf(lib, j)
    requires HashInput(i) == HashInput(j)
    ensures Mirrors(i.st, j.st) && Less(i.st.myId, i.st.peerId.value) != Less(j.st.myId, j.st.peerId.value)
  {
    var mi, pi, mj, pj := MyPayloads(i.st), PeerPayloads(i.st), MyPayloads(j.st), PeerPayloads(j.st);
    ShortPayloads(lib, i.id, i.st);
    ShortPayloads(lib, j.id, j.st);
    var lowI, lowJ := Less(i.st.myId, i.st.peerId.value), Less(j.st.myId, j.st.peerId.value);
    TranscriptInjective(if lowI then mi else pi, if lowI then pi else mi, if lowJ then mj else pj, if lowJ then pj else mj);
    if lowI == lowJ {
      assert mi[0] == mj[0];
      HelloDeterminesKey(lib, i.id, j.id);
    }
  }

  /** Mirrored payloads give the same secrets, keys and session, in opposite directions. */
  lemma MirrorsShareKeys(lib: Library, i: Instance, j: Instance)
    requires KemCorrect(lib)
    requires Consistent(lib, i.id, i.st) && Consistent(lib, j.id, j.st) && Hashed(i) && Hashed(j)
    requires Mirrors(i.st, j.st) && i.st.transcript == j.st.transcript
    requires Less(i.st.myId, i.st.peerId.value) != Less(j.st.myId, j.st.peerId.value)
    ensures i.st.keys == j.st.keys
    ensures Crossed(i.st, j.st)
  {
    SecretCrosses(lib, i, j);
    SecretCrosses(lib, j, i);
  }

  lemma SecretCrosses(lib: Library, i: Instance, j: Instance)
    requires KemCorrect(lib)
    requires Consistent(lib, i.id, i.st) && Consistent(lib, j.id, j.st) && Hashed(i) && Hashed(j)
    requires Mirrors(i.st, j.st)
    ensures i.st.ssToPeer == j.st.ssFromPeer
  {
    assert MyPayloads(j.st)[1] == PeerPayloads(i.st)[1] && PeerPayloads(j.st)[2] == MyPayloads(i.st)[2];
    var r :| i.st.myResponsePayload.value == lib.ciphertext(i.st.peerOfferPayload.value, r)
          && i.st.ssToPeer.value == lib.sharedSecret(i.st.peerOfferPayload.value, r);
    var dk := j.st.kemDk.value;
    assert lib.decapsulate(dk, lib.ciphertext(lib.encapKey(dk), r)) == lib.sharedSecret(lib.encapKey(dk), r);
  }

  /** The party that a handshake took for its peer: some handshake of that key holds the same
      six payloads with the roles swapped, and both derive the same session and opposite keys. */
  ghost predicate Partner(lib: Library, w: World, k: nat, j: nat)
    requires k < |w.instances| && Hashed(w.instances[k])
  {
    SameSession(lib, w, k, j) && Crossed(w.instances[k].st, w.instances[j].st)
  }

  /** The same payloads with the roles swapped, and the same derived keys. */
  ghost predicate SameSession(lib: Library, w: World, k: nat, j: nat)
    requires k < |w.instances| && Hashed(w.instances[k])
  {
    && j < |w.instances|
    && PublicKeyOf(lib, w.instances[j]) == w.instances[k].st.peerHello.value.pubkey
    && Mirrors(w.instances[k].st, w.instances[j].st) && w.instances[j].st.keys == w.instances[k].st.keys
  }

  predicate Crossed(i: State, j: State)
    requires Present(i) && Present(j) && i.keys.Some? && j.keys.Some?
  {
    ResultOf(j).sendKey == ResultOf(i).recvKey && ResultOf(j).recvKey == ResultOf(i).sendKey
  }

  /** A handshake whose peer presented its own key. */
  predicate WithItself(lib: Library, i: Instance)
    requires Hashed(i)
  {
    i.st.peerHello.value.pubkey == PublicKeyOf(lib, i)
  }

  /** A handshake Established with the key of an honest device other than itself has a partner. */
  lemma OthersAgree(lib: Library, w: World, k: nat) returns (partner: nat)
    requires KemCorrect(lib) && Inv(lib, w) && NoCollision(lib, w)
    requires k < |w.instances| && w.instances[k].st.step.Established? && Hashed(w.instances[k])
    requires HonestKey(lib, w, w.instances[k].st.peerHello.value.pubkey) && !WithItself(lib, w.instances[k])
    ensures Partner(lib, w, k, partner)
  {
    var i := w.instances[k];
    var pk, m := i.st.peerHello.value.pubkey, AuthMessage(i.st.transcript.value);
    assert Authenticated(lib, w, i);
    assert Accounted(lib, w, pk, m);
    partner := TranscriptSigner(lib, w, pk, i.st.transcript.value);
    var j := w.instances[partner];
    SplitAt(AUTH_LABEL, AUTH_LABEL, i.st.transcript.value, j.st.transcript.value);
    assert i in w.instances && j in w.instances && Hashed(i) && Hashed(j);
    assert lib.sha256(HashInput(i)) == lib.sha256(HashInput(j));
    EqualInputsMirror(lib, i, j);
    MirrorsShareKeys(lib, i, j);
  }

  /** With its own key for a peer, a handshake and its mirror image compare equal ids, and both
      take the same direction of the keys for sending. */
  lemma SelfSendsOneWay(lib: Library, w: World, k: nat, j: nat)
    requires Inv(lib, w) && k < |w.instances| && Hashed(w.instances[k]) && WithItself(lib, w.instances[k])
    requires SameSession(lib, w, k, j)
    ensures Crossed(w.instances[k].st, w.instances[j].st) <==> w.instances[k].st.keys.value.aToB == w.instances[k].st.keys.value.bToA
  {
    var i, p := w.instances[k], w.instances[j];
    assert PeerPayloads(p.st)[0] == MyPayloads(i.st)[0];
    assert DecodeHello(lib, EncodeHello(lib, i.id)) == p.st.peerHello;
    HelloNamesKey(lib, i.id);
    LessTotal(i.st.myId, i.st.myId);
  }

  /** In every run with arbitrary injected frames, a handshake Established with the key of an
      honest device has a partner if and only if that key is not its own, up to one accident:
      with its own key, a mirror image is a partner exactly when the two directions derived the
      same key. Nothing in the handshake compares the peer's key with the party's own. */
  lemma EstablishedAgrees(lib: Library, worlds: seq<World>, events: seq<Event>, k: nat)
    requires KemCorrect(lib) && WorldRun(lib, worlds, events)
    requires var w := worlds[|events|];
             && NoCollision(lib, w) && k < |w.instances| && w.instances[k].st.step.Established?
             && w.instances[k].st.peerHello.Some? && HonestKey(lib, w, w.instances[k].st.peerHello.value.pubkey)
    ensures var w := worlds[|events|];
            var i := w.instances[k];
            && Hashed(i) && i.st.result == Some(ResultOf(i.st))
            && ((exists j :: Partner(lib, w, k, j)) <==>
                !WithItself(lib, i) || (i.st.keys.value.aToB == i.st.keys.value.bToA && exists j :: SameSession(lib, w, k, j)))
  {
    var w := worlds[|events|];
    RunKeepsInv(lib, worlds, events, |events|);
    var i := w.instances[k];
    assert Consistent(lib, i.id, i.st);
    if WithItself(lib, i) {
      forall j | SameSession(lib, w, k, j)
        ensures Partner(lib, w, k, j) <==> i.st.keys.value.aToB == i.st.keys.value.bToA
      {
        SelfSendsOneWay(lib, w, k, j);
      }
    } else {
      var partner := OthersAgree(lib, w, k);
    }
  }

  /** In the same runs, a record that verifies under an honest device's key agrees in all
      eleven signed fields with one that device signed. */
  lemma AcceptedRecordWasSigned(lib: Library, worlds: seq<World>, events: seq<Event>, key: Bytes,
                                r: Records.AddrRecord, now: u64)
    returns (original: Records.AddrRecord)
    requires WorldRun(lib, worlds, events)
    requires Records.Verify(lib, key, r, now).Verified? && Records.Sized(r)
    requires var w, pk := worlds[|events|], Records.PubKeyOf(lib, r.pubkeyB64).value;
             HonestKey(lib, w, pk) && Unforged(lib, w, pk, Records.SignedBytes(r), lib.unbase64(r.sigB64).value)
    ensures (Records.PubKeyOf(lib, r.pubkeyB64).value, original) in worlds[|events|].records
    ensures r.(sigB64 := []) == original.(sigB64 := [])
  {
    var w := worlds[|events|];
    RunKeepsInv(lib, worlds, events, |events|);
    var pk := Records.PubKeyOf(lib, r.pubkeyB64).value;
    original := RecordSigner(lib, w, pk, r);
    Records.SignedBytesInjective(r, original);
  }
}
