/** What the derived keys are bound to. The agreement theorems say that both sides derive the
    same; this module says that what they derive depends on the transcript, on both KEM secrets
    and on the direction. HKDF is ideal on the inputs that occur: no two of them collide. */
module KeyBinding {
  import opened ByteStrings
  import opened Library
  import opened Handshake
  import opened Agreement
  import Session

  /** One HKDF output: salt, input key material, label. */
  datatype Derivation = Derivation(salt: Digest, ikm: Bytes, info: Bytes)

  ghost predicate NoHkdfCollision(lib: Library, occurring: set<Derivation>) {
    && (forall x, y | x in occurring && y in occurring && lib.hkdfKey(x.salt, x.ikm, x.info) == lib.hkdfKey(y.salt, y.ikm, y.info) :: x == y)
    && (forall x, y | x in occurring && y in occurring && lib.hkdfId(x.salt, x.ikm, x.info) == lib.hkdfId(y.salt, y.ikm, y.info) :: x == y)
  }

  const ID_LABEL: Bytes := Ascii("jeangrey/mvp1/session-id/v1")
  const A_TO_B_LABEL: Bytes := Ascii("jeangrey/mvp1/aead/a-to-b/v1")
  const B_TO_A_LABEL: Bytes := Ascii("jeangrey/mvp1/aead/b-to-a/v1")

  lemma DirectionLabelsDiffer()
    ensures A_TO_B_LABEL != B_TO_A_LABEL
  {
    assert A_TO_B_LABEL[19] == 'a' as int && B_TO_A_LABEL[19] == 'b' as int;
  }

  /** The handshake has its keys and all it derived them from. */
  ghost predicate Derived(lib: Library, st: State) {
    && Present(st) && st.transcript.Some? && st.transcript.value == TranscriptOf(lib, st) && st.keys.value == KeysOf(lib, st)
  }

  /** The input key material, whatever it is made of. */
  function Material(st: State): Bytes
    requires Present(st) && st.transcript.Some?
  {
    CombineSecrets(st.ssToPeer.value, st.ssFromPeer.value, Less(st.myId, st.peerId.value))
  }

  function DerivationsOf(st: State): set<Derivation>
    requires Present(st) && st.transcript.Some?
  {
    {Derivation(st.transcript.value, Material(st), ID_LABEL), Derivation(st.transcript.value, Material(st), A_TO_B_LABEL),
     Derivation(st.transcript.value, Material(st), B_TO_A_LABEL)}
  }

  /** The secret that the device with the lower id created, and the other one. */
  function LowerSecret(st: State): Key
    requires Present(st) && st.transcript.Some?
  {
    if Less(st.myId, st.peerId.value) then st.ssToPeer.value else st.ssFromPeer.value
  }

  function HigherSecret(st: State): Key
    requires Present(st) && st.transcript.Some?
  {
    if Less(st.myId, st.peerId.value) then st.ssFromPeer.value else st.ssToPeer.value
  }

  lemma KeysAreDerivations(lib: Library, st: State)
    requires Derived(lib, st)
    ensures var salt, ikm := st.transcript.value, Material(st);
            st.keys.value == SessionKeys(lib.hkdfId(salt, ikm, ID_LABEL), lib.hkdfKey(salt, ikm, A_TO_B_LABEL), lib.hkdfKey(salt, ikm, B_TO_A_LABEL))
  {
  }

  /** The material determines both secrets, and which is whose. */
  lemma MaterialBindsSecrets(i: State, j: State)
    requires Present(i) && i.transcript.Some? && Present(j) && j.transcript.Some? && Material(i) == Material(j)
    ensures LowerSecret(i) == LowerSecret(j) && HigherSecret(i) == HigherSecret(j)
  {
    SplitAt(HigherSecret(i), HigherSecret(j), LowerSecret(i), LowerSecret(j));
  }

  /** Two handshakes that share the session id or a key of either direction share the transcript
      and both secrets, each created by the same one of the two devices. */
  lemma SharedKeyBindsSecrets(lib: Library, i: State, j: State, occurring: set<Derivation>)
    requires Derived(lib, i) && Derived(lib, j) && NoHkdfCollision(lib, occurring)
    requires DerivationsOf(i) <= occurring && DerivationsOf(j) <= occurring
    requires || i.keys.value.sessionId == j.keys.value.sessionId
             || i.keys.value.aToB == j.keys.value.aToB || i.keys.value.bToA == j.keys.value.bToA
    ensures i.transcript == j.transcript && LowerSecret(i) == LowerSecret(j) && HigherSecret(i) == HigherSecret(j)
    ensures i.keys == j.keys
  {
    KeysAreDerivations(lib, i);
    KeysAreDerivations(lib, j);
    assert forall x | x in DerivationsOf(i) || x in DerivationsOf(j) :: x in occurring;
    assert Derivation(i.transcript.value, Material(i), ID_LABEL) in DerivationsOf(i)
        && Derivation(i.transcript.value, Material(i), A_TO_B_LABEL) in DerivationsOf(i)
        && Derivation(i.transcript.value, Material(i), B_TO_A_LABEL) in DerivationsOf(i);
    assert i.transcript == j.transcript && Material(i) == Material(j);
    MaterialBindsSecrets(i, j);
  }

  /** No key of one direction is a key of the other, in one handshake or across two. */
  lemma DirectionsDiffer(lib: Library, i: State, j: State, occurring: set<Derivation>)
    requires Derived(lib, i) && Derived(lib, j) && NoHkdfCollision(lib, occurring)
    requires DerivationsOf(i) <= occurring && DerivationsOf(j) <= occurring
    ensures i.keys.value.aToB != j.keys.value.bToA
  {
    KeysAreDerivations(lib, i);
    KeysAreDerivations(lib, j);
    DirectionLabelsDiffer();
    var x, y := Derivation(i.transcript.value, Material(i), A_TO_B_LABEL), Derivation(j.transcript.value, Material(j), B_TO_A_LABEL);
    assert x in occurring && y in occurring && x != y;
  }

  /** The device with the lower id sends under the label "a-to-b", the other under "b-to-a". */
  lemma DirectionByOrder(lib: Library, st: State)
    requires Derived(lib, st)
    ensures var salt, ikm, r := st.transcript.value, Material(st), ResultOf(st);
            && r.sendKey == lib.hkdfKey(salt, ikm, if Less(st.myId, st.peerId.value) then A_TO_B_LABEL else B_TO_A_LABEL)
            && r.recvKey == lib.hkdfKey(salt, ikm, if Less(st.myId, st.peerId.value) then B_TO_A_LABEL else A_TO_B_LABEL)
  {
    KeysAreDerivations(lib, st);
  }

  /** And it marks its frames with the low direction, the other with the high one. */
  lemma SessionDirectionByOrder(r: HandshakeResult)
    ensures var s, lower := Session.NewSession(r), Less(r.myId, r.peerId);
            && s.myDir == (if lower then [0, 1] else [0, 2]) && s.peerDir == (if lower then [0, 2] else [0, 1])
            && s.sessionId == r.keys.sessionId && s.sendKey == r.sendKey && s.recvKey == r.recvKey
            && s.outSeq == 0 && s.inSeq == 0 && s.seqViolations == 0 && s.seen == []
  {
  }

  // ---- In every run ----

  /** The inputs of every handshake of the world. */
  ghost predicate AllOccur(w: World, occurring: set<Derivation>) {
    forall i | i in w.instances && Hashed(i) :: DerivationsOf(i.st) <= occurring
  }

  lemma HashedIsDerived(lib: Library, w: World, k: nat)
    requires Inv(lib, w) && k < |w.instances| && Hashed(w.instances[k])
    ensures Derived(lib, w.instances[k].st)
  {
    assert Consistent(lib, w.instances[k].id, w.instances[k].st);
  }

  /** With arbitrary frames delivered: any two handshakes with the same session id have the same
      transcript and both secrets in common, and no two directions share a key. */
  lemma SessionIdBindsSecrets(lib: Library, worlds: seq<World>, events: seq<Event>, occurring: set<Derivation>, k: nat, j: nat)
    requires WorldRun(lib, worlds, events) && NoHkdfCollision(lib, occurring) && AllOccur(worlds[|events|], occurring)
    requires var w := worlds[|events|];
             k < |w.instances| && j < |w.instances| && Hashed(w.instances[k]) && Hashed(w.instances[j])
    ensures var s, t := worlds[|events|].instances[k].st, worlds[|events|].instances[j].st;
            && (s.keys.value.sessionId == t.keys.value.sessionId <==>
                s.transcript == t.transcript && LowerSecret(s) == LowerSecret(t) && HigherSecret(s) == HigherSecret(t))
            && s.keys.value.aToB != t.keys.value.bToA
  {
    var w := worlds[|events|];
    RunKeepsInv(lib, worlds, events, |events|);
    HashedIsDerived(lib, w, k);
    HashedIsDerived(lib, w, j);
    var s, t := w.instances[k].st, w.instances[j].st;
    assert w.instances[k] in w.instances && w.instances[j] in w.instances;
    DirectionsDiffer(lib, s, t, occurring);
    if s.keys.value.sessionId == t.keys.value.sessionId {
      SharedKeyBindsSecrets(lib, s, t, occurring);
    } else {
      KeysAreDerivations(lib, s);
      KeysAreDerivations(lib, t);
    }
  }

  /** So the accident of module Agreement does not happen: a handshake Established with an honest
      key has a partner if and only if the key is not its own. */
  lemma PartnerExactly(lib: Library, worlds: seq<World>, events: seq<Event>, occurring: set<Derivation>, k: nat)
    requires KemCorrect(lib) && WorldRun(lib, worlds, events) && NoHkdfCollision(lib, occurring) && AllOccur(worlds[|events|], occurring)
    requires var w := worlds[|events|];
             && NoCollision(lib, w) && k < |w.instances| && w.instances[k].st.step.Established?
             && w.instances[k].st.peerHello.Some? && HonestKey(lib, w, w.instances[k].st.peerHello.value.pubkey)
    ensures var w := worlds[|events|];
            Hashed(w.instances[k]) && ((exists j :: Partner(lib, w, k, j)) <==> !WithItself(lib, w.instances[k]))
  {
    EstablishedAgrees(lib, worlds, events, k);
    SessionIdBindsSecrets(lib, worlds, events, occurring, k, k);
  }
}
