/** The handshake does not notice its own reflection: fed its own five frames, a device that
    expects nobody in particular is established with itself. */
module Reflection {
  import opened ByteStrings
  import opened Framing
  import opened Library
  import opened Handshake
  import opened HandshakePair
  import opened Agreement

  /** The world of one device that has been fed its own first n - 1 frames. */
  function WorldAfter(lib: Library, me: Party, n: nat): World {
    World({me.id}, if n == 0 then [] else [Instance(me.id, StateAt(lib, me, me, n - 1))],
          if n < 4 then {} else {(lib.publicKey(me.id.secretKey), AuthMessage(PairTranscript(lib, me, me)))}, {})
  }

  function EventAt(lib: Library, me: Party, n: nat): Event
    requires n < 6
  {
    if n == 0 then Begin(me.id, me.expected) else Inject(0, FrameOf(lib, me, me, n - 1), me.coins)
  }

  lemma Reflects(lib: Library, me: Party, k: nat)
    requires Meet(lib, me, me) && k < 5
    ensures Takes(lib, me, me, k)
  {
    MeetingStep(lib, me, me, k);
  }

  lemma BeginStep(lib: Library, me: Party)
    ensures Possible(lib, WorldAfter(lib, me, 0), EventAt(lib, me, 0))
    ensures WorldAfter(lib, me, 1) == After(lib, WorldAfter(lib, me, 0), EventAt(lib, me, 0))
  {
  }

  /** The only signature ever checked is one the device has made. */
  lemma ReflectionPossible(lib: Library, me: Party, n: nat)
    requires 1 <= n < 6
    ensures Possible(lib, WorldAfter(lib, me, n), EventAt(lib, me, n))
  {
    StatePresent(lib, me, me, n - 1);
  }

  lemma ReflectionStep(lib: Library, me: Party, n: nat)
    requires Meet(lib, me, me) && 1 <= n < 6
    ensures Possible(lib, WorldAfter(lib, me, n), EventAt(lib, me, n))
    ensures WorldAfter(lib, me, n + 1) == After(lib, WorldAfter(lib, me, n), EventAt(lib, me, n))
  {
    ReflectionPossible(lib, me, n);
    Reflects(lib, me, n - 1);
    SignsOnce(lib, me, n);
  }

  /** The transcript appears with the third frame. */
  lemma SignsOnce(lib: Library, me: Party, n: nat)
    requires 1 <= n < 6
    ensures var st, st' := StateAt(lib, me, me, n - 1), StateAt(lib, me, me, n);
            && (st.transcript.None? && st'.transcript.Some? <==> n == 3)
            && (st'.transcript.Some? ==> st'.transcript.value == PairTranscript(lib, me, me))
  {
  }

  /** One handshake, Established with the device's own key and id for a peer; it is its own
      mirror image. */
  ghost predicate EstablishedWithItself(lib: Library, w: World) {
    && |w.instances| == 1 && Hashed(w.instances[0]) && WithItself(lib, w.instances[0])
    && w.instances[0].st.step.Established? && w.instances[0].st.peerId == Some(w.instances[0].st.myId)
    && SameSession(lib, w, 0, 0)
  }

  lemma StateMirrorsItself(lib: Library, me: Party)
    ensures Mirrors(StateAt(lib, me, me, 5), StateAt(lib, me, me, 5))
  {
    StatePresent(lib, me, me, 5);
  }

  lemma OneInstanceNoCollision(lib: Library, w: World)
    requires |w.instances| == 1
    ensures NoCollision(lib, w)
  {
  }

  lemma FinalReflection(lib: Library, me: Party)
    ensures EstablishedWithItself(lib, WorldAfter(lib, me, 6))
    ensures var w := WorldAfter(lib, me, 6); NoCollision(lib, w) && HonestKey(lib, w, lib.publicKey(me.id.secretKey))
  {
    var w := WorldAfter(lib, me, 6);
    StatePresent(lib, me, me, 5);
    StateMirrorsItself(lib, me);
    OneInstanceNoCollision(lib, w);
    assert me.id in w.devices;
  }

  lemma ReflectionRuns(lib: Library, me: Party) returns (worlds: seq<World>, events: seq<Event>)
    requires Meet(lib, me, me)
    ensures WorldRun(lib, worlds, events) && |events| == 6 && worlds[6] == WorldAfter(lib, me, 6)
  {
    worlds := seq(7, n requires 0 <= n < 7 => WorldAfter(lib, me, n));
    events := seq(6, n requires 0 <= n < 6 => EventAt(lib, me, n));
    forall n | 0 <= n < 6
      ensures Possible(lib, worlds[n], events[n]) && worlds[n + 1] == After(lib, worlds[n], events[n])
    {
      if n == 0 {
        BeginStep(lib, me);
      } else {
        ReflectionStep(lib, me, n);
      }
    }
    StartsFresh(lib, me);
  }

  lemma StartsFresh(lib: Library, me: Party)
    requires Meet(lib, me, me)
    ensures InitialWorld(WorldAfter(lib, me, 0))
  {
  }

  /** The reflected run, and where it ends: Established with itself. There is no partner with
      the opposite directions, unless both directions derived the same key. */
  lemma ReflectionEstablishes(lib: Library, me: Party) returns (worlds: seq<World>, events: seq<Event>)
    requires Meet(lib, me, me)
    ensures WorldRun(lib, worlds, events) && |events| == 6 && EstablishedWithItself(lib, worlds[6])
    ensures var keys := worlds[6].instances[0].st.keys.value;
            (exists j :: Partner(lib, worlds[6], 0, j)) <==> keys.aToB == keys.bToA
  {
    worlds, events := ReflectionRuns(lib, me);
    FinalReflection(lib, me);
    EstablishedAgrees(lib, worlds, events, 0);
  }

  // ---- Two handshakes of one device with each other ----

  function HashedBy(lib: Library, me: Party, peer: Party): Bytes {
    TranscriptInput(DeviceId(lib, me.id), DeviceId(lib, peer.id), PayloadsOf(lib, me, peer), PayloadsOf(lib, peer, me))
  }

  /** With equal ids both sides hash the other's payloads first, so they hash the same bytes if
      and only if their payloads are the same. */
  lemma SameIdTranscripts(lib: Library, me: Party, peer: Party)
    requires DeviceId(lib, me.id) == DeviceId(lib, peer.id) && |me.id.userName| <= MAX_USER_NAME && |peer.id.userName| <= MAX_USER_NAME
    requires lib.sha256(HashedBy(lib, me, peer)) == lib.sha256(HashedBy(lib, peer, me)) ==> HashedBy(lib, me, peer) == HashedBy(lib, peer, me)
    ensures PairTranscript(lib, me, peer) == PairTranscript(lib, peer, me) <==> PayloadsOf(lib, me, peer) == PayloadsOf(lib, peer, me)
  {
    var mine, theirs := PayloadsOf(lib, me, peer), PayloadsOf(lib, peer, me);
    LessTotal(DeviceId(lib, me.id), DeviceId(lib, me.id));
    if HashedBy(lib, me, peer) == HashedBy(lib, peer, me) {
      TranscriptInjective(theirs, mine, mine, theirs);
    }
  }

  /** So a device connected to itself does not get past Auth, unless both handshakes made the
      same payloads: the signature is over another transcript. */
  lemma SelfConnectionStops(lib: Library, me: Party, peer: Party)
    requires DeviceId(lib, me.id) == DeviceId(lib, peer.id) && |me.id.userName| <= MAX_USER_NAME && |peer.id.userName| <= MAX_USER_NAME
    requires lib.sha256(HashedBy(lib, me, peer)) == lib.sha256(HashedBy(lib, peer, me)) ==> HashedBy(lib, me, peer) == HashedBy(lib, peer, me)
    requires var signed, checked := AuthMessage(PairTranscript(lib, peer, me)), AuthMessage(PairTranscript(lib, me, peer));
             lib.verify(lib.publicKey(peer.id.secretKey), checked, FrameOf(lib, peer, me, 3).payload) <==> signed == checked
    ensures Present(StateAt(lib, me, peer, 3))
    ensures OnFrame(lib, me.id, StateAt(lib, me, peer, 3), FrameOf(lib, peer, me, 3), me.coins).reaction
            == if PayloadsOf(lib, me, peer) == PayloadsOf(lib, peer, me) then ReactionAt(lib, me, peer, 3) else Failed(BadSignature)
  {
    var mine, theirs := PairTranscript(lib, me, peer), PairTranscript(lib, peer, me);
    StatePresent(lib, me, peer, 3);
    SameIdTranscripts(lib, me, peer);
    if AuthMessage(mine) == AuthMessage(theirs) {
      SplitAt(AUTH_LABEL, AUTH_LABEL, mine, theirs);
    }
  }
}
