/** That the node gets back to a peer (src/node.rs): what a verified record, a lost peer, a
    failed dial and a tick must do, said by their effect on the cache, the guard, the dials and
    the lookups. */
module Reconnection {
  import opened ByteStrings
  import opened Library
  import opened Lists
  import opened Records
  import L = Lookups
  import D = Rediscovery
  import opened RecordCache

  // ---- A verified record ----

  predicate Covered(st: State, peer: PeerId, sessions: set<PeerId>) { peer in st.dialing || peer in sessions }

  /** The peer is guarded and one dial is added, to its transport peer and these addresses. */
  predicate Dials(st: State, st': State, peer: PeerId, transport: PeerId, addrs: seq<Multiaddr>) {
    st'.dials == st.dials + [Dialed(peer, transport, addrs)] && st'.dialing == st.dialing + {peer}
  }

  predicate DialsNothing(st: State, st': State) { st'.dials == st.dials && st'.dialing == st.dialing }

  /** Every answer to one of our lookups that carries a record that verifies. The cache holds it
      afterwards if and only if no record of that device with a strictly later issue time was
      cached; so the very same record counts as new. Then the device is dialed, once, unless it
      is being dialed or has a session. Nothing else is dialed and no other device is touched. */
  lemma VerifiedAnswerDecides(lib: Library, st: State, id: nat, p: Progress, sessions: set<PeerId>, now: nat, v: VerifiedRecord)
    requires id in st.lookups.pending && VerifiedIn(lib, p) == Some(v)
    ensures var st' := OnProgress(lib, st, id, p, sessions, now);
            var later := v.peerId in st.records && st.records[v.peerId].issuedAt > v.issuedAt;
            && (v.peerId in st'.records && st'.records[v.peerId] == v <==> !later)
            && (later ==> st'.records == st.records)
            && (forall d | d != v.peerId :: (d in st'.records <==> d in st.records) && (d in st.records ==> st'.records[d] == st.records[d]))
            && (if !later && !Covered(st, v.peerId, sessions) then Dials(st, st', v.peerId, v.transportPeer, v.addrs) else DialsNothing(st, st'))
            && st'.retryDials == st.retryDials && st'.hadSession == st.hadSession
  {
    VerifiedShape(lib, p.key, p.record.value, p.now);
  }

  /** Any other answer leaves the cache and the dials alone. */
  lemma OtherAnswersIgnored(lib: Library, st: State, id: nat, p: Progress, sessions: set<PeerId>, now: nat)
    requires id !in st.lookups.pending || VerifiedIn(lib, p).None?
    ensures OnProgress(lib, st, id, p, sessions, now) == st.(lookups := L.OnAnswer(st.lookups, id, AnswerOf(p), now))
  {
  }

  // ---- A lost peer ----

  /** A peer that had a session and is cached is looked up again, and its cached addresses are
      queued for a dial two seconds later unless it is covered. Any other peer is let go. */
  lemma LostPeerDecides(st: State, peer: PeerId, sessions: set<PeerId>, now: nat)
    requires L.Valid(st.lookups)
    ensures var st' := OnDisconnected(st, peer, sessions, now);
            && peer !in st'.hadSession && st'.records == st.records && DialsNothing(st, st')
            && if peer in st.hadSession && peer in st.records then
                 && L.Chains(st'.lookups, peer) >= 1
                 && (L.Chains(st.lookups, peer) == 0 ==> D.Queued(st.lookups, st'.lookups, peer, 1, now + 3000, now))
                 && st'.retryDials == if Covered(st, peer, sessions) then st.retryDials
                                      else st.retryDials + [RetryDial(peer, st.records[peer].transportPeer, st.records[peer].addrs, now + 2000)]
               else st'.lookups == st.lookups && st'.retryDials == st.retryDials
  {
    D.RediscoveryStarts(st.lookups, peer, L.RECONNECT_DELAY, now);
  }

  // ---- A failed dial ----

  /** Exactly the addresses that failed leave the cached record, which goes when none is left,
      and the device is looked up again. A wrong peer id takes the whole record. Either way the
      guard is released, and nothing else changes. */
  lemma FailedDialDecides(st: State, device: PeerId, error: DialError, now: nat, seen: set<VerifiedRecord>)
    requires Inv(st, seen) && L.Valid(st.lookups)
    ensures var st' := OnDialError(st, Some(device), error, now);
            var failed := if error.TransportError? then error.failed else [];
            && st'.dialing == st.dialing - {device} && st'.dials == st.dials && st'.retryDials == st.retryDials
            && (forall d | d != device :: (d in st'.records <==> d in st.records) && (d in st.records ==> st'.records[d] == st.records[d]))
            && (device in st'.records <==>
                  device in st.records && !error.WrongPeerId? && exists a :: a in st.records[device].addrs && a !in failed)
            && (device in st'.records ==>
                  && st'.records[device] == st.records[device].(addrs := st'.records[device].addrs)
                  && forall a :: a in st'.records[device].addrs <==> a in st.records[device].addrs && a !in failed)
            && (if failed != [] then L.Chains(st'.lookups, device) >= 1 else st'.lookups == st.lookups)
            && (failed != [] && L.Chains(st.lookups, device) == 0 ==> D.Queued(st.lookups, st'.lookups, device, 1, now + 1000, now))
  {
    D.RediscoveryStarts(st.lookups, device, L.LOOKUP_RETRY_DELAY, now);
    if device in st.records {
      assert Usable(device, st.records[device], seen);
      assert st.records[device].addrs[0] in st.records[device].addrs;
      if error.TransportError? {
        InvalidatedRecord(st, device, error.failed);
      }
    }
  }

  lemma InvalidatedRecord(st: State, device: PeerId, failed: seq<Multiaddr>)
    requires device in st.records && st.records[device].addrs != []
    ensures var st', addrs := Invalidate(st, device, failed), st.records[device].addrs;
            && st' == st.(records := st'.records)
            && (device in st'.records <==> exists a :: a in addrs && a !in failed)
            && (device in st'.records ==>
                  && st'.records[device] == st.records[device].(addrs := st'.records[device].addrs)
                  && forall a :: a in st'.records[device].addrs <==> a in addrs && a !in failed)
  {
    var addrs := st.records[device].addrs;
    SurvivingFacts(addrs, failed);
    SameLengthSurvive(addrs, failed);
    assert addrs[0] in addrs;
    var left := Surviving(addrs, failed);
    assert left != [] ==> left[0] in left;
  }

  // ---- The guard ----

  /** A session, and the loss of it: the peer can be dialed again from the moment its session
      comes up, and a cached one is both looked up and queued for a dial when it goes. */
  lemma SessionThenLoss(st: State, peer: PeerId, sessions: set<PeerId>, now: nat)
    requires L.Valid(st.lookups) && peer in st.records && peer !in sessions
    ensures var st1 := OnEstablished(st, peer);
            && st1.dialing == st.dialing - {peer} && st1 == st.(dialing := st1.dialing, hadSession := st1.hadSession)
            && forall p :: p in st1.hadSession <==> p in st.hadSession || p == peer
    ensures var st2 := OnDisconnected(OnEstablished(st, peer), peer, sessions, now);
            && L.Chains(st2.lookups, peer) >= 1
            && st2.retryDials == st.retryDials + [RetryDial(peer, st.records[peer].transportPeer, st.records[peer].addrs, now + 2000)]
  {
    LostPeerDecides(OnEstablished(st, peer), peer, sessions, now);
  }

  /** A closed connection releases the guard of its device, so the next record that verifies for
      it is dialed. */
  lemma ClosedThenVerified(lib: Library, st: State, id: nat, p: Progress, sessions: set<PeerId>, now: nat, v: VerifiedRecord)
    requires id in st.lookups.pending && VerifiedIn(lib, p) == Some(v) && v.peerId !in sessions
    requires v.peerId in st.records ==> st.records[v.peerId].issuedAt <= v.issuedAt
    ensures var closed := OnConnectionClosed(st, Some(v.peerId));
            closed == st.(dialing := st.dialing - {v.peerId})
            && Dials(closed, OnProgress(lib, closed, id, p, sessions, now), v.peerId, v.transportPeer, v.addrs)
    ensures OnConnectionClosed(st, None) == st
  {
    VerifiedAnswerDecides(lib, OnConnectionClosed(st, Some(v.peerId)), id, p, sessions, now, v);
  }

  // ---- A tick ----

  /** One due re-dial: its peer is dialed unless it is covered. */
  lemma DueDialDecides(st: State, sessions: set<PeerId>)
    requires st.retryDials != [] && st.retryDials[0].addrs != []
    ensures var st', r := FireFront(st, sessions), st.retryDials[0];
            && st'.retryDials == st.retryDials[1..] && st'.records == st.records && st'.lookups == st.lookups
            && if Covered(st, r.peer, sessions) then DialsNothing(st, st') else Dials(st, st', r.peer, r.transport, r.addrs)
  {
  }

  /** After a tick the peer of every re-dial that was due has a session or is being dialed. */
  lemma {:induction false} DueArePursued(st: State, sessions: set<PeerId>, now: nat, i: nat)
    requires i < |st.retryDials| - |FireDue(st, sessions, now).retryDials|
    ensures st.retryDials[i].peer in sessions || st.retryDials[i].peer in FireDue(st, sessions, now).dialing
    decreases |st.retryDials|
  {
    if st.retryDials != [] && st.retryDials[0].nextAt <= now {
      FrontPopped(st, sessions);
      var st1 := FireFront(st, sessions);
      FireKeepsGuards(st1, sessions, now);
      FirePops(st1, sessions, now);
      if i > 0 {
        DueArePursued(st1, sessions, now, i - 1);
        assert st1.retryDials[i - 1] == st.retryDials[i];
      }
    }
  }

  lemma {:induction false} FireKeepsGuards(st: State, sessions: set<PeerId>, now: nat)
    ensures st.dialing <= FireDue(st, sessions, now).dialing
    decreases |st.retryDials|
  {
    if st.retryDials != [] && st.retryDials[0].nextAt <= now {
      FrontPopped(st, sessions);
      FireKeepsGuards(FireFront(st, sessions), sessions, now);
    }
  }

  // ---- Runs of the node ----

  /** The state after the first n actions. */
  function At(lib: Library, run: seq<Timed>, n: nat): State
    requires n <= |run|
  {
    Run(lib, run[..n])
  }

  ghost predicate QueriedDuring(lib: Library, run: seq<Timed>, m: nat, n: nat, peer: PeerId)
    requires n <= |run|
  {
    exists i :: m <= i < n && D.QueriedIn(At(lib, run, i).lookups, At(lib, run, i + 1).lookups, peer)
  }

  lemma NextState(lib: Library, run: seq<Timed>, n: nat)
    requires n < |run|
    ensures At(lib, run, n + 1) == Apply(lib, At(lib, run, n), run[n]) && L.Valid(At(lib, run, n).lookups)
  {
    assert run[..n + 1][..n] == run[..n] && run[..n + 1][n] == run[n];
    NodeQueriesBounded(lib, run[..n], []);
  }

  lemma {:induction false} WaitsOrQueried(lib: Library, run: seq<Timed>, m: nat, n: nat, peer: PeerId, since: nat)
    requires m <= n <= |run| && D.Waiting(At(lib, run, m).lookups, peer, since)
    ensures D.Waiting(At(lib, run, n).lookups, peer, since) || QueriedDuring(lib, run, m, n, peer)
    decreases n - m
  {
    if n > m {
      WaitsOrQueried(lib, run, m, n - 1, peer, since);
      var st, t := At(lib, run, n - 1), run[n - 1];
      if D.Waiting(st.lookups, peer, since) {
        NextState(lib, run, n - 1);
        ApplyLookups(lib, st, t);
        if LookupStep(st, t).Some? {
          D.StepWaiting(st.lookups, LookupStep(st, t).value, peer, since);
        }
      }
    }
  }

  /** The action calls for a rediscovery of `peer`: a cached peer lost its session, or a dial to
      it failed at some address. */
  predicate CallsForRediscovery(st: State, t: Timed, peer: PeerId) {
    || (t.action.DoDisconnected? && t.action.peer == peer && peer in st.hadSession && peer in st.records)
    || (t.action.DoDialError? && t.action.device == Some(peer) && t.action.error.TransportError? && t.action.error.failed != [])
  }

  lemma RediscoveryRuns(lib: Library, run: seq<Timed>, m: nat, peer: PeerId)
    requires InOrder(run) && m < |run| && CallsForRediscovery(At(lib, run, m), run[m], peer)
    ensures D.Outstanding(At(lib, run, m).lookups, peer) || D.Waiting(At(lib, run, m + 1).lookups, peer, run[m].at)
  {
    var st := At(lib, run, m);
    NextState(lib, run, m);
    ApplyLookups(lib, st, run[m]);
    LookupsOnTime(lib, run, m);
    D.RediscoveryWaits(st.lookups, peer, LookupStep(st, run[m]).value.action.delay, run[m].at);
  }

  lemma LookupsOnTime(lib: Library, run: seq<Timed>, m: nat)
    requires InOrder(run) && m < |run|
    ensures L.OnTime(At(lib, run, m).lookups, run[m].at)
  {
    var front := run[..m];
    var steps := LookupRun(lib, front);
    LookupsAreARun(lib, front);
    LookupRunInOrder(lib, front);
    L.RunOnTime(steps);
    D.LaterOnTime(L.Run(L.EMPTY, steps), if steps == [] then 0 else steps[|steps| - 1].at, run[m].at);
  }

  lemma OldRetriesGone(lib: Library, run: seq<Timed>, n: nat, peer: PeerId, since: nat)
    requires InOrder(run) && n < |run| && run[n].action.DoReissue? && run[n].at >= since + L.RECONNECT_DELAY
    ensures !D.Waiting(At(lib, run, n + 1).lookups, peer, since)
  {
    NodeTickReleases(lib, run[..n + 1]);
  }

  /** In every run of the node: a cached peer that lost its session, or to which a dial failed,
      is queried again by the first tick three seconds or more later, unless a query for it was
      already outstanding. */
  lemma LostPeerIsQueriedAgain(lib: Library, run: seq<Timed>, m: nat, n: nat, peer: PeerId)
    requires InOrder(run) && m < n < |run| && CallsForRediscovery(At(lib, run, m), run[m], peer)
    requires run[n].action.DoReissue? && run[n].at >= run[m].at + L.RECONNECT_DELAY
    ensures D.Outstanding(At(lib, run, m).lookups, peer) || QueriedDuring(lib, run, m + 1, n + 1, peer)
  {
    RediscoveryRuns(lib, run, m, peer);
    if !D.Outstanding(At(lib, run, m).lookups, peer) {
      WaitsOrQueried(lib, run, m + 1, n + 1, peer, run[m].at);
      OldRetriesGone(lib, run, n, peer, run[m].at);
    }
  }
}
