/** The cache of verified records, the dial guard, the scheduled re-dials and the lookups they
    call for (src/node.rs). */
module RecordCache {
  import opened ByteStrings
  import opened Library
  import opened Lists
  import opened Records
  import L = Lookups

  const RECONNECT_DIAL_DELAY: nat := 2000

  datatype RetryDial = RetryDial(peer: PeerId, transport: PeerId, addrs: seq<Multiaddr>, nextAt: nat)
  datatype Dialed = Dialed(peer: PeerId, transport: PeerId, addrs: seq<Multiaddr>)
  datatype DialError = TransportError(failed: seq<Multiaddr>) | WrongPeerId | OtherError

  /** `dials` is every dial handed to the swarm. */
  datatype State = State(
    records: map<PeerId, VerifiedRecord>, dialing: set<PeerId>, hadSession: set<PeerId>,
    retryDials: seq<RetryDial>, dials: seq<Dialed>, lookups: L.State)

  const EMPTY: State := State(map[], {}, {}, [], [], L.EMPTY)

  /** What a DHT query came back with; `record` is None when its bytes do not parse. */
  datatype Progress = FoundRecord(key: Bytes, record: Option<AddrRecord>, now: u64) | NoRecord | OtherResult

  function AnswerOf(p: Progress): L.Answer {
    match p
    case FoundRecord(_, _, _) => L.Found
    case NoRecord => L.Missing
    case OtherResult => L.Unrelated
  }

  /** The verified record in an answer. */
  function VerifiedIn(lib: Library, p: Progress): Option<VerifiedRecord> {
    if p.FoundRecord? && p.record.Some? then
      match Verify(lib, p.key, p.record.value, p.now)
      case Verified(v) => Some(v)
      case Refused(_) => None
    else None
  }

  /** A dial with no address sets the guard but queues nothing. */
  function DialPeer(st: State, peer: PeerId, transport: PeerId, addrs: seq<Multiaddr>): State {
    if peer in st.dialing then st
    else st.(dialing := st.dialing + {peer}, dials := if addrs == [] then st.dials else st.dials + [Dialed(peer, transport, addrs)])
  }

  function OnVerified(st: State, v: VerifiedRecord, sessions: set<PeerId>): State {
    if v.peerId in st.records && st.records[v.peerId].issuedAt > v.issuedAt then st
    else
      var st1 := st.(records := st.records[v.peerId := v]);
      if v.peerId in st.dialing || v.peerId in sessions then st1 else DialPeer(st1, v.peerId, v.transportPeer, v.addrs)
  }

  function Surviving(addrs: seq<Multiaddr>, failed: seq<Multiaddr>): seq<Multiaddr>
    decreases |addrs|
  {
    if addrs == [] then []
    else
      var before := Surviving(addrs[..|addrs| - 1], failed);
      if addrs[|addrs| - 1] in failed then before else before + [addrs[|addrs| - 1]]
  }

  function Invalidate(st: State, device: PeerId, failed: seq<Multiaddr>): State {
    if failed == [] || device !in st.records then st
    else
      var left := Surviving(st.records[device].addrs, failed);
      if |left| == |st.records[device].addrs| then st
      else if left == [] then st.(records := st.records - {device})
      else st.(records := st.records[device := st.records[device].(addrs := left)])
  }

  /** Progress of a query that is not a lookup of ours is ignored. */
  function OnProgress(lib: Library, st: State, id: nat, p: Progress, sessions: set<PeerId>, now: nat): State {
    if id !in st.lookups.pending then st
    else
      var st1 := st.(lookups := L.OnAnswer(st.lookups, id, AnswerOf(p), now));
      var v := VerifiedIn(lib, p);
      if v.Some? then OnVerified(st1, v.value, sessions) else st1
  }

  /** Re-dials the cached addresses and, in parallel, looks the record up again. */
  function ScheduleReconnect(st: State, peer: PeerId, sessions: set<PeerId>, now: nat): State {
    if peer !in st.records then st
    else
      var r := st.records[peer];
      var st1 := if peer in st.dialing || peer in sessions then st
                 else st.(retryDials := st.retryDials + [RetryDial(peer, r.transportPeer, r.addrs, now + RECONNECT_DIAL_DELAY)]);
      st1.(lookups := L.ScheduleRediscovery(st.lookups, peer, L.RECONNECT_DELAY, now))
  }

  function OnDisconnected(st: State, peer: PeerId, sessions: set<PeerId>, now: nat): State {
    if peer in st.hadSession then ScheduleReconnect(st.(hadSession := st.hadSession - {peer}), peer, sessions, now) else st
  }

  function OnEstablished(st: State, peer: PeerId): State {
    st.(hadSession := st.hadSession + {peer}, dialing := st.dialing - {peer})
  }

  function OnConnectionClosed(st: State, device: Option<PeerId>): State {
    if device.Some? then st.(dialing := st.dialing - {device.value}) else st
  }

  /** Addresses that failed leave the cache and the record is looked up again; a wrong peer id
      condemns the whole record. */
  function OnDialError(st: State, device: Option<PeerId>, error: DialError, now: nat): State {
    if device.None? then st
    else
      var d := device.value;
      var st1 := match error
                 case TransportError(failed) =>
                   if failed == [] then st
                   else Invalidate(st, d, failed).(lookups := L.ScheduleRediscovery(st.lookups, d, L.LOOKUP_RETRY_DELAY, now))
                 case WrongPeerId => st.(records := st.records - {d})
                 case OtherError => st;
      st1.(dialing := st1.dialing - {d})
  }

  function FireFront(st: State, sessions: set<PeerId>): State
    requires st.retryDials != []
  {
    var r := st.retryDials[0];
    var st1 := st.(retryDials := st.retryDials[1..]);
    if r.peer in sessions || r.peer in st.dialing then st1 else DialPeer(st1, r.peer, r.transport, r.addrs)
  }

  /** The maintenance loop over the re-dials. */
  function FireDue(st: State, sessions: set<PeerId>, now: nat): State
    decreases |st.retryDials|
  {
    if st.retryDials == [] || st.retryDials[0].nextAt > now then st else FireDue(FireFront(st, sessions), sessions, now)
  }

  // ---- The object the program updates in place ----

  class Reconnector {
    var records: map<PeerId, VerifiedRecord>
    var dialing: set<PeerId>
    var hadSession: set<PeerId>
    var retryDials: seq<RetryDial>
    var dials: seq<Dialed>
    const scheduler: L.LookupScheduler

    ghost function View(): State
      reads this, scheduler
    {
      State(records, dialing, hadSession, retryDials, dials, scheduler.View())
    }

    constructor ()
      ensures View() == EMPTY && fresh(scheduler)
    {
      records, dialing, hadSession, retryDials, dials := map[], {}, {}, [], [];
      scheduler := new L.LookupScheduler();
    }

    method QueryProgressed(lib: Library, id: nat, p: Progress, sessions: set<PeerId>, now: nat)
      modifies this`records, this`dialing, this`dials, scheduler
      ensures View() == OnProgress(lib, old(View()), id, p, sessions, now)
    {
      if id !in scheduler.pending {
        return;
      }
      scheduler.QueryProgressed(id, AnswerOf(p), now);
      if p.FoundRecord? && p.record.Some? {
        var verdict := VerifyAddrRecord(lib, p.key, p.record.value, p.now);
        if verdict.Verified? {
          RecordVerified(verdict.record, sessions);
        }
      }
    }

    method Dial(peer: PeerId, transport: PeerId, addrs: seq<Multiaddr>)
      modifies this`dialing, this`dials
      ensures View() == DialPeer(old(View()), peer, transport, addrs)
    {
      if peer in dialing {
        return;
      }
      dialing := dialing + {peer};
      if addrs != [] {
        dials := dials + [Dialed(peer, transport, addrs)];
      }
    }

    method RecordVerified(v: VerifiedRecord, sessions: set<PeerId>)
      modifies this`records, this`dialing, this`dials
      ensures View() == OnVerified(old(View()), v, sessions)
    {
      if v.peerId in records && !(records[v.peerId].issuedAt <= v.issuedAt) {
        return;
      }
      var dial := v.peerId !in dialing && v.peerId !in sessions;
      records := records[v.peerId := v];
      if dial {
        Dial(v.peerId, v.transportPeer, v.addrs);
      }
    }

    method InvalidateCandidates(device: PeerId, failed: seq<Multiaddr>)
      modifies this`records
      ensures View() == Invalidate(old(View()), device, failed)
    {
      if failed == [] || device !in records {
        return;
      }
      var addrs := records[device].addrs;
      var left: seq<Multiaddr> := [];
      for i := 0 to |addrs|
        invariant left == Surviving(addrs[..i], failed)
      {
        assert addrs[..i + 1][..i] == addrs[..i];
        if addrs[i] !in failed {
          left := left + [addrs[i]];
        }
      }
      assert addrs[..|addrs|] == addrs;
      if |left| == |addrs| {
        return;
      }
      if left == [] {
        records := records - {device};
      } else {
        records := records[device := records[device].(addrs := left)];
      }
    }

    method PeerDisconnected(peer: PeerId, sessions: set<PeerId>, now: nat)
      modifies this`hadSession, this`retryDials, scheduler
      ensures View() == OnDisconnected(old(View()), peer, sessions, now)
    {
      if peer in hadSession {
        hadSession := hadSession - {peer};
        if peer in records {
          var record := records[peer];
          if peer !in dialing && peer !in sessions {
            retryDials := retryDials + [RetryDial(peer, record.transportPeer, record.addrs, now + RECONNECT_DIAL_DELAY)];
          }
          scheduler.Rediscover(peer, L.RECONNECT_DELAY, now);
        }
      }
    }

    method SessionEstablished(peer: PeerId)
      modifies this`hadSession, this`dialing
      ensures View() == OnEstablished(old(View()), peer)
    {
      hadSession := hadSession + {peer};
      dialing := dialing - {peer};
    }

    method ConnectionClosed(device: Option<PeerId>)
      modifies this`dialing
      ensures View() == OnConnectionClosed(old(View()), device)
    {
      if device.Some? {
        dialing := dialing - {device.value};
      }
    }

    method DialFailed(device: Option<PeerId>, error: DialError, now: nat)
      modifies this`records, this`dialing, scheduler
      ensures View() == OnDialError(old(View()), device, error, now)
    {
      if device.None? {
        return;
      }
      match error {
        case TransportError(failed) =>
          if failed != [] {
            InvalidateCandidates(device.value, failed);
            scheduler.Rediscover(device.value, L.LOOKUP_RETRY_DELAY, now);
          }
        case WrongPeerId => records := records - {device.value};
        case OtherError =>
      }
      dialing := dialing - {device.value};
    }

    method FireRedials(sessions: set<PeerId>, now: nat)
      modifies this`retryDials, this`dialing, this`dials
      ensures View() == FireDue(old(View()), sessions, now)
    {
      while retryDials != []
        invariant FireDue(View(), sessions, now) == FireDue(old(View()), sessions, now)
        decreases |retryDials|
      {
        if retryDials[0].nextAt > now {
          break;
        }
        var r := retryDials[0];
        ghost var st := View();
        retryDials := retryDials[1..];
        if r.peer !in sessions && r.peer !in dialing {
          Dial(r.peer, r.transport, r.addrs);
        }
        assert View() == FireFront(st, sessions);
      }
    }
  }

  // ---- The invariant ----

  /** The cached record is the verified record `v`, possibly with fewer addresses. */
  ghost predicate Trimmed(r: VerifiedRecord, v: VerifiedRecord) {
    r == v.(addrs := r.addrs) && forall a | a in r.addrs :: a in v.addrs
  }

  ghost predicate FromVerified(r: VerifiedRecord, seen: set<VerifiedRecord>) {
    exists v :: v in seen && Trimmed(r, v)
  }

  ghost predicate Usable(peer: PeerId, r: VerifiedRecord, seen: set<VerifiedRecord>) {
    r.peerId == peer && r.addrs != [] && Distinct(r.addrs) && FromVerified(r, seen)
  }

  /** `seen` are the records verified so far. */
  ghost predicate Inv(st: State, seen: set<VerifiedRecord>) {
    && (forall d | d in st.records :: Usable(d, st.records[d], seen))
    && (forall i | 0 <= i < |st.retryDials| :: st.retryDials[i].addrs != [])
    && (forall i | 0 <= i < |st.dials| :: st.dials[i].addrs != [])
  }

  /** Every peer newly guarded has a dial queued in the same step; nothing queued is lost. */
  ghost predicate GuardsMatchDials(st: State, st': State) {
    && st.dials <= st'.dials
    && forall p | p in st'.dialing && p !in st.dialing :: exists i :: |st.dials| <= i < |st'.dials| && st'.dials[i].peer == p
  }

  /** A record that stays cached never gets older. */
  ghost predicate NeverOlder(st: State, st': State) {
    forall d | d in st.records && d in st'.records :: st.records[d].issuedAt <= st'.records[d].issuedAt
  }

  lemma DialKeeps(st: State, peer: PeerId, transport: PeerId, addrs: seq<Multiaddr>, seen: set<VerifiedRecord>)
    requires Inv(st, seen) && addrs != []
    ensures Inv(DialPeer(st, peer, transport, addrs), seen) && GuardsMatchDials(st, DialPeer(st, peer, transport, addrs))
    ensures DialPeer(st, peer, transport, addrs).records == st.records
  {
    var st' := DialPeer(st, peer, transport, addrs);
    if peer !in st.dialing {
      assert st'.dials[|st.dials|].peer == peer;
    }
  }

  lemma MoreSeen(st: State, seen: set<VerifiedRecord>, more: set<VerifiedRecord>)
    requires Inv(st, seen)
    ensures Inv(st, seen + more)
  {
    forall d | d in st.records
      ensures FromVerified(st.records[d], seen + more)
    {
      assert Usable(d, st.records[d], seen);
      var w :| w in seen && Trimmed(st.records[d], w);
      assert w in seen + more;
    }
  }

  lemma VerifiedKeeps(st: State, v: VerifiedRecord, sessions: set<PeerId>, seen: set<VerifiedRecord>)
    requires Inv(st, seen) && v.addrs != [] && Distinct(v.addrs)
    ensures var st' := OnVerified(st, v, sessions);
            Inv(st', seen + {v}) && GuardsMatchDials(st, st') && NeverOlder(st, st')
  {
    MoreSeen(st, seen, {v});
    assert v in seen + {v} && Trimmed(v, v);
    var st1 := st.(records := st.records[v.peerId := v]);
    assert Usable(v.peerId, v, seen + {v});
    assert Inv(st1, seen + {v});
    if v.peerId !in st.dialing {
      DialKeeps(st1, v.peerId, v.transportPeer, v.addrs, seen + {v});
    }
  }

  lemma {:induction false} SurvivingFacts(addrs: seq<Multiaddr>, failed: seq<Multiaddr>)
    ensures forall a :: a in Surviving(addrs, failed) <==> a in addrs && a !in failed
    ensures Distinct(addrs) ==> Distinct(Surviving(addrs, failed))
    decreases |addrs|
  {
    if addrs != [] {
      var front := addrs[..|addrs| - 1];
      SurvivingFacts(front, failed);
      assert addrs == front + [addrs[|addrs| - 1]];
      assert Distinct(addrs) ==> Distinct(front) && addrs[|addrs| - 1] !in front;
    }
  }

  lemma InvalidateKeeps(st: State, device: PeerId, failed: seq<Multiaddr>, seen: set<VerifiedRecord>)
    requires Inv(st, seen)
    ensures var st' := Invalidate(st, device, failed);
            Inv(st', seen) && NeverOlder(st, st') && st' == st.(records := st'.records)
    ensures device in Invalidate(st, device, failed).records && failed != [] ==>
              forall a | a in Invalidate(st, device, failed).records[device].addrs :: a in st.records[device].addrs && a !in failed
  {
    if device in st.records {
      var r := st.records[device];
      assert Usable(device, r, seen);
      var v :| v in seen && Trimmed(r, v);
      SurvivingFacts(r.addrs, failed);
      var r' := r.(addrs := Surviving(r.addrs, failed));
      assert Trimmed(r', v);
      if |Surviving(r.addrs, failed)| == |r.addrs| {
        SameLengthSurvive(r.addrs, failed);
      }
    }
  }

  /** If nothing was dropped, no address was among the failed ones. */
  lemma {:induction false} SameLengthSurvive(addrs: seq<Multiaddr>, failed: seq<Multiaddr>)
    ensures |Surviving(addrs, failed)| <= |addrs|
    ensures |Surviving(addrs, failed)| == |addrs| ==> forall a | a in addrs :: a !in failed
    decreases |addrs|
  {
    if addrs != [] {
      var front := addrs[..|addrs| - 1];
      SameLengthSurvive(front, failed);
      assert addrs == front + [addrs[|addrs| - 1]];
    }
  }

  lemma FireFrontKeeps(st: State, sessions: set<PeerId>, seen: set<VerifiedRecord>)
    requires Inv(st, seen) && st.retryDials != []
    ensures Inv(FireFront(st, sessions), seen) && GuardsMatchDials(st, FireFront(st, sessions))
    ensures FireFront(st, sessions).records == st.records && FireFront(st, sessions).retryDials == st.retryDials[1..]
  {
    var r := st.retryDials[0];
    var st1 := st.(retryDials := st.retryDials[1..]);
    assert Inv(st1, seen);
    DialKeeps(st1, r.peer, r.transport, r.addrs, seen);
  }

  lemma {:induction false} FireDueKeeps(st: State, sessions: set<PeerId>, now: nat, seen: set<VerifiedRecord>)
    requires Inv(st, seen)
    ensures var st' := FireDue(st, sessions, now);
            Inv(st', seen) && GuardsMatchDials(st, st') && st'.records == st.records
    decreases |st.retryDials|
  {
    if st.retryDials != [] && st.retryDials[0].nextAt <= now {
      FireFrontKeeps(st, sessions, seen);
      FireDueKeeps(FireFront(st, sessions), sessions, now, seen);
      GuardsCompose(st, FireFront(st, sessions), FireDue(st, sessions, now));
    }
  }

  lemma GuardsCompose(a: State, b: State, c: State)
    requires GuardsMatchDials(a, b) && GuardsMatchDials(b, c)
    ensures GuardsMatchDials(a, c)
  {
    forall p | p in c.dialing && p !in a.dialing
      ensures exists i :: |a.dials| <= i < |c.dials| && c.dials[i].peer == p
    {
      if p in b.dialing {
        var i :| |a.dials| <= i < |b.dials| && b.dials[i].peer == p;
        assert c.dials[i].peer == p;
      } else {
        var i :| |b.dials| <= i < |c.dials| && c.dials[i].peer == p;
      }
    }
  }

  // ---- Runs ----

  datatype Action =
    | DoLookup(peer: PeerId)
    | DoProgress(id: nat, progress: Progress)
    | DoReissue
    | DhtQuery
    | DoDisconnected(peer: PeerId)
    | DoEstablished(peer: PeerId)
    | DoClosed(device: Option<PeerId>)
    | DoDialError(device: Option<PeerId>, error: DialError)
    | DoFire

  datatype Timed = Timed(at: nat, sessions: set<PeerId>, action: Action)

  /** The step of the lookup scheduler that an action amounts to, if any. */
  function LookupStep(st: State, t: Timed): Option<L.Timed> {
    match t.action
    case DoLookup(peer) => Some(L.Timed(t.at, L.DoLookup(peer)))
    case DoProgress(id, progress) => Some(L.Timed(t.at, L.DoAnswer(id, AnswerOf(progress))))
    case DoReissue => Some(L.Timed(t.at, L.DoReissue))
    case DhtQuery => Some(L.Timed(t.at, L.DhtQuery))
    case DoDisconnected(peer) =>
      if peer in st.hadSession && peer in st.records then Some(L.Timed(t.at, L.DoRediscover(peer, L.RECONNECT_DELAY))) else None
    case DoDialError(device, error) =>
      if device.Some? && error.TransportError? && error.failed != []
      then Some(L.Timed(t.at, L.DoRediscover(device.value, L.LOOKUP_RETRY_DELAY))) else None
    case _ => None
  }

  function Apply(lib: Library, st: State, t: Timed): State {
    match t.action
    case DoProgress(id, progress) => OnProgress(lib, st, id, progress, t.sessions, t.at)
    case DoDisconnected(peer) => OnDisconnected(st, peer, t.sessions, t.at)
    case DoEstablished(peer) => OnEstablished(st, peer)
    case DoClosed(device) => OnConnectionClosed(st, device)
    case DoDialError(device, error) => OnDialError(st, device, error, t.at)
    case DoFire => FireDue(st, t.sessions, t.at)
    case _ => st.(lookups := L.Apply(st.lookups, LookupStep(st, t).value))
  }

  function Run(lib: Library, run: seq<Timed>): State
    decreases |run|
  {
    if run == [] then EMPTY else Apply(lib, Run(lib, run[..|run| - 1]), run[|run| - 1])
  }

  /** The records that verified when an answer carried them. */
  function SeenIn(lib: Library, run: seq<Timed>): set<VerifiedRecord>
    decreases |run|
  {
    if run == [] then {} else SeenIn(lib, run[..|run| - 1]) + NewlySeen(lib, run[|run| - 1])
  }

  function NewlySeen(lib: Library, t: Timed): set<VerifiedRecord> {
    if t.action.DoProgress? && VerifiedIn(lib, t.action.progress).Some? then {VerifiedIn(lib, t.action.progress).value} else {}
  }

  /** What verification accepts has addresses, none twice. */
  lemma ProgressKeeps(lib: Library, st: State, id: nat, p: Progress, sessions: set<PeerId>, now: nat, seen: set<VerifiedRecord>)
    requires Inv(st, seen)
    ensures var st' := OnProgress(lib, st, id, p, sessions, now);
            var v := VerifiedIn(lib, p);
            Inv(st', seen + if v.Some? then {v.value} else {}) && GuardsMatchDials(st, st') && NeverOlder(st, st')
  {
    var v := VerifiedIn(lib, p);
    var st1 := st.(lookups := L.OnAnswer(st.lookups, id, AnswerOf(p), now));
    MoreSeen(st, seen, if v.Some? then {v.value} else {});
    if v.Some? {
      VerifiedShape(lib, p.key, p.record.value, p.now);
      VerifiedKeeps(st1, v.value, sessions, seen);
    }
  }

  lemma DialErrorKeeps(st: State, device: Option<PeerId>, error: DialError, now: nat, seen: set<VerifiedRecord>)
    requires Inv(st, seen)
    ensures var st' := OnDialError(st, device, error, now);
            Inv(st', seen) && GuardsMatchDials(st, st') && NeverOlder(st, st')
  {
    if device.Some? && error.TransportError? {
      InvalidateKeeps(st, device.value, error.failed, seen);
    }
  }

  lemma DisconnectedKeeps(st: State, peer: PeerId, sessions: set<PeerId>, now: nat, seen: set<VerifiedRecord>)
    requires Inv(st, seen)
    ensures var st' := OnDisconnected(st, peer, sessions, now);
            Inv(st', seen) && GuardsMatchDials(st, st') && NeverOlder(st, st')
  {
    if peer in st.records {
      assert Usable(peer, st.records[peer], seen);
    }
  }

  lemma CacheUntouched(st: State, st': State, seen: set<VerifiedRecord>)
    requires Inv(st, seen) && st'.records == st.records && st'.retryDials == st.retryDials
    requires st'.dials == st.dials && st'.dialing <= st.dialing
    ensures Inv(st', seen) && GuardsMatchDials(st, st') && NeverOlder(st, st')
  {
  }

  lemma ApplyKeeps(lib: Library, st: State, t: Timed, seen: set<VerifiedRecord>)
    requires Inv(st, seen)
    ensures var st' := Apply(lib, st, t);
            Inv(st', seen + NewlySeen(lib, t)) && GuardsMatchDials(st, st') && NeverOlder(st, st')
  {
    assert !t.action.DoProgress? ==> seen + NewlySeen(lib, t) == seen;
    match t.action {
      case DoProgress(id, progress) => ProgressKeeps(lib, st, id, progress, t.sessions, t.at, seen);
      case DoDialError(device, error) => DialErrorKeeps(st, device, error, t.at, seen);
      case DoFire => FireDueKeeps(st, t.sessions, t.at, seen);
      case DoDisconnected(peer) => DisconnectedKeeps(st, peer, t.sessions, t.at, seen);
      case _ => CacheUntouched(st, Apply(lib, st, t), seen);
    }
  }

  lemma {:induction false} RunKeeps(lib: Library, run: seq<Timed>)
    ensures Inv(Run(lib, run), SeenIn(lib, run))
    decreases |run|
  {
    if run != [] {
      var front, last := run[..|run| - 1], run[|run| - 1];
      RunKeeps(lib, front);
      ApplyKeeps(lib, Run(lib, front), last, SeenIn(lib, front));
    }
  }

  /** In every run, each cached record is a non-empty, duplicate-free part of a record that
      was verified for that device with that issue time; each step only makes cached records
      newer, and sets the dial guard only together with a dial that has addresses. */
  lemma CacheHoldsVerifiedRecords(lib: Library, run: seq<Timed>, n: nat)
    requires n < |run|
    ensures var st, st' := Run(lib, run[..n]), Run(lib, run[..n + 1]);
            && Inv(st', SeenIn(lib, run[..n + 1])) && NeverOlder(st, st') && GuardsMatchDials(st, st')
  {
    RunKeeps(lib, run[..n]);
    RunKeeps(lib, run[..n + 1]);
    assert run[..n + 1][..n] == run[..n];
    ApplyKeeps(lib, Run(lib, run[..n]), run[n], SeenIn(lib, run[..n]));
  }

  // ---- The lookups of a run ----

  /** The run as the lookup scheduler sees it. */
  function LookupRun(lib: Library, run: seq<Timed>): seq<L.Timed>
    decreases |run|
  {
    if run == [] then []
    else
      var front := run[..|run| - 1];
      var step := LookupStep(Run(lib, front), run[|run| - 1]);
      LookupRun(lib, front) + if step.Some? then [step.value] else []
  }

  lemma {:induction false} FireKeepsLookups(st: State, sessions: set<PeerId>, now: nat)
    ensures FireDue(st, sessions, now).lookups == st.lookups
    decreases |st.retryDials|
  {
    if st.retryDials != [] && st.retryDials[0].nextAt <= now {
      FrontPopped(st, sessions);
      FireKeepsLookups(FireFront(st, sessions), sessions, now);
    }
  }

  lemma ApplyLookups(lib: Library, st: State, t: Timed)
    ensures var step := LookupStep(st, t);
            Apply(lib, st, t).lookups == if step.Some? then L.Apply(st.lookups, step.value) else st.lookups
  {
    if t.action.DoFire? {
      FireKeepsLookups(st, t.sessions, t.at);
    }
  }

  /** Whatever the cache and the dials do, the lookups are a run of the scheduler, so its
      theorems hold of the node. */
  lemma {:induction false} LookupsAreARun(lib: Library, run: seq<Timed>)
    ensures Run(lib, run).lookups == L.Run(L.EMPTY, LookupRun(lib, run))
    decreases |run|
  {
    if run != [] {
      var front, last := run[..|run| - 1], run[|run| - 1];
      LookupsAreARun(lib, front);
      ApplyLookups(lib, Run(lib, front), last);
      var steps, step := LookupRun(lib, front), LookupStep(Run(lib, front), last);
      if step.Some? {
        assert (steps + [step.value])[..|steps|] == steps;
      } else {
        assert steps + [] == steps;
      }
    }
  }

  /** So the budget holds of the whole node: re-issued queries plus the potential left are at
      most what new lookups grant, and a peer has at most one chain more than its lookups. */
  lemma NodeQueriesBounded(lib: Library, run: seq<Timed>, peer: PeerId)
    ensures L.Valid(L.EMPTY) && L.Valid(Run(lib, run).lookups)
    ensures L.ReissuedIn(L.EMPTY, LookupRun(lib, run)) + L.Potential(Run(lib, run).lookups) <= L.GrantedIn(LookupRun(lib, run))
    ensures L.Chains(Run(lib, run).lookups, peer) <= 1 + L.LookupsFor(LookupRun(lib, run), peer)
  {
    LookupsAreARun(lib, run);
    L.QueriesBounded(L.EMPTY, LookupRun(lib, run));
    L.ChainsBounded(LookupRun(lib, run), peer);
  }

  predicate InOrder(run: seq<Timed>) {
    forall i, j | 0 <= i < j < |run| :: run[i].at <= run[j].at
  }

  lemma {:induction false} LookupRunInOrder(lib: Library, run: seq<Timed>)
    requires InOrder(run)
    ensures L.Chronological(LookupRun(lib, run))
    ensures forall i | 0 <= i < |LookupRun(lib, run)| :: run != [] && LookupRun(lib, run)[i].at <= run[|run| - 1].at
    decreases |run|
  {
    if run != [] {
      LookupRunInOrder(lib, run[..|run| - 1]);
    }
  }

  /** The scheduler's timing holds of the node: after a tick, every queued retry, of a lookup or
      of a rediscovery, was queued less than the reconnect delay ago. */
  lemma NodeTickReleases(lib: Library, run: seq<Timed>)
    requires InOrder(run) && run != [] && run[|run| - 1].action.DoReissue?
    ensures var st := Run(lib, run).lookups;
            |st.enqueuedAt| == |st.retries| && forall i | 0 <= i < |st.retries| :: run[|run| - 1].at < st.enqueuedAt[i] + L.RECONNECT_DELAY
  {
    var steps := TickAsLookups(lib, run);
    L.TickReleasesOldRetries(steps);
  }

  lemma TickIsLast(lib: Library, run: seq<Timed>)
    requires run != [] && run[|run| - 1].action.DoReissue?
    ensures LookupRun(lib, run) == LookupRun(lib, run[..|run| - 1]) + [L.Timed(run[|run| - 1].at, L.DoReissue)]
    ensures var steps := LookupRun(lib, run); steps != [] && steps[|steps| - 1] == L.Timed(run[|run| - 1].at, L.DoReissue)
  {
  }

  /** A run that ends with a tick, as the scheduler sees it. */
  lemma TickAsLookups(lib: Library, run: seq<Timed>) returns (steps: seq<L.Timed>)
    requires InOrder(run) && run != [] && run[|run| - 1].action.DoReissue?
    ensures Run(lib, run).lookups == L.Run(L.EMPTY, steps) && L.Chronological(steps)
    ensures steps != [] && steps[|steps| - 1] == L.Timed(run[|run| - 1].at, L.DoReissue)
  {
    TickIsLast(lib, run);
    steps := LookupRun(lib, run);
    LookupsAreARun(lib, run);
    LookupRunInOrder(lib, run);
  }

  // ---- Timing of the re-dials ----

  /** With one constant delay the queue is sorted by due time. */
  predicate Sorted(st: State, clock: nat) {
    && (forall i, j | 0 <= i < j < |st.retryDials| :: st.retryDials[i].nextAt <= st.retryDials[j].nextAt)
    && (forall i | 0 <= i < |st.retryDials| :: st.retryDials[i].nextAt <= clock + RECONNECT_DIAL_DELAY)
  }

  /** How many entries the loop pops. */
  function DueCount(rs: seq<RetryDial>, now: nat): nat
    decreases |rs|
  {
    if rs == [] || rs[0].nextAt > now then 0 else 1 + DueCount(rs[1..], now)
  }

  lemma {:induction false} DueCountFacts(rs: seq<RetryDial>, now: nat)
    requires forall i, j | 0 <= i < j < |rs| :: rs[i].nextAt <= rs[j].nextAt
    ensures DueCount(rs, now) <= |rs|
    ensures forall i | 0 <= i < |rs| :: rs[i].nextAt <= now <==> i < DueCount(rs, now)
    decreases |rs|
  {
    if rs != [] && rs[0].nextAt <= now {
      DueCountFacts(rs[1..], now);
      assert forall i | 1 <= i < |rs| :: rs[i] == rs[1..][i - 1];
    }
  }

  lemma FrontPopped(st: State, sessions: set<PeerId>)
    requires st.retryDials != []
    ensures FireFront(st, sessions).retryDials == st.retryDials[1..]
  {
  }

  lemma {:induction false} FirePops(st: State, sessions: set<PeerId>, now: nat)
    ensures DueCount(st.retryDials, now) <= |st.retryDials|
    ensures FireDue(st, sessions, now).retryDials == st.retryDials[DueCount(st.retryDials, now)..]
    decreases |st.retryDials|
  {
    if st.retryDials != [] && st.retryDials[0].nextAt <= now {
      FrontPopped(st, sessions);
      FirePops(FireFront(st, sessions), sessions, now);
      var n := DueCount(st.retryDials, now);
      assert st.retryDials[1..][n - 1..] == st.retryDials[n..];
    } else {
      assert st.retryDials[0..] == st.retryDials;
    }
  }

  /** A tick pops exactly the due entries: those popped are due, those left are not. */
  lemma FirePopsExactlyDue(st: State, sessions: set<PeerId>, now: nat)
    requires Sorted(st, now)
    ensures var st' := FireDue(st, sessions, now);
            var n := |st.retryDials| - |st'.retryDials|;
            && 0 <= n && st'.retryDials == st.retryDials[n..]
            && (forall i | 0 <= i < |st.retryDials| :: st.retryDials[i].nextAt <= now <==> i < n)
    ensures Sorted(FireDue(st, sessions, now), now)
  {
    FirePops(st, sessions, now);
    DueCountFacts(st.retryDials, now);
  }

  lemma ApplySorted(lib: Library, st: State, t: Timed, clock: nat)
    requires Sorted(st, clock) && clock <= t.at
    ensures Sorted(Apply(lib, st, t), t.at)
  {
    if t.action.DoFire? {
      FirePopsExactlyDue(st, t.sessions, t.at);
    }
  }

  lemma {:induction false} RunSorted(lib: Library, run: seq<Timed>)
    requires InOrder(run)
    ensures Sorted(Run(lib, run), if run == [] then 0 else run[|run| - 1].at)
    decreases |run|
  {
    if run != [] {
      var front := run[..|run| - 1];
      RunSorted(lib, front);
      ApplySorted(lib, Run(lib, front), run[|run| - 1], if front == [] then 0 else front[|front| - 1].at);
    }
  }
}
