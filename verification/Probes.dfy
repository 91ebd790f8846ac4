/** Dial-back probes run for other peers, prober side (src/node.rs). */
module Probes {
  import opened ByteStrings
  import opened Library

  const PROBE_TIMEOUT: nat := 30_000

  datatype Probe = Probe(addr: Multiaddr, since: nat)
  datatype Report = Report(peer: PeerId, addr: Multiaddr, reachable: bool)

  /** The table, and what a call did: whether it accepted a request, the results it sent, and
      the probes it dropped without a result. */
  datatype Effect = Effect(pending: map<PeerId, Probe>, accepted: seq<PeerId>, reports: seq<Report>, dropped: seq<PeerId>)

  function OnRequest(pending: map<PeerId, Probe>, peer: PeerId, addr: Multiaddr, now: nat): Effect {
    if peer in pending then Effect(pending, [], [], [])
    else Effect(pending[peer := Probe(addr, now)], [peer], [], [])
  }

  function OnSession(pending: map<PeerId, Probe>, peer: PeerId): Effect {
    if peer in pending then Effect(pending - {peer}, [], [Report(peer, pending[peer].addr, true)], []) else Effect(pending, [], [], [])
  }

  function OnDisconnect(pending: map<PeerId, Probe>, peer: PeerId): Effect {
    if peer in pending then Effect(pending - {peer}, [], [], [peer]) else Effect(pending, [], [], [])
  }

  /** Reports the listed probes as unreachable, one after the other. */
  function FailAll(pending: map<PeerId, Probe>, peers: seq<PeerId>): Effect
    decreases |peers|
  {
    if peers == [] then Effect(pending, [], [], [])
    else
      var before, p := FailAll(pending, peers[..|peers| - 1]), peers[|peers| - 1];
      if p in before.pending
      then Effect(before.pending - {p}, [], before.reports + [Report(p, before.pending[p].addr, false)], [])
      else before
  }

  /** `peers` lists the probes of a hash map that satisfy a test, each once, in any order. */
  ghost predicate Lists(peers: seq<PeerId>, chosen: set<PeerId>) {
    (forall i, j | 0 <= i < j < |peers| :: peers[i] != peers[j]) && (forall p :: p in peers <==> p in chosen)
  }

  function FailedBy(pending: map<PeerId, Probe>, failed: seq<Multiaddr>): set<PeerId> {
    set p | p in pending && pending[p].addr in failed
  }

  function ExpiredAt(pending: map<PeerId, Probe>, now: nat): set<PeerId> {
    set p | p in pending && pending[p].since + PROBE_TIMEOUT <= now
  }

  // ---- The object the program updates in place ----

  class ProbeTable {
    var pending: map<PeerId, Probe>

    constructor ()
      ensures pending == map[]
    {
      pending := map[];
    }

    /** True when the candidate is dialed. */
    method DialBackRequested(peer: PeerId, addr: Multiaddr, now: nat) returns (dial: bool)
      modifies this
      ensures var e := OnRequest(old(pending), peer, addr, now);
              pending == e.pending && dial == (e.accepted == [peer]) && (dial <==> peer !in old(pending))
    {
      if peer in pending {
        return false;
      }
      pending := pending[peer := Probe(addr, now)];
      dial := true;
    }

    method SessionEstablished(peer: PeerId) returns (reports: seq<Report>)
      modifies this
      ensures var e := OnSession(old(pending), peer); pending == e.pending && reports == e.reports
    {
      reports := [];
      if peer in pending {
        reports := [Report(peer, pending[peer].addr, true)];
        pending := pending - {peer};
      }
    }

    method PeerDisconnected(peer: PeerId)
      modifies this
      ensures pending == OnDisconnect(old(pending), peer).pending
    {
      pending := pending - {peer};
    }

    method ReportFailures(peers: seq<PeerId>) returns (reports: seq<Report>)
      requires forall p | p in peers :: p in pending
      requires forall i, j | 0 <= i < j < |peers| :: peers[i] != peers[j]
      modifies this
      ensures var e := FailAll(old(pending), peers); pending == e.pending && reports == e.reports
      ensures pending == map p | p in old(pending) && p !in peers :: old(pending)[p]
      ensures |reports| == |peers|
      ensures forall i | 0 <= i < |peers| :: reports[i] == Report(peers[i], old(pending)[peers[i]].addr, false)
    {
      reports := [];
      ghost var before := pending;
      for i := 0 to |peers|
        invariant Effect(pending, [], reports, []) == FailAll(before, peers[..i])
        invariant forall j | i <= j < |peers| :: peers[j] in pending
      {
        assert peers[..i + 1][..i] == peers[..i] && peers[i] in peers;
        var addr := pending[peers[i]].addr;
        pending := pending - {peers[i]};
        reports := reports + [Report(peers[i], addr, false)];
      }
      assert peers[..|peers|] == peers;
      FailAllReports(before, peers);
    }
  }

  // ---- Runs ----

  datatype Action =
    | Requested(peer: PeerId, addr: Multiaddr, now: nat)
    | Established(peer: PeerId)
    | Disconnected(peer: PeerId)
    | DialFailed(failed: seq<Multiaddr>, peers: seq<PeerId>)
    | Tick(now: nat, peers: seq<PeerId>)

  ghost predicate Step(pending: map<PeerId, Probe>, a: Action, e: Effect) {
    match a
    case Requested(peer, addr, now) => e == OnRequest(pending, peer, addr, now)
    case Established(peer) => e == OnSession(pending, peer)
    case Disconnected(peer) => e == OnDisconnect(pending, peer)
    case DialFailed(failed, peers) => Lists(peers, FailedBy(pending, failed)) && e == FailAll(pending, peers)
    case Tick(now, peers) => Lists(peers, ExpiredAt(pending, now)) && e == FailAll(pending, peers)
  }

  ghost predicate IsRun(actions: seq<Action>, effects: seq<Effect>) {
    && |actions| == |effects|
    && forall i | 0 <= i < |actions| :: Step(TableAfter(effects, i), actions[i], effects[i])
  }

  /** The table after the first n calls. */
  function TableAfter(effects: seq<Effect>, n: nat): map<PeerId, Probe>
    requires n <= |effects|
  {
    if n == 0 then map[] else effects[n - 1].pending
  }

  // ---- Accounting ----

  function CountPeer(peers: seq<PeerId>, p: PeerId): nat
    decreases |peers|
  {
    if peers == [] then 0 else CountPeer(peers[..|peers| - 1], p) + if peers[|peers| - 1] == p then 1 else 0
  }

  function CountReports(reports: seq<Report>, p: PeerId, reachable: bool): nat
    decreases |reports|
  {
    if reports == [] then 0
    else CountReports(reports[..|reports| - 1], p, reachable)
         + if reports[|reports| - 1].peer == p && reports[|reports| - 1].reachable == reachable then 1 else 0
  }

  datatype Tally = Tally(accepted: nat, positive: nat, negative: nat, dropped: nat)

  /** What happened to the requests of `p` over a run. */
  function TallyOf(effects: seq<Effect>, p: PeerId): Tally
    decreases |effects|
  {
    if effects == [] then Tally(0, 0, 0, 0)
    else
      var t, e := TallyOf(effects[..|effects| - 1], p), effects[|effects| - 1];
      Tally(t.accepted + CountPeer(e.accepted, p), t.positive + CountReports(e.reports, p, true),
            t.negative + CountReports(e.reports, p, false), t.dropped + CountPeer(e.dropped, p))
  }

  /** The same over all peers. */
  function TotalOf(effects: seq<Effect>): Tally
    decreases |effects|
  {
    if effects == [] then Tally(0, 0, 0, 0)
    else
      var t, e := TotalOf(effects[..|effects| - 1]), effects[|effects| - 1];
      var positive := Positives(e.reports);
      Tally(t.accepted + |e.accepted|, t.positive + positive, t.negative + (if positive <= |e.reports| then |e.reports| - positive else 0),
            t.dropped + |e.dropped|)
  }

  function Positives(reports: seq<Report>): nat
    decreases |reports|
  {
    if reports == [] then 0 else Positives(reports[..|reports| - 1]) + if reports[|reports| - 1].reachable then 1 else 0
  }

  function Held(pending: map<PeerId, Probe>, p: PeerId): nat { if p in pending then 1 else 0 }

  lemma ReportsPush(reports: seq<Report>, r: Report, p: PeerId, reachable: bool)
    ensures CountReports(reports + [r], p, reachable) == CountReports(reports, p, reachable) + if r.peer == p && r.reachable == reachable then 1 else 0
    ensures Positives(reports + [r]) == Positives(reports) + if r.reachable then 1 else 0
  {
    assert (reports + [r])[..|reports|] == reports;
  }

  lemma {:induction false} FailAllCounts(pending: map<PeerId, Probe>, peers: seq<PeerId>, p: PeerId)
    ensures var e := FailAll(pending, peers);
            && CountReports(e.reports, p, true) == 0 && Positives(e.reports) == 0
            && CountReports(e.reports, p, false) + Held(e.pending, p) == Held(pending, p)
            && |e.reports| + |e.pending| == |pending| && e.accepted == [] && e.dropped == []
    decreases |peers|
  {
    if peers != [] {
      var front := peers[..|peers| - 1];
      FailAllCounts(pending, front, p);
      var before, q := FailAll(pending, front), peers[|peers| - 1];
      if q in before.pending {
        ReportsPush(before.reports, Report(q, before.pending[q].addr, false), p, true);
        ReportsPush(before.reports, Report(q, before.pending[q].addr, false), p, false);
        RemoveOne(before.pending, q);
      }
    }
  }

  lemma RemoveOne(pending: map<PeerId, Probe>, q: PeerId)
    requires q in pending
    ensures |pending - {q}| + 1 == |pending|
  {
    assert (pending - {q}).Keys == pending.Keys - {q};
  }

  lemma AddOne(pending: map<PeerId, Probe>, q: PeerId, probe: Probe)
    requires q !in pending
    ensures |pending[q := probe]| == |pending| + 1
  {
    assert pending[q := probe].Keys == pending.Keys + {q};
  }

  lemma OneCounts(p: PeerId, q: PeerId, addr: Multiaddr)
    ensures CountPeer([q], p) == (if p == q then 1 else 0) && CountPeer([], p) == 0
    ensures CountReports([Report(q, addr, true)], p, true) == (if p == q then 1 else 0)
    ensures CountReports([Report(q, addr, true)], p, false) == 0
    ensures Positives([Report(q, addr, true)]) == 1
  {
    assert [q][..0] == [] && [Report(q, addr, true)][..0] == [];
  }

  lemma StepBalances(pending: map<PeerId, Probe>, a: Action, e: Effect, p: PeerId)
    requires Step(pending, a, e)
    ensures Held(pending, p) + CountPeer(e.accepted, p)
            == CountReports(e.reports, p, true) + CountReports(e.reports, p, false) + CountPeer(e.dropped, p) + Held(e.pending, p)
    ensures Positives(e.reports) <= |e.reports| && |pending| + |e.accepted| == |e.reports| + |e.dropped| + |e.pending|
  {
    match a {
      case Requested(peer, addr, now) =>
        OneCounts(p, peer, addr);
        if peer !in pending {
          AddOne(pending, peer, Probe(addr, now));
        }
      case Established(peer) =>
        if peer in pending {
          OneCounts(p, peer, pending[peer].addr);
          RemoveOne(pending, peer);
        }
      case Disconnected(peer) =>
        OneCounts(p, peer, []);
        if peer in pending {
          RemoveOne(pending, peer);
        }
      case DialFailed(_, peers) => FailAllCounts(pending, peers, p);
      case Tick(_, peers) => FailAllCounts(pending, peers, p);
    }
  }

  /** Over every run and for every peer: accepted requests are the positive results, the
      negative results, the probes dropped on disconnect and the one still pending. So no
      accepted request ever gets two results. The totals balance in the same way. */
  lemma {:induction false} ProbesBalance(actions: seq<Action>, effects: seq<Effect>, p: PeerId)
    requires IsRun(actions, effects)
    ensures var t := TallyOf(effects, p);
            t.accepted == t.positive + t.negative + t.dropped + Held(TableAfter(effects, |effects|), p)
    ensures var t := TotalOf(effects);
            t.accepted == t.positive + t.negative + t.dropped + |TableAfter(effects, |effects|)|
    decreases |effects|
  {
    if effects != [] {
      var n := |effects| - 1;
      forall i | 0 <= i < n
        ensures Step(TableAfter(effects[..n], i), actions[..n][i], effects[..n][i])
      {
        assert TableAfter(effects[..n], i) == TableAfter(effects, i);
      }
      ProbesBalance(actions[..n], effects[..n], p);
      assert TableAfter(effects[..n], n) == TableAfter(effects, n);
      StepBalances(TableAfter(effects, n), actions[n], effects[n], p);
    }
  }

  /** A tick or a failed dial reports exactly the probes it concerns, and removes them. */
  lemma {:induction false} FailAllReports(pending: map<PeerId, Probe>, peers: seq<PeerId>)
    requires forall p | p in peers :: p in pending
    requires forall i, j | 0 <= i < j < |peers| :: peers[i] != peers[j]
    ensures var e := FailAll(pending, peers);
            && e.pending == (map p | p in pending && p !in peers :: pending[p])
            && |e.reports| == |peers|
            && forall i | 0 <= i < |peers| :: e.reports[i] == Report(peers[i], pending[peers[i]].addr, false)
    decreases |peers|
  {
    if peers != [] {
      var front, last := peers[..|peers| - 1], peers[|peers| - 1];
      FailAllReports(pending, front);
      FailOne(pending, front, last);
      assert peers == front + [last];
    }
  }

  lemma FailOne(pending: map<PeerId, Probe>, front: seq<PeerId>, last: PeerId)
    requires last in pending && last !in front
    requires FailAll(pending, front).pending == map p | p in pending && p !in front :: pending[p]
    ensures var before, after := FailAll(pending, front), FailAll(pending, front + [last]);
            && after.pending == (map p | p in pending && p !in front + [last] :: pending[p])
            && after.reports == before.reports + [Report(last, pending[last].addr, false)]
  {
    assert (front + [last])[..|front|] == front;
  }

  // ---- What the results are about ----

  /** The probe of the last accepted request of `p` in the first n calls. */
  function LastAccepted(actions: seq<Action>, effects: seq<Effect>, n: nat, p: PeerId): Option<Probe>
    requires n <= |actions| == |effects|
  {
    if n == 0 then None
    else if actions[n - 1].Requested? && actions[n - 1].peer == p && p !in TableAfter(effects, n - 1)
    then Some(Probe(actions[n - 1].addr, actions[n - 1].now))
    else LastAccepted(actions, effects, n - 1, p)
  }

  lemma StepKeepsProbes(pending: map<PeerId, Probe>, a: Action, e: Effect, p: PeerId)
    requires Step(pending, a, e) && p in e.pending
    ensures if a.Requested? && a.peer == p && p !in pending then e.pending[p] == Probe(a.addr, a.now)
            else p in pending && e.pending[p] == pending[p]
  {
    match a {
      case DialFailed(failed, peers) => FailAllReports(pending, peers);
      case Tick(now, peers) => FailAllReports(pending, peers);
      case _ =>
    }
  }

  /** What the table holds for a peer after n calls follows from what it held before the last. */
  predicate FollowsAt(actions: seq<Action>, effects: seq<Effect>, p: PeerId, n: nat)
    requires 0 < n <= |actions| == |effects|
  {
    p in TableAfter(effects, n) ==>
      if actions[n - 1].Requested? && actions[n - 1].peer == p && p !in TableAfter(effects, n - 1)
      then TableAfter(effects, n)[p] == Probe(actions[n - 1].addr, actions[n - 1].now)
      else p in TableAfter(effects, n - 1) && TableAfter(effects, n)[p] == TableAfter(effects, n - 1)[p]
  }

  ghost predicate Follows(actions: seq<Action>, effects: seq<Effect>, p: PeerId)
    requires |actions| == |effects|
  {
    forall n | 0 < n <= |actions| :: FollowsAt(actions, effects, p, n)
  }

  lemma TableStep(actions: seq<Action>, effects: seq<Effect>, n: nat, p: PeerId)
    requires IsRun(actions, effects) && 0 < n <= |actions|
    ensures FollowsAt(actions, effects, p, n)
  {
    if p in TableAfter(effects, n) {
      StepKeepsProbes(TableAfter(effects, n - 1), actions[n - 1], effects[n - 1], p);
    }
  }

  lemma {:induction false} HeldIsLastAccepted(actions: seq<Action>, effects: seq<Effect>, n: nat, p: PeerId)
    requires |actions| == |effects| && Follows(actions, effects, p) && n <= |actions| && p in TableAfter(effects, n)
    ensures LastAccepted(actions, effects, n, p) == Some(TableAfter(effects, n)[p])
  {
    assert n > 0 ==> FollowsAt(actions, effects, p, n);
    if n > 0 && p in TableAfter(effects, n - 1) {
      HeldIsLastAccepted(actions, effects, n - 1, p);
    }
  }

  lemma PendingIsLastAccepted(actions: seq<Action>, effects: seq<Effect>, n: nat, p: PeerId)
    requires IsRun(actions, effects) && n <= |actions| && p in TableAfter(effects, n)
    ensures LastAccepted(actions, effects, n, p) == Some(TableAfter(effects, n)[p])
  {
    forall m | 0 < m <= |actions|
      ensures FollowsAt(actions, effects, p, m)
    {
      TableStep(actions, effects, m, p);
    }
    HeldIsLastAccepted(actions, effects, n, p);
  }

  /** A result of one call is about a probe in the table. */
  lemma StepReports(pending: map<PeerId, Probe>, a: Action, e: Effect, r: Report)
    requires Step(pending, a, e) && r in e.reports
    ensures r.peer in pending && r.addr == pending[r.peer].addr && (r.reachable <==> a == Established(r.peer))
    ensures !r.reachable ==> || (a.DialFailed? && r.addr in a.failed)
                             || (a.Tick? && pending[r.peer].since + PROBE_TIMEOUT <= a.now)
  {
    match a {
      case DialFailed(failed, peers) =>
        FailedReport(pending, peers, r);
        assert r.peer in FailedBy(pending, failed);
      case Tick(now, peers) =>
        FailedReport(pending, peers, r);
        assert r.peer in ExpiredAt(pending, now);
      case _ =>
    }
  }

  lemma FailedReport(pending: map<PeerId, Probe>, peers: seq<PeerId>, r: Report)
    requires forall p | p in peers :: p in pending
    requires forall i, j | 0 <= i < j < |peers| :: peers[i] != peers[j]
    requires r in FailAll(pending, peers).reports
    ensures r.peer in peers && r.peer in pending && r.addr == pending[r.peer].addr && !r.reachable
  {
    FailAllReports(pending, peers);
    var i :| 0 <= i < |peers| && FailAll(pending, peers).reports[i] == r;
    assert peers[i] in peers;
  }

  lemma RunStep(actions: seq<Action>, effects: seq<Effect>, n: nat)
    requires IsRun(actions, effects) && n < |actions|
    ensures Step(TableAfter(effects, n), actions[n], effects[n])
  {
  }

  /** In every run, each result is about the address of the last request that was accepted from
      that peer; it is positive exactly when the peer's session came up, and a negative one means
      that a dial of that address failed or that the request is 30 s old. */
  lemma ReportsAnswerRequests(actions: seq<Action>, effects: seq<Effect>, n: nat, r: Report)
    requires IsRun(actions, effects) && n < |actions| && r in effects[n].reports
    ensures var probe := LastAccepted(actions, effects, n, r.peer);
            && probe.Some? && r.addr == probe.value.addr
            && (r.reachable <==> actions[n] == Established(r.peer))
            && (!r.reachable ==> || (actions[n].DialFailed? && r.addr in actions[n].failed)
                                 || (actions[n].Tick? && probe.value.since + PROBE_TIMEOUT <= actions[n].now))
  {
    RunStep(actions, effects, n);
    StepReports(TableAfter(effects, n), actions[n], effects[n], r);
    PendingIsLastAccepted(actions, effects, n, r.peer);
  }

  /** After a tick no probe is 30 s old, and no younger one was touched. */
  lemma TickLeavesYoungProbes(pending: map<PeerId, Probe>, now: nat, peers: seq<PeerId>, e: Effect, p: PeerId)
    requires Step(pending, Tick(now, peers), e)
    ensures p in e.pending <==> p in pending && now < pending[p].since + 30_000
    ensures p in e.pending ==> e.pending[p] == pending[p]
  {
    FailAllReports(pending, peers);
  }
}
