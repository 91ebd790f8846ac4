/** Observed-address candidates and their dial-back validation, owner side (src/node.rs). */
module Candidates {
  import opened ByteStrings
  import opened Library
  import opened Lists

  const VALIDATION_TIMEOUT: nat := 15_000
  const PUBLIC_REVALIDATE_INTERVAL: nat := 300_000
  const MAX_VALIDATION_ATTEMPTS: nat := 3

  datatype CandidateState = Pending(since: nat) | Validated(since: nat) | Rejected(attempts: nat)
  datatype Candidate = Candidate(state: CandidateState, prober: PeerId)

  /** A dial-back request about `addr`, sent to `prober`. */
  datatype Request = Request(addr: Multiaddr, prober: PeerId)

  /** `requests` is every dial-back request sent; the code does not keep it. */
  datatype State = State(candidates: map<Multiaddr, Candidate>, validated: seq<Multiaddr>, requests: seq<Request>)

  const EMPTY: State := State(map[], [], [])

  /** The sessions at the time of a call: who has one, and the first that is listed. */
  datatype Peers = Peers(all: set<PeerId>, first: Option<PeerId>)

  // ---- Forming a candidate ----

  /** What the node knows about itself: `localIps` is None when the interface scan failed. */
  datatype Host = Host(externalIps: seq<IpAddr>, localIps: Option<set<IpAddr>>, listenPort: u16, currentAddrs: seq<Multiaddr>)

  predicate IsExternal(h: Host, ip: IpAddr) {
    ip in h.externalIps || (!IsLoopback(ip) && (h.localIps.Some? ==> ip !in h.localIps.value))
  }

  /** The observed IP with our listen port, unless there is nothing to validate. */
  function CandidateFor(h: Host, ip: IpAddr): Option<Multiaddr> {
    if !IsExternal(h, ip) || h.listenPort == 0 then None
    else
      var addr := [Ip(ip), Tcp(h.listenPort)];
      if ip !in h.externalIps && addr in h.currentAddrs then None else Some(addr)
  }

  // ---- The transitions ----

  /** Asks the candidate's prober, or else any session peer, to dial back. */
  function RequestDialBack(st: State, addr: Multiaddr, peers: Peers): State {
    if addr !in st.candidates then st
    else
      var c := st.candidates[addr];
      if c.prober in peers.all then st.(requests := st.requests + [Request(addr, c.prober)])
      else if peers.first.Some? then
        st.(candidates := st.candidates[addr := c.(prober := peers.first.value)],
            requests := st.requests + [Request(addr, peers.first.value)])
      else st
  }

  predicate MayValidate(st: State, addr: Multiaddr) {
    addr in st.candidates ==> st.candidates[addr].state.Rejected? && st.candidates[addr].state.attempts < MAX_VALIDATION_ATTEMPTS
  }

  function OnObserved(st: State, peer: PeerId, addr: Multiaddr, peers: Peers, now: nat): State {
    if !MayValidate(st, addr) then st
    else RequestDialBack(st.(candidates := st.candidates[addr := Candidate(Pending(now), peer)]), addr, peers)
  }

  function Reject(st: State, addr: Multiaddr): State
    requires addr in st.candidates
  {
    var c := st.candidates[addr];
    var attempts := if c.state.Rejected? then c.state.attempts + 1 else 1;
    st.(candidates := st.candidates[addr := c.(state := Rejected(attempts))], validated := Without(st.validated, addr))
  }

  function OnDialBackRes(st: State, peer: PeerId, addr: Multiaddr, reachable: bool, now: nat): State {
    if addr !in st.candidates || st.candidates[addr].prober != peer then st
    else if !reachable then Reject(st, addr)
    else if st.candidates[addr].state.Validated? then st
    else st.(candidates := st.candidates[addr := st.candidates[addr].(state := Validated(now))],
             validated := if addr in st.validated then st.validated else st.validated + [addr])
  }

  predicate TimedOut(c: Candidate, now: nat) {
    c.state.Pending? && c.state.since + VALIDATION_TIMEOUT <= now
  }

  predicate Stale(c: Candidate, now: nat) {
    c.state.Validated? && c.state.since + PUBLIC_REVALIDATE_INTERVAL <= now
  }

  /** Rejects the listed candidates, one after the other. */
  function RejectAll(st: State, addrs: seq<Multiaddr>): State
    requires forall a | a in addrs :: a in st.candidates
    ensures RejectAll(st, addrs).candidates.Keys == st.candidates.Keys
    decreases |addrs|
  {
    if addrs == [] then st else Reject(RejectAll(st, addrs[..|addrs| - 1]), addrs[|addrs| - 1])
  }

  /** Puts the listed candidates back to Pending. */
  function RevalidateAll(st: State, addrs: seq<Multiaddr>, now: nat): State
    requires forall a | a in addrs :: a in st.candidates
    ensures RevalidateAll(st, addrs, now).candidates.Keys == st.candidates.Keys
    decreases |addrs|
  {
    if addrs == [] then st
    else
      var st1 := RevalidateAll(st, addrs[..|addrs| - 1], now);
      var a := addrs[|addrs| - 1];
      st1.(candidates := st1.candidates[a := st1.candidates[a].(state := Pending(now))])
  }

  function RequestAll(st: State, addrs: seq<Multiaddr>, peers: Peers): State
    decreases |addrs|
  {
    if addrs == [] then st else RequestDialBack(RequestAll(st, addrs[..|addrs| - 1], peers), addrs[|addrs| - 1], peers)
  }

  /** `timedOut` and `due` list the candidates the two scans find, each once, in the order the
      hash map yields them. */
  ghost predicate Scans(st: State, now: nat, timedOut: seq<Multiaddr>, due: seq<Multiaddr>) {
    && Distinct(timedOut) && Distinct(due)
    && (forall a :: a in timedOut <==> a in st.candidates && TimedOut(st.candidates[a], now))
    && (forall a :: a in due <==> a in st.candidates && Stale(st.candidates[a], now))
  }

  ghost function Maintain(st: State, now: nat, timedOut: seq<Multiaddr>, due: seq<Multiaddr>, peers: Peers): State
    requires Scans(st, now, timedOut, due)
  {
    RequestAll(RevalidateAll(RejectAll(st, timedOut), due, now), due, peers)
  }

  // ---- The object the program updates in place ----

  class CandidateTable {
    var candidates: map<Multiaddr, Candidate>
    var validated: seq<Multiaddr>
    ghost var requests: seq<Request>

    ghost function View(): State
      reads this
    {
      State(candidates, validated, requests)
    }

    constructor ()
      ensures View() == EMPTY
    {
      candidates, validated, requests := map[], [], [];
    }

    /** Removes `addr` from the validated list, keeping the order of the rest. */
    method DropValidated(addr: Multiaddr)
      modifies this`validated
      ensures validated == Without(old(validated), addr)
    {
      var kept: seq<Multiaddr> := [];
      for i := 0 to |validated|
        invariant validated == old(validated) && kept == Without(validated[..i], addr)
      {
        assert validated[..i + 1][..i] == validated[..i];
        if validated[i] != addr {
          kept := kept + [validated[i]];
        }
      }
      assert validated[..|validated|] == validated;
      validated := kept;
    }

    method AskDialBack(addr: Multiaddr, peers: Peers) returns (asked: Option<PeerId>)
      modifies this`candidates, this`requests
      ensures View() == RequestDialBack(old(View()), addr, peers)
      ensures requests == old(requests) + if asked.Some? then [Request(addr, asked.value)] else []
      ensures asked.Some? ==> addr in candidates && candidates[addr].prober == asked.value
                              && (asked.value in peers.all || Some(asked.value) == peers.first)
    {
      if addr !in candidates {
        return None;
      }
      var c := candidates[addr];
      var prober;
      if c.prober in peers.all {
        prober := c.prober;
      } else if peers.first.Some? {
        prober := peers.first.value;
      } else {
        return None;
      }
      assert c.(prober := c.prober) == c && candidates[addr := c] == candidates;
      candidates := candidates[addr := c.(prober := prober)];
      requests := requests + [Request(addr, prober)];
      asked := Some(prober);
    }

    method Observed(peer: PeerId, ip: IpAddr, host: Host, peers: Peers, now: nat)
      modifies this
      ensures var addr := CandidateFor(host, ip);
              View() == if addr.None? then old(View()) else OnObserved(old(View()), peer, addr.value, peers, now)
    {
      if !IsExternal(host, ip) || host.listenPort == 0 {
        return;
      }
      var addr := [Ip(ip), Tcp(host.listenPort)];
      if ip !in host.externalIps && addr in host.currentAddrs {
        return;
      }
      if addr in candidates {
        match candidates[addr].state {
          case Validated(_) => return;
          case Pending(_) => return;
          case Rejected(attempts) =>
            if attempts >= MAX_VALIDATION_ATTEMPTS {
              return;
            }
        }
      }
      candidates := candidates[addr := Candidate(Pending(now), peer)];
      var _ := AskDialBack(addr, peers);
    }

    /** True when the record must be republished. */
    method DialBackResolved(peer: PeerId, addr: Multiaddr, reachable: bool, now: nat) returns (republish: bool)
      modifies this
      ensures View() == OnDialBackRes(old(View()), peer, addr, reachable, now)
      ensures republish <==> View() != old(View()) || (!reachable && addr in old(candidates) && old(candidates)[addr].prober == peer)
    {
      if addr !in candidates {
        return false;
      }
      var c := candidates[addr];
      if c.prober != peer {
        return false;
      }
      if reachable {
        if c.state.Validated? {
          return false;
        }
        candidates := candidates[addr := c.(state := Validated(now))];
        assert candidates[addr] != old(candidates)[addr];
        if addr !in validated {
          validated := validated + [addr];
        }
      } else {
        RejectOne(addr);
      }
      republish := true;
    }

    method RejectOne(addr: Multiaddr)
      requires addr in candidates
      modifies this
      ensures View() == Reject(old(View()), addr)
    {
      var c := candidates[addr];
      var attempts := if c.state.Rejected? then c.state.attempts + 1 else 1;
      candidates := candidates[addr := c.(state := Rejected(attempts))];
      DropValidated(addr);
    }

    method Maintenance(now: nat, timedOut: seq<Multiaddr>, due: seq<Multiaddr>, peers: Peers)
      requires Scans(View(), now, timedOut, due)
      modifies this
      ensures View() == Maintain(old(View()), now, timedOut, due, peers)
    {
      ghost var st0 := View();
      for i := 0 to |timedOut|
        invariant View() == RejectAll(st0, timedOut[..i])
      {
        assert timedOut[..i + 1][..i] == timedOut[..i] && timedOut[i] in timedOut;
        RejectOne(timedOut[i]);
      }
      assert timedOut[..|timedOut|] == timedOut;
      Revalidate(now, due);
      RequestEach(due, peers);
    }

    method Revalidate(now: nat, due: seq<Multiaddr>)
      requires forall a | a in due :: a in candidates
      modifies this`candidates
      ensures View() == RevalidateAll(old(View()), due, now)
    {
      ghost var st0 := View();
      for i := 0 to |due|
        invariant View() == RevalidateAll(st0, due[..i], now)
      {
        assert due[..i + 1][..i] == due[..i] && due[i] in due;
        candidates := candidates[due[i] := candidates[due[i]].(state := Pending(now))];
      }
      assert due[..|due|] == due;
    }

    method RequestEach(due: seq<Multiaddr>, peers: Peers)
      modifies this`candidates, this`requests
      ensures View() == RequestAll(old(View()), due, peers)
    {
      ghost var st0 := View();
      for i := 0 to |due|
        invariant View() == RequestAll(st0, due[..i], peers)
      {
        assert due[..i + 1][..i] == due[..i];
        var _ := AskDialBack(due[i], peers);
      }
      assert due[..|due|] == due;
    }
  }

  // ---- The invariant ----

  /** The validated list names candidates, each once; it holds every Validated and no
      Rejected one. */
  ghost predicate Inv(st: State) {
    && Distinct(st.validated)
    && (forall a | a in st.candidates && st.candidates[a].state.Validated? :: a in st.validated)
    && (forall a | a in st.candidates && st.candidates[a].state.Rejected? :: a !in st.validated)
    && (forall a | a in st.validated :: a in st.candidates)
  }

  lemma RejectKeeps(st: State, addr: Multiaddr)
    requires Inv(st) && addr in st.candidates
    ensures Inv(Reject(st, addr)) && Reject(st, addr).candidates.Keys == st.candidates.Keys
    ensures addr !in Reject(st, addr).validated && forall a | a != addr :: a in Reject(st, addr).validated <==> a in st.validated
  {
    WithoutFacts(st.validated, addr);
  }

  lemma RequestKeeps(st: State, addr: Multiaddr, peers: Peers)
    requires Inv(st)
    ensures Inv(RequestDialBack(st, addr, peers)) && RequestDialBack(st, addr, peers).validated == st.validated
  {
  }

  lemma ObservedKeeps(st: State, peer: PeerId, addr: Multiaddr, peers: Peers, now: nat)
    requires Inv(st)
    ensures Inv(OnObserved(st, peer, addr, peers, now)) && OnObserved(st, peer, addr, peers, now).validated == st.validated
  {
    if MayValidate(st, addr) {
      var st1 := st.(candidates := st.candidates[addr := Candidate(Pending(now), peer)]);
      assert Inv(st1);
      RequestKeeps(st1, addr, peers);
    }
  }

  lemma ResultKeeps(st: State, peer: PeerId, addr: Multiaddr, reachable: bool, now: nat)
    requires Inv(st)
    ensures Inv(OnDialBackRes(st, peer, addr, reachable, now))
    ensures forall a | a != addr :: a in OnDialBackRes(st, peer, addr, reachable, now).validated <==> a in st.validated
    ensures addr in st.candidates && st.candidates[addr].prober == peer ==>
              (addr in OnDialBackRes(st, peer, addr, reachable, now).validated <==> reachable)
    ensures !(addr in st.candidates && st.candidates[addr].prober == peer) ==> OnDialBackRes(st, peer, addr, reachable, now) == st
  {
    if addr in st.candidates && st.candidates[addr].prober == peer && !reachable {
      RejectKeeps(st, addr);
    }
  }

  lemma {:induction false} RejectAllKeeps(st: State, addrs: seq<Multiaddr>)
    requires Inv(st) && forall a | a in addrs :: a in st.candidates
    ensures Inv(RejectAll(st, addrs))
    ensures forall a :: a in RejectAll(st, addrs).validated <==> a in st.validated && a !in addrs
    ensures forall a | a in st.candidates && a !in addrs :: RejectAll(st, addrs).candidates[a] == st.candidates[a]
    decreases |addrs|
  {
    if addrs != [] {
      var front := addrs[..|addrs| - 1];
      RejectAllKeeps(st, front);
      RejectKeeps(RejectAll(st, front), addrs[|addrs| - 1]);
      assert addrs == front + [addrs[|addrs| - 1]];
    }
  }

  lemma {:induction false} RevalidateAllKeeps(st: State, addrs: seq<Multiaddr>, now: nat)
    requires Inv(st) && forall a | a in addrs :: a in st.candidates && a in st.validated
    ensures Inv(RevalidateAll(st, addrs, now)) && RevalidateAll(st, addrs, now).validated == st.validated
    decreases |addrs|
  {
    if addrs != [] {
      RevalidateAllKeeps(st, addrs[..|addrs| - 1], now);
      assert addrs[|addrs| - 1] in addrs;
    }
  }

  lemma {:induction false} RequestAllKeeps(st: State, addrs: seq<Multiaddr>, peers: Peers)
    requires Inv(st)
    ensures Inv(RequestAll(st, addrs, peers)) && RequestAll(st, addrs, peers).validated == st.validated
    decreases |addrs|
  {
    if addrs != [] {
      RequestAllKeeps(st, addrs[..|addrs| - 1], peers);
      RequestKeeps(RequestAll(st, addrs[..|addrs| - 1], peers), addrs[|addrs| - 1], peers);
    }
  }

  /** Maintenance removes exactly the timed-out candidates from the validated list. A stale
      address is asked about again but stays listed until the new verdict. */
  lemma MaintainKeeps(st: State, now: nat, timedOut: seq<Multiaddr>, due: seq<Multiaddr>, peers: Peers)
    requires Inv(st) && Scans(st, now, timedOut, due)
    ensures var st' := Maintain(st, now, timedOut, due, peers);
            Inv(st') && forall a :: a in st'.validated <==> a in st.validated && a !in timedOut
  {
    RejectAllKeeps(st, timedOut);
    var st1 := RejectAll(st, timedOut);
    forall a | a in due
      ensures a in st1.candidates && a in st1.validated
    {
      assert a !in timedOut;
    }
    RevalidateAllKeeps(st1, due, now);
    RequestAllKeeps(RevalidateAll(st1, due, now), due, peers);
  }

  // ---- Runs ----

  datatype Action =
    | DoObserve(peer: PeerId, addr: Multiaddr)
    | DoResult(peer: PeerId, addr: Multiaddr, reachable: bool)
    | DoMaintain(timedOut: seq<Multiaddr>, due: seq<Multiaddr>)

  datatype Timed = Timed(at: nat, peers: Peers, action: Action)

  ghost predicate Step(st: State, t: Timed, st': State) {
    match t.action
    case DoObserve(peer, addr) => st' == OnObserved(st, peer, addr, t.peers, t.at)
    case DoResult(peer, addr, reachable) => st' == OnDialBackRes(st, peer, addr, reachable, t.at)
    case DoMaintain(timedOut, due) => Scans(st, t.at, timedOut, due) && st' == Maintain(st, t.at, timedOut, due, t.peers)
  }

  ghost predicate IsRun(states: seq<State>, run: seq<Timed>) {
    && |states| == |run| + 1 && states[0] == EMPTY
    && forall i | 0 <= i < |run| :: Step(states[i], run[i], states[i + 1])
  }

  /** The verdict an action passes on `a`, if any: an answer of the peer recorded as its
      prober, or a timeout. */
  ghost function VerdictOf(st: State, t: Timed, a: Multiaddr): Option<bool> {
    match t.action
    case DoObserve(_, _) => None
    case DoResult(peer, addr, reachable) =>
      if addr == a && a in st.candidates && st.candidates[a].prober == peer then Some(reachable) else None
    case DoMaintain(_, _) => if a in st.candidates && TimedOut(st.candidates[a], t.at) then Some(false) else None
  }

  /** The last verdict on `a` in the first n actions. */
  ghost function LastVerdict(states: seq<State>, run: seq<Timed>, n: nat, a: Multiaddr): Option<bool>
    requires n <= |run| && n <= |states|
  {
    if n == 0 then None
    else
      var v := VerdictOf(states[n - 1], run[n - 1], a);
      if v.Some? then v else LastVerdict(states, run, n - 1, a)
  }

  /** One action changes membership in the list exactly as its verdict says. */
  lemma StepKeeps(st: State, t: Timed, st': State, a: Multiaddr)
    requires Inv(st) && Step(st, t, st')
    ensures Inv(st')
    ensures a in st'.validated <==> if VerdictOf(st, t, a).Some? then VerdictOf(st, t, a).value else a in st.validated
  {
    match t.action {
      case DoObserve(peer, addr) => ObservedKeeps(st, peer, addr, t.peers, t.at);
      case DoResult(peer, addr, reachable) => ResultKeeps(st, peer, addr, reachable, t.at);
      case DoMaintain(timedOut, due) => MaintainKeeps(st, t.at, timedOut, due, t.peers);
    }
  }

  /** In every run, an address is listed as validated exactly when its last verdict was a
      positive answer of its recorded prober; revalidation alone changes nothing. */
  lemma {:induction false} ValidatedMeansLastVerdictPositive(states: seq<State>, run: seq<Timed>, n: nat, a: Multiaddr)
    requires IsRun(states, run) && n <= |run|
    ensures Inv(states[n]) && (a in states[n].validated <==> LastVerdict(states, run, n, a) == Some(true))
  {
    if n > 0 {
      ValidatedMeansLastVerdictPositive(states, run, n - 1, a);
      assert Step(states[n - 1], run[n - 1], states[n]);
      StepKeeps(states[n - 1], run[n - 1], states[n], a);
    }
  }

  // ---- Which observations become candidates ----

  /** Exactly the observed IPs that are external, as long as the node listens on some port and
      does not listen there already; and the candidate is that IP with the listen port. The
      IPs declared external count as external, and are validated even if listened on. */
  lemma CandidateExactly(h: Host, ip: IpAddr, addr: Multiaddr)
    ensures CandidateFor(h, ip) == Some(addr) <==>
            && addr == [Ip(ip), Tcp(h.listenPort)] && h.listenPort > 0
            && (ip in h.externalIps ||
                (!IsLoopback(ip) && (h.localIps.None? || ip !in h.localIps.value) && addr !in h.currentAddrs))
  {
  }

  /** So a candidate is a direct TCP address, which records may carry, and never one that the
      node knows to be local, unless it was declared external. */
  lemma CandidateIsAdvertisable(h: Host, ip: IpAddr)
    requires CandidateFor(h, ip).Some?
    ensures var addr := CandidateFor(h, ip).value;
            && HasTcp(addr) && !HasP2p(addr) && !HasCircuit(addr) && FirstIp(addr) == Some(ip)
            && (ip !in h.externalIps ==> !IsLoopback(ip) && addr !in h.currentAddrs && (h.localIps.Some? ==> ip !in h.localIps.value))
  {
    var addr := CandidateFor(h, ip).value;
    assert addr[1].Tcp?;
  }
}
