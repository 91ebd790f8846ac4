/** How often an observed address is asked about (src/node.rs). The node means to give up an
    address after three failed validations; this module shows what that limit really limits. */
module Attempts {
  import opened ByteStrings
  import opened Library
  import opened Lists
  import opened Candidates

  // ---- What one action does to one address ----

  /** The requests sent about `a`. */
  function RequestsFor(requests: seq<Request>, a: Multiaddr): nat
    decreases |requests|
  {
    if requests == [] then 0
    else RequestsFor(requests[..|requests| - 1], a) + if requests[|requests| - 1].addr == a then 1 else 0
  }

  lemma RequestsSnoc(requests: seq<Request>, q: Request, a: Multiaddr)
    ensures RequestsFor(requests + [q], a) == RequestsFor(requests, a) + if q.addr == a then 1 else 0
  {
    assert (requests + [q])[..|requests|] == requests;
  }

  /** Somebody can be asked: the prober if it has a session, or else any session peer. */
  predicate Available(prober: PeerId, peers: Peers) {
    prober in peers.all || peers.first.Some?
  }

  /** The action starts a validation of `a`: it observes the address and may validate it, or
      it finds its validation too old. */
  ghost predicate Starts(st: State, t: Timed, a: Multiaddr) {
    match t.action
    case DoObserve(_, addr) => addr == a && MayValidate(st, a)
    case DoResult(_, _, _) => false
    case DoMaintain(_, _) => a in st.candidates && Stale(st.candidates[a], t.at)
  }

  /** Whom a validation that starts would ask first. */
  ghost function AsksFirst(st: State, t: Timed, a: Multiaddr): PeerId
    requires Starts(st, t, a)
  {
    if t.action.DoObserve? then t.action.peer else st.candidates[a].prober
  }

  ghost predicate Asks(st: State, t: Timed, a: Multiaddr) {
    Starts(st, t, a) && Available(AsksFirst(st, t, a), t.peers)
  }

  /** What becomes of the candidate `a`: a start makes it pending, a verdict validates or
      rejects it, and nothing else touches its state. */
  ghost function NextState(st: State, t: Timed, a: Multiaddr): Option<CandidateState> {
    var now := if a in st.candidates then Some(st.candidates[a].state) else None;
    if Starts(st, t, a) then Some(Pending(t.at))
    else
      match VerdictOf(st, t, a)
      case None => now
      case Some(true) => if st.candidates[a].state.Validated? then now else Some(Validated(t.at))
      case Some(false) => Some(Rejected(if now.value.Rejected? then now.value.attempts + 1 else 1))
  }

  function StateOf(st: State, a: Multiaddr): Option<CandidateState> {
    if a in st.candidates then Some(st.candidates[a].state) else None
  }

  lemma RequestOn(st: State, addr: Multiaddr, peers: Peers, a: Multiaddr)
    ensures var st' := RequestDialBack(st, addr, peers);
            && StateOf(st', a) == StateOf(st, a)
            && (a != addr && a in st.candidates ==> st'.candidates[a] == st.candidates[a])
            && RequestsFor(st'.requests, a) == RequestsFor(st.requests, a)
               + if a == addr && a in st.candidates && Available(st.candidates[a].prober, peers) then 1 else 0
  {
    if addr in st.candidates {
      RequestsSnoc(st.requests, Request(addr, st.candidates[addr].prober), a);
      if peers.first.Some? {
        RequestsSnoc(st.requests, Request(addr, peers.first.value), a);
      }
    }
  }

  lemma RejectOn(st: State, addr: Multiaddr, a: Multiaddr)
    requires addr in st.candidates && a in st.candidates
    ensures var c, c' := st.candidates[a], Reject(st, addr).candidates[a];
            && c'.prober == c.prober && Reject(st, addr).requests == st.requests
            && c'.state == if a != addr then c.state else Rejected(if c.state.Rejected? then c.state.attempts + 1 else 1)
  {
  }

  lemma {:induction false} RejectAllOn(st: State, addrs: seq<Multiaddr>, a: Multiaddr)
    requires Distinct(addrs) && (forall x | x in addrs :: x in st.candidates) && a in st.candidates
    ensures var c, c' := st.candidates[a], RejectAll(st, addrs).candidates[a];
            && c'.prober == c.prober && RejectAll(st, addrs).requests == st.requests
            && c'.state == if a !in addrs then c.state else Rejected(if c.state.Rejected? then c.state.attempts + 1 else 1)
    decreases |addrs|
  {
    if addrs != [] {
      var front, last := addrs[..|addrs| - 1], addrs[|addrs| - 1];
      assert addrs == front + [last] && last !in front;
      RejectAllOn(st, front, a);
      RejectOn(RejectAll(st, front), last, a);
    }
  }

  lemma {:induction false} RevalidateAllOn(st: State, addrs: seq<Multiaddr>, now: nat, a: Multiaddr)
    requires (forall x | x in addrs :: x in st.candidates) && a in st.candidates
    ensures var c, c' := st.candidates[a], RevalidateAll(st, addrs, now).candidates[a];
            && c'.prober == c.prober && RevalidateAll(st, addrs, now).requests == st.requests
            && c'.state == if a in addrs then Pending(now) else c.state
    decreases |addrs|
  {
    if addrs != [] {
      var front := addrs[..|addrs| - 1];
      assert addrs == front + [addrs[|addrs| - 1]];
      RevalidateAllOn(st, front, now, a);
    }
  }

  lemma {:induction false} RequestAllOn(st: State, addrs: seq<Multiaddr>, peers: Peers, a: Multiaddr)
    requires Distinct(addrs)
    ensures var st' := RequestAll(st, addrs, peers);
            && StateOf(st', a) == StateOf(st, a) && (a !in addrs && a in st.candidates ==> st'.candidates[a] == st.candidates[a])
            && RequestsFor(st'.requests, a) == RequestsFor(st.requests, a)
               + if a in addrs && a in st.candidates && Available(st.candidates[a].prober, peers) then 1 else 0
    decreases |addrs|
  {
    if addrs != [] {
      var front, last := addrs[..|addrs| - 1], addrs[|addrs| - 1];
      assert addrs == front + [last] && last !in front;
      RequestAllOn(st, front, peers, a);
      RequestOn(RequestAll(st, front, peers), last, peers, a);
    }
  }

  lemma AbsentStaysAbsent(st: State, timedOut: seq<Multiaddr>, due: seq<Multiaddr>, t: Timed, a: Multiaddr)
    requires Scans(st, t.at, timedOut, due) && a !in st.candidates
    ensures var st' := Maintain(st, t.at, timedOut, due, t.peers);
            a !in st'.candidates && RequestsFor(st'.requests, a) == RequestsFor(st.requests, a)
  {
    var st2 := RevalidateAll(RejectAll(st, timedOut), due, t.at);
    RequestAllOn(st2, due, t.peers, a);
    RejectAllRequests(st, timedOut);
    RevalidateAllRequests(RejectAll(st, timedOut), due, t.at);
  }

  lemma {:induction false} RejectAllRequests(st: State, addrs: seq<Multiaddr>)
    requires forall x | x in addrs :: x in st.candidates
    ensures RejectAll(st, addrs).requests == st.requests
    decreases |addrs|
  {
    if addrs != [] {
      RejectAllRequests(st, addrs[..|addrs| - 1]);
    }
  }

  lemma {:induction false} RevalidateAllRequests(st: State, addrs: seq<Multiaddr>, now: nat)
    requires forall x | x in addrs :: x in st.candidates
    ensures RevalidateAll(st, addrs, now).requests == st.requests
    decreases |addrs|
  {
    if addrs != [] {
      RevalidateAllRequests(st, addrs[..|addrs| - 1], now);
    }
  }

  lemma MaintainOn(st: State, t: Timed, a: Multiaddr)
    requires t.action.DoMaintain? && Scans(st, t.at, t.action.timedOut, t.action.due)
    ensures var st' := Maintain(st, t.at, t.action.timedOut, t.action.due, t.peers);
            && StateOf(st', a) == NextState(st, t, a)
            && RequestsFor(st'.requests, a) == RequestsFor(st.requests, a) + (if Asks(st, t, a) then 1 else 0)
            && (a in st.candidates && !Starts(st, t, a) ==> st'.candidates[a].prober == st.candidates[a].prober)
  {
    var timedOut, due := t.action.timedOut, t.action.due;
    if a in st.candidates {
      var st1 := RejectAll(st, timedOut);
      RejectAllOn(st, timedOut, a);
      RevalidateAllOn(st1, due, t.at, a);
      RequestAllOn(RevalidateAll(st1, due, t.at), due, t.peers, a);
    } else {
      AbsentStaysAbsent(st, timedOut, due, t, a);
    }
  }

  lemma ObserveOn(st: State, t: Timed, a: Multiaddr)
    requires t.action.DoObserve?
    ensures var st' := OnObserved(st, t.action.peer, t.action.addr, t.peers, t.at);
            && StateOf(st', a) == NextState(st, t, a)
            && RequestsFor(st'.requests, a) == RequestsFor(st.requests, a) + (if Asks(st, t, a) then 1 else 0)
            && (a in st.candidates && !Starts(st, t, a) ==> st'.candidates[a] == st.candidates[a])
  {
    var addr := t.action.addr;
    if MayValidate(st, addr) {
      RequestOn(st.(candidates := st.candidates[addr := Candidate(Pending(t.at), t.action.peer)]), addr, t.peers, a);
    }
  }

  /** One action, seen from one address: its state changes exactly as NextState says, a
      request is sent exactly when Asks holds, and only a start can change its prober. */
  lemma StepOn(st: State, t: Timed, st': State, a: Multiaddr)
    requires Step(st, t, st')
    ensures StateOf(st', a) == NextState(st, t, a)
    ensures RequestsFor(st'.requests, a) == RequestsFor(st.requests, a) + if Asks(st, t, a) then 1 else 0
    ensures a in st.candidates && !Starts(st, t, a) ==> st'.candidates[a].prober == st.candidates[a].prober
  {
    match t.action {
      case DoObserve(_, _) => ObserveOn(st, t, a);
      case DoResult(_, _, _) =>
      case DoMaintain(_, _) => MaintainOn(st, t, a);
    }
  }

  /** What a maintenance does to each candidate: a validation that is 15 s old fails, a success
      that is five minutes old is asked about again, and everything younger stays as it is. */
  lemma MaintenanceDecides(st: State, t: Timed, st': State, a: Multiaddr)
    requires Step(st, t, st') && t.action.DoMaintain? && a in st.candidates
    ensures match st.candidates[a].state
            case Pending(since) => StateOf(st', a) == Some(if t.at >= since + 15_000 then Rejected(1) else Pending(since))
            case Validated(since) => StateOf(st', a) == Some(if t.at >= since + 300_000 then Pending(t.at) else Validated(since))
            case Rejected(attempts) => StateOf(st', a) == Some(Rejected(attempts))
  {
    StepOn(st, t, st', a);
  }

  // ---- What the count means ----

  /** Refusals and timeouts of `a` in the first n actions, since the last validation of it
      started or succeeded. */
  ghost function Refusals(states: seq<State>, run: seq<Timed>, n: nat, a: Multiaddr): nat
    requires n <= |run| && n <= |states|
  {
    if n == 0 then 0
    else
      var st, t := states[n - 1], run[n - 1];
      if Starts(st, t, a) || VerdictOf(st, t, a) == Some(true) then 0
      else Refusals(states, run, n - 1, a) + if VerdictOf(st, t, a) == Some(false) then 1 else 0
  }

  /** Validations of `a` started with somebody to ask. */
  ghost function StartsIn(states: seq<State>, run: seq<Timed>, n: nat, a: Multiaddr): nat
    requires n <= |run| && n <= |states|
  {
    if n == 0 then 0 else StartsIn(states, run, n - 1, a) + if Asks(states[n - 1], run[n - 1], a) then 1 else 0
  }

  ghost predicate Exhausted(st: State, a: Multiaddr) {
    a in st.candidates && !MayValidate(st, a) && st.candidates[a].state.Rejected?
  }

  /** The table records `refusals` for `a`. */
  ghost predicate Recorded(st: State, a: Multiaddr, refusals: nat) {
    && (a in st.candidates && st.candidates[a].state.Rejected? <==> refusals > 0)
    && (refusals > 0 ==> st.candidates[a].state.attempts == refusals)
  }

  lemma RefusalStep(st: State, t: Timed, st': State, a: Multiaddr, refusals: nat)
    requires Step(st, t, st') && Recorded(st, a, refusals)
    ensures Starts(st, t, a) || VerdictOf(st, t, a) == Some(true) ==> Recorded(st', a, 0)
    ensures !Starts(st, t, a) && VerdictOf(st, t, a) == Some(false) ==> Recorded(st', a, refusals + 1)
    ensures !Starts(st, t, a) && VerdictOf(st, t, a) == None ==> Recorded(st', a, refusals)
  {
    StepOn(st, t, st', a);
    assert StateOf(st', a) == NextState(st, t, a);
  }

  /** In every run: the attempts recorded for an address are the refusals since its last
      validation started or succeeded, so it is given up exactly after three refusals with no
      start and no success between them; and the requests sent are exactly the validations
      started with somebody to ask. */
  lemma {:induction false} AttemptsAreRefusals(states: seq<State>, run: seq<Timed>, n: nat, a: Multiaddr)
    requires IsRun(states, run) && n <= |run|
    ensures Recorded(states[n], a, Refusals(states, run, n, a))
    ensures Exhausted(states[n], a) <==> Refusals(states, run, n, a) >= MAX_VALIDATION_ATTEMPTS
    ensures RequestsFor(states[n].requests, a) == StartsIn(states, run, n, a)
  {
    if n > 0 {
      AttemptsAreRefusals(states, run, n - 1, a);
      assert Step(states[n - 1], run[n - 1], states[n]);
      StepOn(states[n - 1], run[n - 1], states[n], a);
      RefusalStep(states[n - 1], run[n - 1], states[n], a, Refusals(states, run, n - 1, a));
    }
  }

  // ---- An address that is given up ----

  ghost predicate PositiveBetween(states: seq<State>, run: seq<Timed>, m: nat, n: nat, a: Multiaddr)
    requires n <= |run| && n <= |states|
  {
    exists i :: m <= i < n && VerdictOf(states[i], run[i], a) == Some(true)
  }

  lemma PositiveSnoc(states: seq<State>, run: seq<Timed>, m: nat, n: nat, a: Multiaddr)
    requires m < n <= |run| && n <= |states|
    ensures PositiveBetween(states, run, m, n, a)
            <==> PositiveBetween(states, run, m, n - 1, a) || VerdictOf(states[n - 1], run[n - 1], a) == Some(true)
  {
  }

  lemma ExhaustedStep(st: State, t: Timed, st': State, a: Multiaddr)
    requires Step(st, t, st') && Exhausted(st, a)
    ensures RequestsFor(st'.requests, a) == RequestsFor(st.requests, a)
    ensures st'.candidates.Keys >= {a} && st'.candidates[a].prober == st.candidates[a].prober
    ensures Exhausted(st', a) <==> VerdictOf(st, t, a) != Some(true)
    ensures VerdictOf(st, t, a) == Some(true) ==> st'.candidates[a].state == Validated(t.at)
  {
    StepOn(st, t, st', a);
    assert StateOf(st', a) == NextState(st, t, a);
  }

  /** Once given up, an address stays given up and unasked until its recorded prober answers
      positively, and only until then: at every later moment it has been given up throughout
      if and only if no such answer has come. */
  lemma {:induction false} ExhaustedUntilPositive(states: seq<State>, run: seq<Timed>, m: nat, n: nat, a: Multiaddr)
    requires IsRun(states, run) && m <= n <= |run| && Exhausted(states[m], a)
    ensures (forall i | m <= i <= n :: Exhausted(states[i], a)) <==> !PositiveBetween(states, run, m, n, a)
    ensures !PositiveBetween(states, run, m, n, a) ==>
              && RequestsFor(states[n].requests, a) == RequestsFor(states[m].requests, a)
              && states[n].candidates[a].prober == states[m].candidates[a].prober
    decreases n - m
  {
    if n > m {
      ExhaustedUntilPositive(states, run, m, n - 1, a);
      assert Step(states[n - 1], run[n - 1], states[n]);
      if !PositiveBetween(states, run, m, n - 1, a) {
        assert Exhausted(states[n - 1], a);
        ExhaustedStep(states[n - 1], run[n - 1], states[n], a);
      }
      PositiveSnoc(states, run, m, n, a);
    }
  }

  /** And then it is asked about again: a positive answer, a maintenance one interval later and
      a refusal leave one attempt, whatever was recorded before. */
  lemma ExhaustedIsRevived(states: seq<State>, run: seq<Timed>, m: nat, a: Multiaddr)
    requires IsRun(states, run) && m + 3 <= |run| && Exhausted(states[m], a)
    requires VerdictOf(states[m], run[m], a) == Some(true)
    requires run[m + 1].action.DoMaintain? && run[m].at + PUBLIC_REVALIDATE_INTERVAL <= run[m + 1].at
    requires Available(states[m].candidates[a].prober, run[m + 1].peers)
    requires VerdictOf(states[m + 2], run[m + 2], a) == Some(false)
    ensures RequestsFor(states[m + 3].requests, a) == RequestsFor(states[m].requests, a) + 1
    ensures StateOf(states[m + 3], a) == Some(Rejected(1)) && MayValidate(states[m + 3], a)
  {
    assert Step(states[m], run[m], states[m + 1]) && Step(states[m + 1], run[m + 1], states[m + 2])
        && Step(states[m + 2], run[m + 2], states[m + 3]);
    ExhaustedStep(states[m], run[m], states[m + 1], a);
    StepOn(states[m + 1], run[m + 1], states[m + 2], a);
    StepOn(states[m + 2], run[m + 2], states[m + 3], a);
    assert StateOf(states[m + 2], a) == NextState(states[m + 1], run[m + 1], a);
    assert StateOf(states[m + 3], a) == NextState(states[m + 2], run[m + 2], a);
  }

  // ---- The limit does not limit the validations ----

  /** A rejected candidate that is observed again forgets its attempts: the next negative
      answer counts as the first. */
  lemma AttemptsForgotten(st: State, peer: PeerId, addr: Multiaddr, peers: Peers, now: nat, later: nat)
    requires MayValidate(st, addr) && peer in peers.all
    ensures var asked := OnObserved(st, peer, addr, peers, now);
            var st' := OnDialBackRes(asked, peer, addr, false, later);
            && st'.requests == st.requests + [Request(addr, peer)]
            && st'.candidates[addr] == Candidate(Rejected(1), peer)
  {
  }

  /** A round for `addr` at time n: it is observed by `peer`, who is asked, and refuses. */
  function Round(peer: PeerId, addr: Multiaddr, n: nat): seq<Timed> {
    [Timed(n, Peers({peer}, None), DoObserve(peer, addr)), Timed(n, Peers({peer}, None), DoResult(peer, addr, false))]
  }

  lemma RunSnoc(states: seq<State>, run: seq<Timed>, t: Timed, st: State)
    requires IsRun(states, run) && Step(states[|run|], t, st)
    ensures IsRun(states + [st], run + [t])
  {
    forall i | 0 <= i < |run + [t]|
      ensures Step((states + [st])[i], (run + [t])[i], (states + [st])[i + 1])
    {
      if i < |run| {
        assert Step(states[i], run[i], states[i + 1]);
      }
    }
  }

  lemma OneRound(states: seq<State>, run: seq<Timed>, peer: PeerId, addr: Multiaddr, n: nat) returns (states': seq<State>)
    requires IsRun(states, run) && MayValidate(states[|run|], addr)
    ensures IsRun(states', run + Round(peer, addr, n)) && MayValidate(states'[|run| + 2], addr)
    ensures RequestsFor(states'[|run| + 2].requests, addr) == RequestsFor(states[|run|].requests, addr) + 1
  {
    var st, peers, round := states[|run|], Peers({peer}, None), Round(peer, addr, n);
    var asked := OnObserved(st, peer, addr, peers, n);
    var refused := OnDialBackRes(asked, peer, addr, false, n);
    AttemptsForgotten(st, peer, addr, peers, n, n);
    RequestsSnoc(st.requests, Request(addr, peer), addr);
    RunSnoc(states, run, round[0], asked);
    RunSnoc(states + [asked], run + [round[0]], round[1], refused);
    states' := states + [asked] + [refused];
    assert run + [round[0]] + [round[1]] == run + round;
  }

  /** So the limit of three attempts does not hold: for every n there is a run of the table in
      which one address is asked about n times, is refused every time, and may be asked about
      again. */
  lemma {:induction false} NoLimitOnAttempts(peer: PeerId, addr: Multiaddr, n: nat) returns (states: seq<State>, run: seq<Timed>)
    ensures IsRun(states, run) && |run| == 2 * n
    ensures RequestsFor(states[|run|].requests, addr) == n && MayValidate(states[|run|], addr)
    ensures forall i | 0 <= i < n :: run[2 * i..2 * i + 2] == Round(peer, addr, i)
  {
    if n == 0 {
      states, run := [EMPTY], [];
    } else {
      var before;
      before, run := NoLimitOnAttempts(peer, addr, n - 1);
      states := OneRound(before, run, peer, addr, n - 1);
      ghost var front := run;
      run := run + Round(peer, addr, n - 1);
      forall i | 0 <= i < n
        ensures run[2 * i..2 * i + 2] == Round(peer, addr, i)
      {
        if i < n - 1 {
          assert run[2 * i..2 * i + 2] == front[2 * i..2 * i + 2];
        }
      }
    }
  }
}
