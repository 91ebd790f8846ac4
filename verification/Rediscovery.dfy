/** That lookups go on (src/node.rs). Module Lookups bounds the queries from above; this module
    says which ones must be sent, when, and what ends a lookup. */
module Rediscovery {
  import opened Library
  import opened Lookups

  // ---- One event ----

  lemma {:induction false} RetryIsChain(retries: seq<Retry>, peer: PeerId)
    ensures RetryChains(retries, peer) > 0 <==> exists r :: r in retries && r.peer == peer
    decreases |retries|
  {
    if retries != [] {
      var front, last := retries[..|retries| - 1], retries[|retries| - 1];
      RetryIsChain(front, peer);
      assert retries == front + [last];
    }
  }

  lemma {:induction false} PendingIsChain(p: map<nat, Request>, peer: PeerId, n: nat)
    ensures PendingChains(p, peer, n) > 0 <==> exists id :: id < n && id in p && p[id].peer == peer
  {
    if n > 0 {
      PendingIsChain(p, peer, n - 1);
    }
  }

  lemma InFlightIsChain(st: State, peer: PeerId)
    requires Valid(st)
    ensures InFlight(st, peer) <==> Chains(st, peer) > 0
  {
    RetryIsChain(st.retries, peer);
    PendingIsChain(st.pending, peer, st.nextQuery);
  }

  /** The queue has one more entry, for `peer`, and nothing else in it moved. */
  predicate Queued(st: State, st': State, peer: PeerId, attempts: nat, nextAt: nat, now: nat) {
    st'.retries == st.retries + [Retry(peer, attempts, nextAt)] && st'.enqueuedAt == st.enqueuedAt + [now]
  }

  /** A rediscovery leaves the peer with a chain. A peer without one gets exactly one, due after
      exactly the delay and with all ten queries ahead; a peer that has one keeps it. */
  lemma RediscoveryStarts(st: State, peer: PeerId, delay: nat, now: nat)
    requires Valid(st)
    ensures var st' := ScheduleRediscovery(st, peer, delay, now);
            && Chains(st', peer) >= 1
            && (Chains(st, peer) == 0 ==>
                  && Chains(st', peer) == 1 && Queued(st, st', peer, 1, now + delay, now)
                  && st'.pending == st.pending && Potential(st') == Potential(st) + MAX_LOOKUP_ATTEMPTS)
            && (Chains(st, peer) > 0 ==> st' == st)
  {
    InFlightIsChain(st, peer);
    RetryChainsPush(st.retries, Retry(peer, 1, now + delay), peer);
    EnqueuePotential(st, Retry(peer, 1, now + delay), now);
  }

  /** A lookup sends its first query at once and has nine left. */
  lemma LookupStarts(st: State, peer: PeerId)
    requires Valid(st)
    ensures var st' := Lookup(st, peer);
            && Chains(st', peer) == Chains(st, peer) + 1 && QueriedIn(st, st', peer)
            && Potential(st') == Potential(st) + (MAX_LOOKUP_ATTEMPTS - 1) && st'.retries == st.retries
  {
    IssueChains(st, peer, 1, peer);
    IssuePotential(st, peer, 1);
    assert st.nextQuery in Lookup(st, peer).pending;
  }

  /** What an answer does: a miss with queries left keeps the chain, one second out and with one
      query less; anything else, and a miss without any left, ends it. Other chains, and
      answers to other queries, are not affected. */
  lemma AnswerDecides(st: State, id: nat, answer: Answer, now: nat, other: PeerId)
    requires Valid(st)
    ensures var st' := OnAnswer(st, id, answer, now);
            if id !in st.pending then st' == st
            else
              var req := st.pending[id];
              && st'.pending == st.pending - {id}
              && (other != req.peer ==> Chains(st', other) == Chains(st, other))
              && if answer.Missing? && req.attempts < MAX_LOOKUP_ATTEMPTS
                 then Chains(st', req.peer) == Chains(st, req.peer) && Queued(st, st', req.peer, req.attempts + 1, now + 1000, now)
                 else Chains(st', req.peer) + 1 == Chains(st, req.peer) && st'.retries == st.retries
  {
    if id in st.pending {
      var req := st.pending[id];
      ChainsRemove(st.pending, req.peer, id, st.nextQuery);
      ChainsRemove(st.pending, other, id, st.nextQuery);
      RetryChainsPush(st.retries, Retry(req.peer, req.attempts + 1, now + LOOKUP_RETRY_DELAY), req.peer);
      RetryChainsPush(st.retries, Retry(req.peer, req.attempts + 1, now + LOOKUP_RETRY_DELAY), other);
    }
  }

  // ---- A tick ----

  /** A new query for `peer` was sent between the two states. */
  ghost predicate QueriedIn(st: State, st': State, peer: PeerId) {
    exists id :: st.nextQuery <= id < st'.nextQuery && id in st'.pending && st'.pending[id].peer == peer
  }

  /** A query for `peer` is waiting for its answer. */
  ghost predicate Outstanding(st: State, peer: PeerId) {
    exists id :: id in st.pending && st.pending[id].peer == peer
  }

  /** A retry for `peer` that was queued no later than `since`. */
  ghost predicate Waiting(st: State, peer: PeerId, since: nat) {
    exists i :: 0 <= i < |st.retries| && i < |st.enqueuedAt| && st.retries[i].peer == peer && st.enqueuedAt[i] <= since
  }

  lemma {:induction false} ReissueKeepsPending(st: State, now: nat)
    requires Valid(st)
    ensures var st' := Reissue(st, now);
            st.nextQuery <= st'.nextQuery && forall id | id in st.pending :: id in st'.pending && st'.pending[id] == st.pending[id]
    decreases |st.retries|
  {
    if Due(st, now) {
      PopPotential(st);
      assert st.nextQuery !in st.pending;
      ReissueKeepsPending(PopAndIssue(st), now);
    }
  }

  /** How many entries a tick releases. */
  function ReleasedCount(st: State, now: nat): int { |st.retries| - |Reissue(st, now).retries| }

  /** A tick releases the longest prefix of the queue that is due: all of it is, and the entry
      after it, if any, is not. */
  lemma {:induction false} TickReleasesDuePrefix(st: State, now: nat)
    requires Valid(st)
    ensures var n := ReleasedCount(st, now);
            && 0 <= n <= |st.retries| && Reissue(st, now).retries == st.retries[n..]
            && (forall i | 0 <= i < n :: st.retries[i].nextAt <= now)
            && (n < |st.retries| ==> st.retries[n].nextAt > now)
    decreases |st.retries|
  {
    if Due(st, now) {
      var st1 := PopAndIssue(st);
      PopPotential(st);
      TickReleasesDuePrefix(st1, now);
      var n := ReleasedCount(st, now);
      assert st1.retries == st.retries[1..] && st.retries[1..][n - 1..] == st.retries[n..];
      assert forall i | 1 <= i < |st.retries| :: st.retries[i] == st1.retries[i - 1];
    } else {
      assert st.retries[0..] == st.retries;
    }
  }

  /** And it sends a query for each of them, with the attempts it has used. */
  lemma {:induction false} ReleasedAreQueried(st: State, now: nat, i: nat)
    requires Valid(st) && i < ReleasedCount(st, now)
    ensures i < |st.retries| && st.nextQuery + i < Reissue(st, now).nextQuery && st.nextQuery + i in Reissue(st, now).pending
    ensures Reissue(st, now).pending[st.nextQuery + i] == Request(st.retries[i].peer, st.retries[i].attempts)
    decreases |st.retries|
  {
    ReissuePotential(st, now);
    if Due(st, now) {
      var st1 := PopAndIssue(st);
      PopPotential(st);
      if i == 0 {
        ReissueKeepsPending(st1, now);
        assert st.nextQuery in st1.pending;
      } else {
        ReleasedAreQueried(st1, now, i - 1);
        assert st1.retries[i - 1] == st.retries[i];
      }
    }
  }

  lemma TickWaiting(st: State, now: nat, peer: PeerId, since: nat)
    requires Valid(st) && Waiting(st, peer, since)
    ensures Waiting(Reissue(st, now), peer, since) || QueriedIn(st, Reissue(st, now), peer)
  {
    var st' := Reissue(st, now);
    TickReleasesDuePrefix(st, now);
    ReissuePotential(st, now);
    TickTimes(st, now);
    var i :| 0 <= i < |st.retries| && i < |st.enqueuedAt| && st.retries[i].peer == peer && st.enqueuedAt[i] <= since;
    var n := ReleasedCount(st, now);
    if i < n {
      ReleasedAreQueried(st, now, i);
    } else {
      assert st'.retries[i - n] == st.retries[i] && st'.enqueuedAt[i - n] == st.enqueuedAt[i];
    }
  }

  lemma {:induction false} TickTimes(st: State, now: nat)
    requires Valid(st)
    ensures var st' := Reissue(st, now);
            |st'.retries| <= |st.retries| && st'.enqueuedAt == st.enqueuedAt[|st.retries| - |st'.retries|..]
    decreases |st.retries|
  {
    ReissuePotential(st, now);
    if Due(st, now) {
      PopPotential(st);
      TickTimes(PopAndIssue(st), now);
      var n := |st.retries| - |Reissue(st, now).retries|;
      assert st.enqueuedAt[1..][n - 1..] == st.enqueuedAt[n..];
    } else {
      assert st.enqueuedAt[0..] == st.enqueuedAt;
    }
  }

  /** Nothing but a tick takes a waiting retry away, and then its query is sent. */
  lemma StepWaiting(st: State, t: Timed, peer: PeerId, since: nat)
    requires Valid(st) && Waiting(st, peer, since)
    ensures Waiting(Apply(st, t), peer, since) || QueriedIn(st, Apply(st, t), peer)
  {
    var i :| 0 <= i < |st.retries| && i < |st.enqueuedAt| && st.retries[i].peer == peer && st.enqueuedAt[i] <= since;
    var st' := Apply(st, t);
    if t.action.DoReissue? {
      TickWaiting(st, t.at, peer, since);
    } else {
      assert st'.retries[i] == st.retries[i] && st'.enqueuedAt[i] == st.enqueuedAt[i];
    }
  }

  // ---- Runs ----

  lemma RediscoveryWaits(st: State, peer: PeerId, delay: nat, now: nat)
    requires Valid(st) && OnTime(st, now)
    ensures Outstanding(st, peer) || Waiting(ScheduleRediscovery(st, peer, delay, now), peer, now)
  {
    var st' := ScheduleRediscovery(st, peer, delay, now);
    if InFlight(st, peer) {
      if !Outstanding(st, peer) {
        var r :| r in st.retries && r.peer == peer;
        var i :| 0 <= i < |st.retries| && st.retries[i] == r;
        assert st.enqueuedAt[i] <= now;
      }
    } else {
      assert st'.retries[|st.retries|].peer == peer && st'.enqueuedAt[|st.retries|] == now;
    }
  }

  /** The state after the first n actions. */
  function At(run: seq<Timed>, n: nat): State
    requires n <= |run|
  {
    Run(EMPTY, run[..n])
  }

  lemma NextState(run: seq<Timed>, n: nat)
    requires n < |run|
    ensures At(run, n + 1) == Apply(At(run, n), run[n]) && Valid(At(run, n))
  {
    assert run[..n + 1][..n] == run[..n] && run[..n + 1][n] == run[n];
    QueriesBounded(EMPTY, run[..n]);
  }

  /** A query for `peer` is sent by one of the actions m to n - 1. */
  ghost predicate QueriedDuring(run: seq<Timed>, m: nat, n: nat, peer: PeerId)
    requires n <= |run|
  {
    exists i :: m <= i < n && QueriedIn(At(run, i), At(run, i + 1), peer)
  }

  lemma {:induction false} WaitsOrQueried(run: seq<Timed>, m: nat, n: nat, peer: PeerId, since: nat)
    requires m <= n <= |run| && Waiting(At(run, m), peer, since)
    ensures Waiting(At(run, n), peer, since) || QueriedDuring(run, m, n, peer)
    decreases n - m
  {
    if n > m {
      WaitsOrQueried(run, m, n - 1, peer, since);
      if Waiting(At(run, n - 1), peer, since) {
        NextState(run, n - 1);
        StepWaiting(At(run, n - 1), run[n - 1], peer, since);
      }
    }
  }

  lemma OldRetriesGone(run: seq<Timed>, n: nat, peer: PeerId, since: nat)
    requires Chronological(run) && n < |run| && run[n].action.DoReissue? && run[n].at >= since + RECONNECT_DELAY
    ensures !Waiting(At(run, n + 1), peer, since)
  {
    TickReleasesOldRetries(run[..n + 1]);
  }

  /** A rediscovered peer is queried again by the first tick RECONNECT_DELAY or more later:
      either a query was outstanding, or one has been sent by then. */
  lemma QueriedByTick(run: seq<Timed>, m: nat, n: nat, peer: PeerId)
    requires Chronological(run) && m < n < |run|
    requires run[m].action.DoRediscover? && run[m].action.peer == peer
    requires run[n].action.DoReissue? && run[n].at >= run[m].at + RECONNECT_DELAY
    ensures Outstanding(At(run, m), peer) || QueriedDuring(run, m + 1, n + 1, peer)
  {
    RediscoveryRuns(run, m, peer);
    if !Outstanding(At(run, m), peer) {
      WaitsOrQueried(run, m + 1, n + 1, peer, run[m].at);
      OldRetriesGone(run, n, peer, run[m].at);
    }
  }

  lemma RediscoveryRuns(run: seq<Timed>, m: nat, peer: PeerId)
    requires Chronological(run) && m < |run| && run[m].action.DoRediscover? && run[m].action.peer == peer
    ensures Outstanding(At(run, m), peer) || Waiting(At(run, m + 1), peer, run[m].at)
  {
    NextState(run, m);
    RunOnTime(run[..m]);
    LaterOnTime(At(run, m), if m == 0 then 0 else run[m - 1].at, run[m].at);
    RediscoveryWaits(At(run, m), peer, run[m].action.delay, run[m].at);
  }

  lemma LaterOnTime(st: State, clock: nat, later: nat)
    requires OnTime(st, clock) && clock <= later
    ensures OnTime(st, later)
  {
  }

  /** The bound is RECONNECT_DELAY and not the entry's own delay: an entry due after one second
      is held back by an earlier one that is due after three. */
  lemma ShortDelayHeldBack(p: PeerId, q: PeerId)
    requires p != q
    ensures var run := [Timed(0, DoRediscover(p, RECONNECT_DELAY)), Timed(0, DoRediscover(q, LOOKUP_RETRY_DELAY)), Timed(LOOKUP_RETRY_DELAY, DoReissue)];
            Chronological(run) && Run(EMPTY, run).nextQuery == 0
            && Run(EMPTY, run).retries == [Retry(p, 1, RECONNECT_DELAY), Retry(q, 1, LOOKUP_RETRY_DELAY)]
  {
    var a, b, c := Timed(0, DoRediscover(p, RECONNECT_DELAY)), Timed(0, DoRediscover(q, LOOKUP_RETRY_DELAY)), Timed(LOOKUP_RETRY_DELAY, DoReissue);
    assert [a, b, c][..2] == [a, b] && [a, b][..1] == [a] && [a][..0] == [];
    var st1 := Apply(EMPTY, a);
    assert st1.retries == [Retry(p, 1, RECONNECT_DELAY)];
    var st2 := Apply(st1, b);
    assert st2.retries == [Retry(p, 1, RECONNECT_DELAY), Retry(q, 1, LOOKUP_RETRY_DELAY)];
    assert Run(EMPTY, [a]) == st1 && Run(EMPTY, [a, b]) == st2;
  }
}
