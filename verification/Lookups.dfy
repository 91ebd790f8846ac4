/** Discovery lookups and their retries (src/node.rs). Times are milliseconds; query ids come
    from a counter shared with the DHT's own queries. */
module Lookups {
  import opened Library

  const MAX_LOOKUP_ATTEMPTS: nat := 10
  const LOOKUP_RETRY_DELAY: nat := 1000
  const RECONNECT_DELAY: nat := 3000

  datatype Request = Request(peer: PeerId, attempts: nat)
  datatype Retry = Retry(peer: PeerId, attempts: nat, nextAt: nat)

  /** `enqueuedAt` records when each queued retry was queued; the code does not keep it. */
  datatype State = State(pending: map<nat, Request>, retries: seq<Retry>, nextQuery: nat, enqueuedAt: seq<nat>)

  datatype Answer = Found | Missing | Unrelated

  predicate InFlight(st: State, peer: PeerId) {
    (exists id :: id in st.pending && st.pending[id].peer == peer) || (exists r :: r in st.retries && r.peer == peer)
  }

  function Issue(st: State, peer: PeerId, attempts: nat): State {
    st.(pending := st.pending[st.nextQuery := Request(peer, attempts)], nextQuery := st.nextQuery + 1)
  }

  function Enqueue(st: State, r: Retry, now: nat): State {
    st.(retries := st.retries + [r], enqueuedAt := st.enqueuedAt + [now])
  }

  /** A lookup asked for by the user. */
  function Lookup(st: State, peer: PeerId): State {
    Issue(st, peer, 1)
  }

  function ScheduleRediscovery(st: State, peer: PeerId, delay: nat, now: nat): State {
    if InFlight(st, peer) then st else Enqueue(st, Retry(peer, 1, now + delay), now)
  }

  /** A query made progress. */
  function OnAnswer(st: State, id: nat, answer: Answer, now: nat): State {
    if id !in st.pending then st
    else
      var req := st.pending[id];
      var st1 := st.(pending := st.pending - {id});
      if answer.Missing? && req.attempts < MAX_LOOKUP_ATTEMPTS
      then Enqueue(st1, Retry(req.peer, req.attempts + 1, now + LOOKUP_RETRY_DELAY), now)
      else st1
  }

  predicate Due(st: State, now: nat) {
    st.retries != [] && st.retries[0].nextAt <= now
  }

  function PopAndIssue(st: State): State
    requires st.retries != []
  {
    Issue(st.(retries := st.retries[1..], enqueuedAt := if st.enqueuedAt == [] then [] else st.enqueuedAt[1..]),
          st.retries[0].peer, st.retries[0].attempts)
  }

  /** The maintenance loop: re-issues from the front while the front is due. */
  function Reissue(st: State, now: nat): State
    decreases |st.retries|
  {
    if Due(st, now) then Reissue(PopAndIssue(st), now) else st
  }

  // ---- The object the program updates in place ----

  class LookupScheduler {
    var pending: map<nat, Request>
    var retries: seq<Retry>
    var nextQuery: nat
    ghost var enqueuedAt: seq<nat>

    ghost function View(): State
      reads this
    {
      State(pending, retries, nextQuery, enqueuedAt)
    }

    constructor ()
      ensures View() == State(map[], [], 0, [])
    {
      pending, retries, nextQuery, enqueuedAt := map[], [], 0, [];
    }

    method StartLookup(peer: PeerId) returns (id: nat)
      modifies this
      ensures View() == Lookup(old(View()), peer) && id == old(nextQuery)
    {
      id := nextQuery;
      nextQuery := nextQuery + 1;
      pending := pending[id := Request(peer, 1)];
    }

    method Rediscover(peer: PeerId, delay: nat, now: nat)
      modifies this
      ensures View() == ScheduleRediscovery(old(View()), peer, delay, now)
    {
      if (exists id :: id in pending && pending[id].peer == peer) || (exists r :: r in retries && r.peer == peer) {
        return;
      }
      retries := retries + [Retry(peer, 1, now + delay)];
      enqueuedAt := enqueuedAt + [now];
    }

    method QueryProgressed(id: nat, answer: Answer, now: nat)
      modifies this
      ensures View() == OnAnswer(old(View()), id, answer, now)
    {
      if id !in pending {
        return;
      }
      var req := pending[id];
      pending := pending - {id};
      if answer.Missing? {
        if req.attempts < MAX_LOOKUP_ATTEMPTS {
          retries := retries + [Retry(req.peer, req.attempts + 1, now + LOOKUP_RETRY_DELAY)];
          enqueuedAt := enqueuedAt + [now];
        }
      }
    }

    method ReissueDue(now: nat)
      modifies this
      ensures View() == Reissue(old(View()), now)
    {
      while retries != []
        invariant Reissue(View(), now) == Reissue(old(View()), now)
        decreases |retries|
      {
        if retries[0].nextAt > now {
          break;
        }
        var retry := retries[0];
        retries := retries[1..];
        enqueuedAt := if enqueuedAt == [] then [] else enqueuedAt[1..];
        var id := nextQuery;
        nextQuery := nextQuery + 1;
        pending := pending[id := Request(retry.peer, retry.attempts)];
      }
    }
  }

  // ---- Attempts and the query budget ----

  predicate InRange(attempts: nat) { 1 <= attempts <= MAX_LOOKUP_ATTEMPTS }

  predicate Valid(st: State) {
    && (forall id | id in st.pending :: id < st.nextQuery && InRange(st.pending[id].attempts))
    && (forall i | 0 <= i < |st.retries| :: InRange(st.retries[i].attempts))
    && |st.enqueuedAt| == |st.retries|
  }

  /** Queries the pending ones below `n` may still lead to. */
  function PendingBudget(pending: map<nat, Request>, n: nat): nat {
    if n == 0 then 0
    else PendingBudget(pending, n - 1)
         + if n - 1 in pending && pending[n - 1].attempts <= MAX_LOOKUP_ATTEMPTS then MAX_LOOKUP_ATTEMPTS - pending[n - 1].attempts else 0
  }

  function RetryBudget(retries: seq<Retry>): nat
    decreases |retries|
  {
    if retries == [] then 0
    else RetryBudget(retries[..|retries| - 1])
         + if retries[|retries| - 1].attempts <= MAX_LOOKUP_ATTEMPTS then MAX_LOOKUP_ATTEMPTS + 1 - retries[|retries| - 1].attempts else 0
  }

  /** The potential: how many more queries the lookups already started can cause. */
  function Potential(st: State): nat {
    PendingBudget(st.pending, st.nextQuery) + RetryBudget(st.retries)
  }

  lemma {:induction false} BudgetUnchanged(p: map<nat, Request>, q: map<nat, Request>, n: nat)
    requires forall id | id < n :: (id in p <==> id in q) && (id in p ==> p[id] == q[id])
    ensures PendingBudget(p, n) == PendingBudget(q, n)
  {
    if n > 0 {
      BudgetUnchanged(p, q, n - 1);
    }
  }

  lemma {:induction false} BudgetRemove(p: map<nat, Request>, id: nat, n: nat)
    requires id in p && id < n && p[id].attempts <= MAX_LOOKUP_ATTEMPTS
    ensures PendingBudget(p - {id}, n) + (MAX_LOOKUP_ATTEMPTS - p[id].attempts) == PendingBudget(p, n)
  {
    if id == n - 1 {
      BudgetUnchanged(p, p - {id}, n - 1);
    } else {
      BudgetRemove(p, id, n - 1);
    }
  }

  lemma RetryBudgetPush(retries: seq<Retry>, r: Retry)
    ensures RetryBudget(retries + [r]) == RetryBudget(retries) + if r.attempts <= MAX_LOOKUP_ATTEMPTS then MAX_LOOKUP_ATTEMPTS + 1 - r.attempts else 0
  {
    assert (retries + [r])[..|retries|] == retries;
  }

  lemma {:induction false} RetryBudgetPop(retries: seq<Retry>)
    requires retries != [] && retries[0].attempts <= MAX_LOOKUP_ATTEMPTS
    ensures RetryBudget(retries) == RetryBudget(retries[1..]) + (MAX_LOOKUP_ATTEMPTS + 1 - retries[0].attempts)
    decreases |retries|
  {
    if |retries| == 1 {
      assert retries[1..] == [] && retries[..0] == [];
    } else {
      var front := retries[..|retries| - 1];
      RetryBudgetPop(front);
      assert retries[1..][..|retries| - 2] == front[1..];
    }
  }

  lemma IssuePotential(st: State, peer: PeerId, attempts: nat)
    requires Valid(st) && InRange(attempts)
    ensures Valid(Issue(st, peer, attempts))
    ensures Potential(Issue(st, peer, attempts)) == Potential(st) + (MAX_LOOKUP_ATTEMPTS - attempts)
  {
    var st' := Issue(st, peer, attempts);
    assert st.nextQuery !in st.pending;
    BudgetUnchanged(st.pending, st'.pending, st.nextQuery);
  }

  lemma PopPotential(st: State)
    requires Valid(st) && st.retries != []
    ensures Valid(PopAndIssue(st)) && Potential(PopAndIssue(st)) + 1 == Potential(st)
  {
    var popped := st.(retries := st.retries[1..], enqueuedAt := st.enqueuedAt[1..]);
    RetryBudgetPop(st.retries);
    assert Valid(popped);
    IssuePotential(popped, st.retries[0].peer, st.retries[0].attempts);
  }

  /** Each re-issued query takes exactly one off the potential. */
  lemma {:induction false} ReissuePotential(st: State, now: nat)
    requires Valid(st)
    ensures var st' := Reissue(st, now);
            && Valid(st') && |st'.retries| <= |st.retries|
            && st'.nextQuery - st.nextQuery == |st.retries| - |st'.retries|
            && Potential(st') + (|st.retries| - |st'.retries|) == Potential(st)
    decreases |st.retries|
  {
    if Due(st, now) {
      PopPotential(st);
      ReissuePotential(PopAndIssue(st), now);
    }
  }

  lemma EnqueuePotential(st: State, r: Retry, now: nat)
    requires Valid(st) && InRange(r.attempts)
    ensures Valid(Enqueue(st, r, now)) && Potential(Enqueue(st, r, now)) == Potential(st) + (MAX_LOOKUP_ATTEMPTS + 1 - r.attempts)
  {
    RetryBudgetPush(st.retries, r);
  }

  /** An answer never raises the potential; a miss that is retried keeps it. */
  lemma AnswerPotential(st: State, id: nat, answer: Answer, now: nat)
    requires Valid(st)
    ensures Valid(OnAnswer(st, id, answer, now)) && Potential(OnAnswer(st, id, answer, now)) <= Potential(st)
    ensures id in st.pending && answer.Missing? ==> Potential(OnAnswer(st, id, answer, now)) == Potential(st)
  {
    if id in st.pending {
      var req := st.pending[id];
      var st1 := st.(pending := st.pending - {id});
      BudgetRemove(st.pending, id, st.nextQuery);
      assert Valid(st1);
      if answer.Missing? && req.attempts < MAX_LOOKUP_ATTEMPTS {
        EnqueuePotential(st1, Retry(req.peer, req.attempts + 1, now + LOOKUP_RETRY_DELAY), now);
      }
    }
  }

  // ---- Runs ----

  /** Time never goes back between actions. `DhtQuery` is a query of the DHT itself. */
  datatype Action =
    | DoLookup(peer: PeerId)
    | DoRediscover(peer: PeerId, delay: nat)
    | DoAnswer(id: nat, answer: Answer)
    | DoReissue
    | DhtQuery

  datatype Timed = Timed(at: nat, action: Action)

  function Apply(st: State, t: Timed): State {
    match t.action
    case DoLookup(peer) => Lookup(st, peer)
    case DoRediscover(peer, delay) => ScheduleRediscovery(st, peer, delay, t.at)
    case DoAnswer(id, answer) => OnAnswer(st, id, answer, t.at)
    case DoReissue => Reissue(st, t.at)
    case DhtQuery => st.(nextQuery := st.nextQuery + 1)
  }

  function Run(st: State, run: seq<Timed>): State
    decreases |run|
  {
    if run == [] then st else Apply(Run(st, run[..|run| - 1]), run[|run| - 1])
  }

  const EMPTY: State := State(map[], [], 0, [])

  /** Queries re-issued by one action. */
  function Reissued(st: State, t: Timed): nat {
    if t.action.DoReissue? && |Reissue(st, t.at).retries| <= |st.retries| then |st.retries| - |Reissue(st, t.at).retries| else 0
  }

  function ReissuedIn(st: State, run: seq<Timed>): nat
    decreases |run|
  {
    if run == [] then 0
    else ReissuedIn(st, run[..|run| - 1]) + Reissued(Run(st, run[..|run| - 1]), run[|run| - 1])
  }

  /** What new lookups add: 9 retries after a user's query, 10 queries for a rediscovery. */
  function Granted(t: Timed): nat {
    match t.action
    case DoLookup(_) => MAX_LOOKUP_ATTEMPTS - 1
    case DoRediscover(_, _) => MAX_LOOKUP_ATTEMPTS
    case _ => 0
  }

  function GrantedIn(run: seq<Timed>): nat
    decreases |run|
  {
    if run == [] then 0 else GrantedIn(run[..|run| - 1]) + Granted(run[|run| - 1])
  }

  lemma ApplyPotential(st: State, t: Timed)
    requires Valid(st)
    ensures Valid(Apply(st, t)) && Potential(Apply(st, t)) + Reissued(st, t) <= Potential(st) + Granted(t)
  {
    match t.action {
      case DoLookup(peer) => IssuePotential(st, peer, 1);
      case DoRediscover(peer, delay) => EnqueuePotential(st, Retry(peer, 1, t.at + delay), t.at);
      case DoAnswer(id, answer) => AnswerPotential(st, id, answer, t.at);
      case DoReissue => ReissuePotential(st, t.at);
      case DhtQuery => assert st.nextQuery !in st.pending;
    }
  }

  /** Over every run, the queries re-issued so far plus the potential never exceed what was
      there at the start plus what new lookups added; attempts stay between 1 and 10. */
  lemma {:induction false} QueriesBounded(st: State, run: seq<Timed>)
    requires Valid(st)
    ensures Valid(Run(st, run)) && ReissuedIn(st, run) + Potential(Run(st, run)) <= Potential(st) + GrantedIn(run)
    decreases |run|
  {
    if run != [] {
      QueriesBounded(st, run[..|run| - 1]);
      ApplyPotential(Run(st, run[..|run| - 1]), run[|run| - 1]);
    }
  }

  // ---- One chain per peer ----

  function PendingChains(pending: map<nat, Request>, peer: PeerId, n: nat): nat {
    if n == 0 then 0 else PendingChains(pending, peer, n - 1) + if n - 1 in pending && pending[n - 1].peer == peer then 1 else 0
  }

  function RetryChains(retries: seq<Retry>, peer: PeerId): nat
    decreases |retries|
  {
    if retries == [] then 0 else RetryChains(retries[..|retries| - 1], peer) + if retries[|retries| - 1].peer == peer then 1 else 0
  }

  /** How many lookup chains for `peer` are under way. */
  function Chains(st: State, peer: PeerId): nat {
    PendingChains(st.pending, peer, st.nextQuery) + RetryChains(st.retries, peer)
  }

  lemma {:induction false} ChainsUnchanged(p: map<nat, Request>, q: map<nat, Request>, peer: PeerId, n: nat)
    requires forall id | id < n :: (id in p <==> id in q) && (id in p ==> p[id] == q[id])
    ensures PendingChains(p, peer, n) == PendingChains(q, peer, n)
  {
    if n > 0 {
      ChainsUnchanged(p, q, peer, n - 1);
    }
  }

  lemma {:induction false} ChainsRemove(p: map<nat, Request>, peer: PeerId, id: nat, n: nat)
    requires id in p && id < n
    ensures PendingChains(p - {id}, peer, n) + (if p[id].peer == peer then 1 else 0) == PendingChains(p, peer, n)
  {
    if id == n - 1 {
      ChainsUnchanged(p, p - {id}, peer, n - 1);
    } else {
      ChainsRemove(p, peer, id, n - 1);
    }
  }

  lemma RetryChainsPush(retries: seq<Retry>, r: Retry, peer: PeerId)
    ensures RetryChains(retries + [r], peer) == RetryChains(retries, peer) + if r.peer == peer then 1 else 0
  {
    assert (retries + [r])[..|retries|] == retries;
  }

  lemma {:induction false} RetryChainsPop(retries: seq<Retry>, peer: PeerId)
    requires retries != []
    ensures RetryChains(retries, peer) == RetryChains(retries[1..], peer) + if retries[0].peer == peer then 1 else 0
    decreases |retries|
  {
    if |retries| == 1 {
      assert retries[1..] == [] && retries[..0] == [];
    } else {
      var front := retries[..|retries| - 1];
      RetryChainsPop(front, peer);
      assert retries[1..][..|retries| - 2] == front[1..];
    }
  }

  lemma {:induction false} NoRetryNoChain(retries: seq<Retry>, peer: PeerId)
    requires forall r | r in retries :: r.peer != peer
    ensures RetryChains(retries, peer) == 0
    decreases |retries|
  {
    if retries != [] {
      NoRetryNoChain(retries[..|retries| - 1], peer);
    }
  }

  lemma {:induction false} NoPendingNoChain(p: map<nat, Request>, peer: PeerId, n: nat)
    requires forall id | id in p :: p[id].peer != peer
    ensures PendingChains(p, peer, n) == 0
  {
    if n > 0 {
      NoPendingNoChain(p, peer, n - 1);
    }
  }

  lemma IssueChains(st: State, peer: PeerId, attempts: nat, p: PeerId)
    requires Valid(st)
    ensures Chains(Issue(st, peer, attempts), p) == Chains(st, p) + if peer == p then 1 else 0
  {
    assert st.nextQuery !in st.pending;
    ChainsUnchanged(st.pending, Issue(st, peer, attempts).pending, p, st.nextQuery);
  }

  lemma {:induction false} ReissueChains(st: State, now: nat, p: PeerId)
    requires Valid(st)
    ensures Chains(Reissue(st, now), p) == Chains(st, p)
    decreases |st.retries|
  {
    if Due(st, now) {
      var popped := st.(retries := st.retries[1..], enqueuedAt := st.enqueuedAt[1..]);
      RetryChainsPop(st.retries, p);
      IssueChains(popped, st.retries[0].peer, st.retries[0].attempts, p);
      PopPotential(st);
      ReissueChains(PopAndIssue(st), now, p);
    }
  }

  lemma AnswerChains(st: State, id: nat, answer: Answer, now: nat, p: PeerId)
    requires Valid(st)
    ensures Chains(OnAnswer(st, id, answer, now), p) <= Chains(st, p)
  {
    if id in st.pending {
      ChainsRemove(st.pending, p, id, st.nextQuery);
      var req := st.pending[id];
      RetryChainsPush(st.retries, Retry(req.peer, req.attempts + 1, now + LOOKUP_RETRY_DELAY), p);
    }
  }

  /** Rediscovery starts a chain only where there is none; nothing but a user's lookup ever
      adds a second one. */
  lemma ApplyChains(st: State, t: Timed, p: PeerId)
    requires Valid(st)
    ensures t.action.DoLookup? && t.action.peer == p ==> Chains(Apply(st, t), p) == Chains(st, p) + 1
    ensures !(t.action.DoLookup? && t.action.peer == p) ==>
              Chains(Apply(st, t), p) <= Chains(st, p) || (Chains(st, p) == 0 && Chains(Apply(st, t), p) == 1)
    ensures t.action.DoRediscover? && t.action.peer == p && InFlight(st, p) ==> Apply(st, t) == st
  {
    match t.action {
      case DoLookup(peer) => IssueChains(st, peer, 1, p);
      case DoRediscover(peer, delay) =>
        RetryChainsPush(st.retries, Retry(peer, 1, t.at + delay), p);
        if !InFlight(st, peer) {
          NoRetryNoChain(st.retries, peer);
          NoPendingNoChain(st.pending, peer, st.nextQuery);
        }
      case DoAnswer(id, answer) => AnswerChains(st, id, answer, t.at, p);
      case DoReissue => ReissueChains(st, t.at, p);
      case DhtQuery => assert st.nextQuery !in st.pending;
    }
  }

  function LookupsFor(run: seq<Timed>, p: PeerId): nat
    decreases |run|
  {
    if run == [] then 0
    else LookupsFor(run[..|run| - 1], p) + if run[|run| - 1].action.DoLookup? && run[|run| - 1].action.peer == p then 1 else 0
  }

  /** In every run a peer never has more chains than one plus the user's own lookups for it. */
  lemma {:induction false} ChainsBounded(run: seq<Timed>, p: PeerId)
    ensures Valid(Run(EMPTY, run)) && Chains(Run(EMPTY, run), p) <= 1 + LookupsFor(run, p)
    decreases |run|
  {
    if run != [] {
      ChainsBounded(run[..|run| - 1], p);
      ApplyPotential(Run(EMPTY, run[..|run| - 1]), run[|run| - 1]);
      ApplyChains(Run(EMPTY, run[..|run| - 1]), run[|run| - 1], p);
    }
  }

  // ---- Timing of the mixed queue ----

  /** Entries are queued in time order and due at most RECONNECT_DELAY later. */
  predicate OnTime(st: State, clock: nat) {
    && |st.enqueuedAt| == |st.retries|
    && (forall i, j | 0 <= i < j < |st.enqueuedAt| :: st.enqueuedAt[i] <= st.enqueuedAt[j])
    && (forall i | 0 <= i < |st.retries| ::
          st.enqueuedAt[i] <= clock && st.enqueuedAt[i] <= st.retries[i].nextAt <= st.enqueuedAt[i] + RECONNECT_DELAY)
  }

  /** A tick releases a prefix of the queue, each entry no earlier than it is due, and leaves
      nothing that was queued RECONNECT_DELAY or longer ago, although a 1 s entry may stand
      behind a 3 s one. */
  lemma {:induction false} ReissueOnTime(st: State, now: nat)
    requires OnTime(st, now)
    ensures var st' := Reissue(st, now);
            && OnTime(st', now)
            && |st'.retries| <= |st.retries| && st'.retries == st.retries[|st.retries| - |st'.retries|..]
            && (forall i | 0 <= i < |st.retries| - |st'.retries| :: st.retries[i].nextAt <= now)
            && (forall i | 0 <= i < |st'.enqueuedAt| :: now < st'.enqueuedAt[i] + RECONNECT_DELAY)
    decreases |st.retries|
  {
    if Due(st, now) {
      var st1 := PopAndIssue(st);
      assert st1.retries == st.retries[1..] && st1.enqueuedAt == st.enqueuedAt[1..];
      ReissueOnTime(st1, now);
      var n := |st.retries| - |Reissue(st, now).retries|;
      assert st.retries[1..][n - 1..] == st.retries[n..];
      forall i | 0 <= i < n
        ensures st.retries[i].nextAt <= now
      {
        if i > 0 {
          assert st.retries[i] == st1.retries[i - 1];
        }
      }
    } else {
      assert st.retries[0..] == st.retries;
    }
  }

  /** Delays used by the callers. */
  predicate LegalDelay(t: Timed) {
    t.action.DoRediscover? ==> t.action.delay <= RECONNECT_DELAY
  }

  predicate Chronological(run: seq<Timed>) {
    && (forall i, j | 0 <= i < j < |run| :: run[i].at <= run[j].at)
    && (forall i | 0 <= i < |run| :: LegalDelay(run[i]))
  }

  lemma ApplyOnTime(st: State, t: Timed, clock: nat)
    requires OnTime(st, clock) && clock <= t.at && LegalDelay(t)
    ensures OnTime(Apply(st, t), t.at)
  {
    if t.action.DoReissue? {
      ReissueOnTime(st, t.at);
    }
  }

  lemma {:induction false} RunOnTime(run: seq<Timed>)
    requires Chronological(run)
    ensures OnTime(Run(EMPTY, run), if run == [] then 0 else run[|run| - 1].at)
    decreases |run|
  {
    if run != [] {
      var front := run[..|run| - 1];
      RunOnTime(front);
      ApplyOnTime(Run(EMPTY, front), run[|run| - 1], if front == [] then 0 else front[|front| - 1].at);
    }
  }

  /** In every chronological run, right after a maintenance tick no retry is left that was
      queued RECONNECT_DELAY or longer before the tick. */
  lemma TickReleasesOldRetries(run: seq<Timed>)
    requires Chronological(run) && run != [] && run[|run| - 1].action.DoReissue?
    ensures var st := Run(EMPTY, run);
            |st.enqueuedAt| == |st.retries| && forall i | 0 <= i < |st.retries| :: run[|run| - 1].at < st.enqueuedAt[i] + RECONNECT_DELAY
  {
    var front := run[..|run| - 1];
    RunOnTime(front);
    ReissueOnTime(Run(EMPTY, front), run[|run| - 1].at);
  }
}
