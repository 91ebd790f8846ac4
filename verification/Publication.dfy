/** The validated addresses and the record that advertises them (src/node.rs): which changes of
    the list are published, and which leave the record behind. */
module Publication {
  import opened ByteStrings
  import opened Library
  import opened Lists
  import Records
  import opened Addresses
  import opened Candidates

  // ---- Which changes of the list are published ----

  /** The action ends in publish_record: a verdict of the recorded prober that is not a repeated
      success. Maintenance never publishes by itself. */
  predicate Republishes(st: State, t: Timed) {
    && t.action.DoResult? && t.action.addr in st.candidates && st.candidates[t.action.addr].prober == t.action.peer
    && !(t.action.reachable && st.candidates[t.action.addr].state.Validated?)
  }

  /** A listed address whose revalidation has timed out. */
  ghost predicate LosesListed(st: State, t: Timed) {
    t.action.DoMaintain? && exists a :: a in st.validated && a in st.candidates && TimedOut(st.candidates[a], t.at)
  }

  lemma {:induction false} RejectUnlisted(st: State, addrs: seq<Multiaddr>)
    requires (forall a | a in addrs :: a in st.candidates) && forall a | a in addrs :: a !in st.validated
    ensures RejectAll(st, addrs).validated == st.validated
    decreases |addrs|
  {
    if addrs != [] {
      var front, last := addrs[..|addrs| - 1], addrs[|addrs| - 1];
      RejectUnlisted(st, front);
      assert last in addrs;
      WithoutFacts(st.validated, last);
    }
  }

  lemma {:induction false} RevalidateList(st: State, addrs: seq<Multiaddr>, now: nat)
    requires forall a | a in addrs :: a in st.candidates
    ensures RevalidateAll(st, addrs, now).validated == st.validated
    decreases |addrs|
  {
    if addrs != [] {
      RevalidateList(st, addrs[..|addrs| - 1], now);
    }
  }

  lemma {:induction false} RequestList(st: State, addrs: seq<Multiaddr>, peers: Peers)
    ensures RequestAll(st, addrs, peers).validated == st.validated
    decreases |addrs|
  {
    if addrs != [] {
      RequestList(st, addrs[..|addrs| - 1], peers);
    }
  }

  lemma MaintainList(st: State, t: Timed)
    requires Inv(st) && t.action.DoMaintain? && Scans(st, t.at, t.action.timedOut, t.action.due)
    ensures Maintain(st, t.at, t.action.timedOut, t.action.due, t.peers).validated != st.validated <==> LosesListed(st, t)
  {
    var timedOut, due := t.action.timedOut, t.action.due;
    MaintainKeeps(st, t.at, timedOut, due, t.peers);
    if !LosesListed(st, t) {
      RejectUnlisted(st, timedOut);
      RevalidateList(RejectAll(st, timedOut), due, t.at);
      RequestList(RevalidateAll(RejectAll(st, timedOut), due, t.at), due, t.peers);
    } else {
      var a :| a in st.validated && a in st.candidates && TimedOut(st.candidates[a], t.at);
      assert a in timedOut;
    }
  }

  /** The list changes without being published if and only if maintenance drops a listed
      address because its revalidation timed out. */
  lemma ListChangesSilently(st: State, t: Timed, st': State)
    requires Inv(st) && Step(st, t, st')
    ensures st'.validated != st.validated && !Republishes(st, t) <==> LosesListed(st, t)
  {
    match t.action {
      case DoObserve(peer, addr) => ObservedKeeps(st, peer, addr, t.peers, t.at);
      case DoResult(_, _, _) =>
      case DoMaintain(_, _) => MaintainList(st, t);
    }
  }

  // ---- The record ----

  /** The record names exactly the first eight of `addrs`. */
  predicate Advertises(lib: Library, r: Records.AddrRecord, addrs: seq<Multiaddr>) {
    r.addrs == Records.PrintAll(lib, Records.FirstEight(addrs))
  }

  /** The record after an action, with listen addresses `current`. */
  function RecordAfter(lib: Library, id: Identity, current: seq<Multiaddr>, st: State, t: Timed, st': State,
                       r: Records.AddrRecord, now: u64, coins: nat): Records.AddrRecord {
    if Republishes(st, t) then Published(lib, id, current, st'.validated, r, now, coins) else r
  }

  lemma PrintAllInjective(lib: Library, xs: seq<Multiaddr>, ys: seq<Multiaddr>)
    requires AddrTextCorrect(lib) && Records.PrintAll(lib, xs) == Records.PrintAll(lib, ys)
    ensures xs == ys
  {
    assert |xs| == |ys|;
    forall i | 0 <= i < |xs|
      ensures xs[i] == ys[i]
    {
      assert Records.PrintAll(lib, xs)[i] == Records.PrintAll(lib, ys)[i];
      PrintInjective(lib, xs[i], ys[i]);
    }
  }

  /** When exactly a record that was up to date still is: the first eight addresses are the
      same, or they were published and there is one. */
  lemma RecordStaysUpToDate(lib: Library, id: Identity, current: seq<Multiaddr>, st: State, t: Timed, st': State,
                            r: Records.AddrRecord, now: u64, coins: nat)
    requires AddrTextCorrect(lib) && Step(st, t, st') && Advertises(lib, r, Merged(current, st.validated))
    ensures Advertises(lib, RecordAfter(lib, id, current, st, t, st', r, now, coins), Merged(current, st'.validated))
            <==> || Records.FirstEight(Merged(current, st'.validated)) == Records.FirstEight(Merged(current, st.validated))
                 || (Republishes(st, t) && Merged(current, st'.validated) != [])
  {
    var before, after := Records.FirstEight(Merged(current, st.validated)), Records.FirstEight(Merged(current, st'.validated));
    if Records.PrintAll(lib, before) == Records.PrintAll(lib, after) {
      PrintAllInjective(lib, before, after);
    }
  }

  /** So a record keeps advertising an address that maintenance has dropped, unless the node
      also listens on it or it was not among the first eight. */
  lemma TimeoutLeavesRecordBehind(lib: Library, id: Identity, current: seq<Multiaddr>, st: State, t: Timed, st': State,
                                  r: Records.AddrRecord, now: u64, coins: nat, a: Multiaddr)
    requires AddrTextCorrect(lib) && Inv(st) && Step(st, t, st') && Advertises(lib, r, Merged(current, st.validated))
    requires t.action.DoMaintain? && a in st.validated && a in st.candidates && TimedOut(st.candidates[a], t.at)
    requires a !in current && a in Records.FirstEight(Merged(current, st.validated))
    ensures a !in st'.validated && lib.printAddr(a) in RecordAfter(lib, id, current, st, t, st', r, now, coins).addrs
    ensures !Advertises(lib, RecordAfter(lib, id, current, st, t, st', r, now, coins), Merged(current, st'.validated))
  {
    MaintainKeeps(st, t.at, t.action.timedOut, t.action.due, t.peers);
    MergedFacts(current, st'.validated);
    var before, after := Records.FirstEight(Merged(current, st.validated)), Records.FirstEight(Merged(current, st'.validated));
    var i :| 0 <= i < |before| && before[i] == a;
    assert r.addrs[i] == lib.printAddr(a);
    assert a !in after;
    RecordStaysUpToDate(lib, id, current, st, t, st', r, now, coins);
  }
}
