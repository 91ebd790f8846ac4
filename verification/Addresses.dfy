/** The node's own address set and what it publishes (src/node.rs). */
module Addresses {
  import opened ByteStrings
  import opened Library
  import opened Records
  import opened Lists

  /** Loopback addresses and relayed ones are kept; others need a local IP. */
  predicate StillLocal(a: Multiaddr, localIps: set<IpAddr>) {
    match FirstIp(a)
    case Some(ip) => IsLoopback(ip) || ip in localIps
    case None => HasCircuit(a)
  }

  /** The addresses that are still local, each once, in order. */
  function LocalOnly(addrs: seq<Multiaddr>, localIps: set<IpAddr>): seq<Multiaddr>
    decreases |addrs|
  {
    if addrs == [] then []
    else
      var before, last := LocalOnly(addrs[..|addrs| - 1], localIps), addrs[|addrs| - 1];
      if StillLocal(last, localIps) && last !in before then before + [last] else before
  }

  /** The filtering loop, which remembers printed addresses. */
  method FilterLocalAddrs(lib: Library, addrs: seq<Multiaddr>, localIps: set<IpAddr>) returns (out: seq<Multiaddr>)
    requires AddrTextCorrect(lib)
    ensures out == LocalOnly(addrs, localIps)
    ensures Distinct(out) && forall a :: a in out <==> a in addrs && StillLocal(a, localIps)
  {
    out := [];
    var seen: set<Bytes> := {};
    for i := 0 to |addrs|
      invariant out == LocalOnly(addrs[..i], localIps)
      invariant forall a :: lib.printAddr(a) in seen <==> a in out
    {
      assert addrs[..i + 1][..i] == addrs[..i];
      var a := addrs[i];
      var keep := match FirstIp(a)
                  case Some(ip) => if IsLoopback(ip) then true else ip in localIps
                  case None => HasCircuit(a);
      if keep && lib.printAddr(a) !in seen {
        forall b | lib.printAddr(b) == lib.printAddr(a)
          ensures b == a
        {
          PrintInjective(lib, a, b);
        }
        seen := seen + {lib.printAddr(a)};
        out := out + [a];
      }
    }
    assert addrs[..|addrs|] == addrs;
    LocalOnlyFacts(addrs, localIps);
  }

  lemma {:induction false} LocalOnlyFacts(addrs: seq<Multiaddr>, localIps: set<IpAddr>)
    ensures Distinct(LocalOnly(addrs, localIps))
    ensures forall a :: a in LocalOnly(addrs, localIps) <==> a in addrs && StillLocal(a, localIps)
    decreases |addrs|
  {
    if addrs != [] {
      LocalOnlyFacts(addrs[..|addrs| - 1], localIps);
      assert addrs == addrs[..|addrs| - 1] + [addrs[|addrs| - 1]];
    }
  }

  /** Appends what is not there yet; `publish_record` and the listener scan both do this. */
  function Merged(addrs: seq<Multiaddr>, extra: seq<Multiaddr>): seq<Multiaddr>
    decreases |extra|
  {
    if extra == [] then addrs
    else
      var before, last := Merged(addrs, extra[..|extra| - 1]), extra[|extra| - 1];
      if last in before then before else before + [last]
  }

  method Merge(addrs: seq<Multiaddr>, extra: seq<Multiaddr>) returns (out: seq<Multiaddr>)
    ensures out == Merged(addrs, extra)
    ensures addrs <= out && (Distinct(addrs) ==> Distinct(out))
    ensures forall a :: a in out <==> a in addrs || a in extra
  {
    out := addrs;
    for i := 0 to |extra|
      invariant out == Merged(addrs, extra[..i])
    {
      assert extra[..i + 1][..i] == extra[..i];
      if extra[i] !in out {
        out := out + [extra[i]];
      }
    }
    assert extra[..|extra|] == extra;
    MergedFacts(addrs, extra);
  }

  lemma {:induction false} MergedFacts(addrs: seq<Multiaddr>, extra: seq<Multiaddr>)
    ensures addrs <= Merged(addrs, extra) && (Distinct(addrs) ==> Distinct(Merged(addrs, extra)))
    ensures forall a :: a in Merged(addrs, extra) <==> a in addrs || a in extra
    decreases |extra|
  {
    if extra != [] {
      MergedFacts(addrs, extra[..|extra| - 1]);
      assert extra == extra[..|extra| - 1] + [extra[|extra| - 1]];
    }
  }

  // ---- The object the program updates in place ----

  /** The listen addresses and the record last signed. */
  class AddressBook {
    const lib: Library
    const identity: Identity
    var currentAddrs: seq<Multiaddr>
    var ourRecord: AddrRecord

    ghost predicate Valid()
      reads this
    {
      AddrTextCorrect(lib) && Distinct(currentAddrs)
    }

    constructor (lib: Library, identity: Identity, now: u64, coins: nat)
      requires AddrTextCorrect(lib)
      ensures Valid() && this.lib == lib && this.identity == identity && currentAddrs == []
      ensures ourRecord == SignedRecord(lib, identity, [], now, coins)
    {
      this.lib, this.identity, currentAddrs := lib, identity, [];
      ourRecord := SignedRecord(lib, identity, [], now, coins);
    }

    method NoteListenAddr(addr: Multiaddr) returns (changed: bool)
      requires Valid()
      modifies this`currentAddrs
      ensures Valid() && currentAddrs == Merged(old(currentAddrs), [addr]) && (changed <==> currentAddrs != old(currentAddrs))
    {
      assert [addr][..0] == [];
      if addr in currentAddrs {
        return false;
      }
      currentAddrs := currentAddrs + [addr];
      changed := true;
    }

    method NoteListenAddrGone(addr: Multiaddr) returns (changed: bool)
      requires Valid()
      modifies this`currentAddrs
      ensures Valid() && currentAddrs == Without(old(currentAddrs), addr)
      ensures changed <==> addr in old(currentAddrs)
    {
      var kept: seq<Multiaddr> := [];
      for i := 0 to |currentAddrs|
        invariant currentAddrs == old(currentAddrs) && kept == Without(currentAddrs[..i], addr)
        invariant |kept| <= i && (|kept| == i <==> addr !in currentAddrs[..i])
      {
        assert currentAddrs[..i + 1] == currentAddrs[..i] + [currentAddrs[i]];
        assert currentAddrs[..i + 1][..i] == currentAddrs[..i];
        if currentAddrs[i] != addr {
          kept := kept + [currentAddrs[i]];
        }
      }
      assert currentAddrs[..|currentAddrs|] == currentAddrs;
      WithoutFacts(currentAddrs, addr);
      changed := |kept| != |currentAddrs|;
      currentAddrs := kept;
    }

    /** A rescan: picks up the swarm's listeners, drops what is no longer local, and
        republishes if that dropped something. `localIps` is None when the scan failed. */
    method Refresh(listeners: seq<Multiaddr>, localIps: Option<set<IpAddr>>, validated: seq<Multiaddr>, now: u64, coins: nat)
      requires Valid()
      modifies this
      ensures Valid()
      ensures localIps.None? ==> currentAddrs == old(currentAddrs) && ourRecord == old(ourRecord)
      ensures localIps.Some? ==>
                var all := Merged(old(currentAddrs), listeners);
                && currentAddrs == LocalOnly(all, localIps.value)
                && ourRecord == if currentAddrs == all then old(ourRecord)
                                else Published(lib, identity, currentAddrs, validated, old(ourRecord), now, coins)
    {
      if localIps.None? {
        return;
      }
      var all := Merge(currentAddrs, listeners);
      currentAddrs := all;
      var filtered := FilterLocalAddrs(lib, all, localIps.value);
      if filtered == currentAddrs {
        return;
      }
      currentAddrs := filtered;
      Publish(validated, now, coins);
    }

    /** Signs the listen addresses followed by the validated ones not among them. */
    method Publish(validated: seq<Multiaddr>, now: u64, coins: nat)
      requires Valid()
      modifies this`ourRecord
      ensures ourRecord == Published(lib, identity, currentAddrs, validated, old(ourRecord), now, coins)
    {
      var addrs := Merge(currentAddrs, validated);
      if addrs == [] {
        return;
      }
      ourRecord := SignAddrRecord(lib, identity, addrs, now, coins);
    }
  }

  /** The node's record after publishing; with no address it keeps the old one. */
  function Published(lib: Library, id: Identity, current: seq<Multiaddr>, validated: seq<Multiaddr>, old_: AddrRecord, now: u64, coins: nat): AddrRecord {
    if Merged(current, validated) == [] then old_ else SignedRecord(lib, id, Merged(current, validated), now, coins)
  }

  predicate DirectTcp(addrs: seq<Multiaddr>) {
    forall a | a in addrs :: AcceptableAddr(a)
  }

  /** For direct TCP addresses, what a node publishes is accepted by every reader from 30 s
      before to 150 s after it is signed, and the reader gets exactly the first eight of the
      listen addresses followed by the validated ones not among them. */
  lemma PublishedRecordVerifies(lib: Library, id: Identity, current: seq<Multiaddr>, validated: seq<Multiaddr>,
                                previous: AddrRecord, issuedAt: u64, coins: nat, now: u64)
    requires Correct(lib) && 1 <= |id.userName| <= 64
    requires Distinct(current) && DirectTcp(current) && DirectTcp(validated) && (current != [] || validated != [])
    requires issuedAt + DEFAULT_TTL_SECS + MAX_SKEW_SECS < TWO_64 && now + MAX_SKEW_SECS < TWO_64
    ensures var verdict := Verify(lib, DeviceId(lib, id), Published(lib, id, current, validated, previous, issuedAt, coins), now);
            if issuedAt <= now + 30 && now <= issuedAt + 150
            then verdict.Verified? && verdict.record.addrs == FirstEight(Merged(current, validated))
                 && verdict.record.peerId == DeviceId(lib, id) && verdict.record.issuedAt == issuedAt
            else verdict.Refused?
  {
    var addrs := Merged(current, validated);
    MergedFacts(current, validated);
    assert validated != [] ==> validated[0] in addrs;
    assert addrs != [];
    forall i | 0 <= i < |FirstEight(addrs)|
      ensures AcceptableAddr(FirstEight(addrs)[i])
    {
      assert FirstEight(addrs)[i] == addrs[i] && addrs[i] in addrs;
    }
    assert Advertisable(FirstEight(addrs));
    OwnRecordVerifies(lib, id, addrs, issuedAt, coins, now);
  }

  /** Once the address set is empty nothing is republished: the last signed record stays, and
      readers accept it until it expires. */
  lemma EmptySetKeepsOldRecord(lib: Library, id: Identity, addrs: seq<Multiaddr>, issuedAt: u64, coins: nat, later: u64, coins': nat, now: u64)
    requires Correct(lib) && 1 <= |id.userName| <= 64 && Advertisable(addrs)
    requires issuedAt + DEFAULT_TTL_SECS + MAX_SKEW_SECS < TWO_64 && now + MAX_SKEW_SECS < TWO_64
    ensures var was := Published(lib, id, addrs, [], SignedRecord(lib, id, [], issuedAt, coins), issuedAt, coins);
            var is_ := Published(lib, id, [], [], was, later, coins');
            && is_ == was
            && (issuedAt <= now + 30 && now <= issuedAt + 150 ==>
                  Verify(lib, DeviceId(lib, id), is_, now).Verified?
                  && Verify(lib, DeviceId(lib, id), is_, now).record.addrs == FirstEight(addrs))
  {
    assert forall a | a in addrs :: AcceptableAddr(a);
    PublishedRecordVerifies(lib, id, addrs, [], SignedRecord(lib, id, [], issuedAt, coins), issuedAt, coins, now);
  }

  // ---- Which addresses count as local ----

  /** Exactly those whose first IP is a loopback address or one of the host's, and those without
      any IP that go through a relay. */
  lemma {:induction false} StillLocalExactly(a: Multiaddr, localIps: set<IpAddr>)
    ensures StillLocal(a, localIps) <==>
            if exists i :: 0 <= i < |a| && a[i].Ip? then
              exists i :: 0 <= i < |a| && a[i].Ip? && (forall j | 0 <= j < i :: !a[j].Ip?) && (IsLoopback(a[i].ip) || a[i].ip in localIps)
            else HasCircuit(a)
  {
    FirstIpExactly(a);
  }

  lemma {:induction false} FirstIpExactly(a: Multiaddr)
    ensures FirstIp(a).None? <==> forall i | 0 <= i < |a| :: !a[i].Ip?
    ensures FirstIp(a).Some? ==> exists i :: 0 <= i < |a| && a[i].Ip? && (forall j | 0 <= j < i :: !a[j].Ip?) && FirstIp(a) == Some(a[i].ip)
    decreases |a|
  {
    if a != [] && !a[0].Ip? {
      FirstIpExactly(a[1..]);
      assert forall i | 1 <= i < |a| :: a[i] == a[1..][i - 1];
      if FirstIp(a).Some? {
        var i :| 0 <= i < |a[1..]| && a[1..][i].Ip? && (forall j | 0 <= j < i :: !a[1..][j].Ip?) && FirstIp(a[1..]) == Some(a[1..][i].ip);
        assert a[i + 1] == a[1..][i];
      }
    }
  }
}
