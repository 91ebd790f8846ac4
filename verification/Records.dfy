/** Signed address records (src/records.rs). */
module Records {
  import opened ByteStrings
  import opened Library
  import opened Lists

  const RECORD_SIGN_PREFIX: Bytes := Ascii("jeangrey/mvp1/addr-record/v1")
  const RECORD_KIND: Bytes := Ascii("jeangrey.device-addr.v1")
  const MAX_ADDRS: nat := 8
  const DEFAULT_TTL_SECS: u64 := 120
  const MAX_SKEW_SECS: u64 := 30
  const TWO_64: nat := 0x1_0000_0000_0000_0000

  datatype AddrRecord = AddrRecord(
    v: u32, kind: Bytes, deviceUuid: Bytes, peerId: Bytes, pubkeyB64: Bytes, userIdHex: Bytes, userName: Bytes,
    transportPeerB58: Bytes, addrs: seq<Bytes>, issuedAt: u64, ttlSecs: u64, sigB64: Bytes)

  datatype VerifiedRecord = VerifiedRecord(
    peerId: PeerId, userId: Uuid, userName: Bytes, deviceUuid: Uuid, transportPeer: PeerId,
    addrs: seq<Multiaddr>, issuedAt: u64)

  datatype RecordError =
    | Malformed | UnsupportedVersion(v: u32) | Expired | FromTheFuture | KeyMismatch | BadSignature | BadKey
    | NoAddresses | TooManyAddresses | BadAddress

  datatype Verdict = Verified(record: VerifiedRecord) | Refused(error: RecordError)

  // ---- The signed bytes ----

  function StringFields(r: AddrRecord): seq<Bytes> {
    [r.kind, r.deviceUuid, r.peerId, r.pubkeyB64, r.userIdHex, r.userName, r.transportPeerB58]
  }

  function SignedBytes(r: AddrRecord): Bytes {
    (RECORD_SIGN_PREFIX + BigEndian(r.v, 4))
    + (TaggedAll(8, StringFields(r)) + ((BigEndian(r.issuedAt, 8) + BigEndian(r.ttlSecs, 8)) + TaggedAll(4, r.addrs)))
  }

  /** Appends each field after its length. */
  method AppendFields(out0: Bytes, width: nat, fields: seq<Bytes>) returns (out: Bytes)
    ensures out == out0 + TaggedAll(width, fields)
  {
    out := out0;
    for i := 0 to |fields|
      invariant out == out0 + TaggedAll(width, fields[..i])
    {
      TaggedAllSnoc(width, fields[..i], fields[i]);
      assert fields[..i + 1] == fields[..i] + [fields[i]];
      out := out + BigEndian(|fields[i]|, width);
      out := out + fields[i];
      assert out == out0 + (TaggedAll(width, fields[..i]) + Tagged(width, fields[i]));
    }
    assert fields[..|fields|] == fields;
  }

  /** The signed bytes, appended in the order of the program. */
  method BuildSignedBytes(r: AddrRecord) returns (out: Bytes)
    ensures out == SignedBytes(r)
  {
    out := RECORD_SIGN_PREFIX;
    out := out + BigEndian(r.v, 4);
    out := AppendFields(out, 8, StringFields(r));
    out := out + BigEndian(r.issuedAt, 8);
    out := out + BigEndian(r.ttlSecs, 8);
    out := AppendFields(out, 4, r.addrs);
    Regroup(RECORD_SIGN_PREFIX + BigEndian(r.v, 4), TaggedAll(8, StringFields(r)), BigEndian(r.issuedAt, 8),
            BigEndian(r.ttlSecs, 8), TaggedAll(4, r.addrs));
  }

  lemma Regroup(a: Bytes, b: Bytes, c: Bytes, d: Bytes, e: Bytes)
    ensures (((a + b) + c) + d) + e == a + (b + ((c + d) + e))
  {
  }

  /** The sizes the encoded lengths can hold; any record read from at most 16 KiB has them. */
  predicate Sized(r: AddrRecord) {
    && (forall i | 0 <= i < 7 :: |StringFields(r)[i]| < TWO_64)
    && (forall i | 0 <= i < |r.addrs| :: |r.addrs[i]| < 0x1_0000_0000)
  }

  /** The signed bytes determine all eleven signed fields, including the address list, which
      carries no count. */
  lemma SignedBytesInjective(r: AddrRecord, s: AddrRecord)
    requires Sized(r) && Sized(s) && SignedBytes(r) == SignedBytes(s)
    ensures r.(sigB64 := s.sigB64) == s
  {
    Widths();
    var stampsR, stampsS := BigEndian(r.issuedAt, 8) + BigEndian(r.ttlSecs, 8), BigEndian(s.issuedAt, 8) + BigEndian(s.ttlSecs, 8);
    var tailR, tailS := stampsR + TaggedAll(4, r.addrs), stampsS + TaggedAll(4, s.addrs);
    SplitAt(RECORD_SIGN_PREFIX + BigEndian(r.v, 4), RECORD_SIGN_PREFIX + BigEndian(s.v, 4),
            TaggedAll(8, StringFields(r)) + tailR, TaggedAll(8, StringFields(s)) + tailS);
    SplitAt(RECORD_SIGN_PREFIX, RECORD_SIGN_PREFIX, BigEndian(r.v, 4), BigEndian(s.v, 4));
    BigEndianInjective(r.v, s.v, 4);
    TaggedAllUnique(8, StringFields(r), StringFields(s), tailR, tailS);
    FieldsOf(r, s);
    SplitAt(stampsR, stampsS, TaggedAll(4, r.addrs), TaggedAll(4, s.addrs));
    SplitAt(BigEndian(r.issuedAt, 8), BigEndian(s.issuedAt, 8), BigEndian(r.ttlSecs, 8), BigEndian(s.ttlSecs, 8));
    BigEndianInjective(r.issuedAt, s.issuedAt, 8);
    BigEndianInjective(r.ttlSecs, s.ttlSecs, 8);
    TaggedListUnique(4, r.addrs, s.addrs);
  }

  lemma FieldsOf(r: AddrRecord, s: AddrRecord)
    requires StringFields(r) == StringFields(s)
    ensures r.kind == s.kind && r.deviceUuid == s.deviceUuid && r.peerId == s.peerId && r.pubkeyB64 == s.pubkeyB64
    ensures r.userIdHex == s.userIdHex && r.userName == s.userName && r.transportPeerB58 == s.transportPeerB58
  {
    var fs, gs := StringFields(r), StringFields(s);
    assert fs[0] == gs[0] && fs[1] == gs[1] && fs[2] == gs[2] && fs[3] == gs[3];
    assert fs[4] == gs[4] && fs[5] == gs[5] && fs[6] == gs[6];
  }

  // ---- Signing ----

  function PrintAll(lib: Library, addrs: seq<Multiaddr>): (s: seq<Bytes>)
    ensures |s| == |addrs| && forall i | 0 <= i < |s| :: s[i] == lib.printAddr(addrs[i])
  {
    seq(|addrs|, i requires 0 <= i < |addrs| => lib.printAddr(addrs[i]))
  }

  function FirstEight<T>(s: seq<T>): seq<T> {
    if |s| <= MAX_ADDRS then s else s[..MAX_ADDRS]
  }

  function UnsignedRecord(lib: Library, id: Identity, addrs: seq<Multiaddr>, now: u64): AddrRecord {
    AddrRecord(1, RECORD_KIND, lib.hex(id.deviceUuid), lib.base58(DeviceId(lib, id)),
               lib.base64(lib.publicKey(id.secretKey)), lib.hex(id.userId), id.userName,
               lib.base58(id.transportPeer), PrintAll(lib, FirstEight(addrs)), now, DEFAULT_TTL_SECS, [])
  }

  function SignedRecord(lib: Library, id: Identity, addrs: seq<Multiaddr>, now: u64, coins: nat): AddrRecord {
    var record := UnsignedRecord(lib, id, addrs, now);
    record.(sigB64 := lib.base64(lib.sign(id.secretKey, SignedBytes(record), coins)))
  }

  /** Builds the whole record, truncates the address list, then signs and stores the signature. */
  method SignAddrRecord(lib: Library, id: Identity, addrs: seq<Multiaddr>, now: u64, coins: nat) returns (record: AddrRecord)
    ensures record == SignedRecord(lib, id, addrs, now, coins)
  {
    record := AddrRecord(1, RECORD_KIND, lib.hex(id.deviceUuid), lib.base58(DeviceId(lib, id)),
                         lib.base64(lib.publicKey(id.secretKey)), lib.hex(id.userId), id.userName,
                         lib.base58(id.transportPeer), PrintAll(lib, addrs), now, DEFAULT_TTL_SECS, []);
    if |record.addrs| > MAX_ADDRS {
      record := record.(addrs := record.addrs[..MAX_ADDRS]);
    }
    assert record.addrs == PrintAll(lib, FirstEight(addrs));
    var bytes := BuildSignedBytes(record);
    record := record.(sigB64 := lib.base64(lib.sign(id.secretKey, bytes, coins)));
  }

  // ---- Verification ----

  /** Addition of two u64 in a release build. */
  function WrappingAdd(a: nat, b: nat): u64 {
    (a + b) % TWO_64
  }

  predicate AcceptableAddr(a: Multiaddr) {
    HasTcp(a) && !HasP2p(a)
  }

  /** The parsed addresses, if each is acceptable and none prints like an earlier one. */
  function ParseAddrs(lib: Library, texts: seq<Bytes>, seen: set<Bytes>): Option<seq<Multiaddr>> {
    if texts == [] then Some([])
    else
      match lib.parseAddr(texts[0])
      case None => None
      case Some(a) =>
        if !AcceptableAddr(a) || lib.printAddr(a) in seen then None
        else
          match ParseAddrs(lib, texts[1..], seen + {lib.printAddr(a)})
          case None => None
          case Some(rest) => Some([a] + rest)
  }

  /** The loop over the addresses. */
  method CheckAddrs(lib: Library, texts: seq<Bytes>) returns (r: Option<seq<Multiaddr>>)
    ensures r == ParseAddrs(lib, texts, {})
  {
    var addrs: seq<Multiaddr> := [];
    var seen: set<Bytes> := {};
    ghost var all := ParseAddrs(lib, texts, {});
    assert texts[0..] == texts && (all.Some? ==> [] + all.value == all.value);
    for i := 0 to |texts|
      invariant ParseAddrs(lib, texts[i..], seen).None? ==> ParseAddrs(lib, texts, {}).None?
      invariant ParseAddrs(lib, texts[i..], seen).Some? ==>
                  ParseAddrs(lib, texts, {}) == Some(addrs + ParseAddrs(lib, texts[i..], seen).value)
    {
      assert texts[i..][0] == texts[i] && texts[i..][1..] == texts[i + 1..];
      var parsed := lib.parseAddr(texts[i]);
      if parsed.None? {
        return None;
      }
      var a := parsed.value;
      if !HasTcp(a) {
        return None;
      }
      if HasP2p(a) {
        return None;
      }
      if lib.printAddr(a) in seen {
        return None;
      }
      seen := seen + {lib.printAddr(a)};
      ghost var rest := ParseAddrs(lib, texts[i + 1..], seen);
      assert rest.Some? ==> addrs + ([a] + rest.value) == (addrs + [a]) + rest.value;
      addrs := addrs + [a];
    }
    assert texts[|texts|..] == [] && addrs + [] == addrs;
    return Some(addrs);
  }

  function UuidOf(lib: Library, text: Bytes): Option<Uuid> {
    match lib.unhex(text)
    case None => None
    case Some(b) => if |b| == 16 then Some(b) else None
  }

  function PubKeyOf(lib: Library, text: Bytes): Option<PubKey> {
    match lib.unbase64(text)
    case None => None
    case Some(b) => if |b| == PUBKEY_LEN then Some(b) else None
  }

  /** Verification under `key` at time `now`; the checks come in the program's order. */
  function Verify(lib: Library, key: Bytes, r: AddrRecord, now: u64): Verdict {
    if r.v != 1 then Refused(UnsupportedVersion(r.v))
    else if r.kind != RECORD_KIND then Refused(Malformed)
    else if WrappingAdd(now, MAX_SKEW_SECS) < r.issuedAt then Refused(FromTheFuture)
    else if WrappingAdd(WrappingAdd(r.issuedAt, r.ttlSecs), MAX_SKEW_SECS) < now then Refused(Expired)
    else
      match PubKeyOf(lib, r.pubkeyB64)
      case None => Refused(Malformed)
      case Some(pk) => VerifyUnderKey(lib, key, r, pk)
  }

  function VerifyUnderKey(lib: Library, key: Bytes, r: AddrRecord, pk: PubKey): Verdict {
    if !lib.validPeerId(key) then Refused(BadKey)
    else if PeerIdOf(lib, pk) != key then Refused(KeyMismatch)
    else if r.peerId != lib.base58(PeerIdOf(lib, pk)) then Refused(KeyMismatch)
    else
      match lib.unbase64(r.sigB64)
      case None => Refused(Malformed)
      case Some(sig) =>
        if !lib.verify(pk, SignedBytes(r), sig) then Refused(BadSignature)
        else VerifyContents(lib, r, pk)
  }

  function VerifyContents(lib: Library, r: AddrRecord, pk: PubKey): Verdict {
    if UuidOf(lib, r.userIdHex).None? then Refused(Malformed)
    else if r.userName == [] || |r.userName| > 64 then Refused(Malformed)
    else if lib.unbase58(r.transportPeerB58).None? then Refused(Malformed)
    else if r.addrs == [] then Refused(NoAddresses)
    else if |r.addrs| > MAX_ADDRS then Refused(TooManyAddresses)
    else if ParseAddrs(lib, r.addrs, {}).None? then Refused(BadAddress)
    else if UuidOf(lib, r.deviceUuid).None? then Refused(Malformed)
    else Verified(VerifiedRecord(PeerIdOf(lib, pk), UuidOf(lib, r.userIdHex).value, r.userName,
                                 UuidOf(lib, r.deviceUuid).value, lib.unbase58(r.transportPeerB58).value,
                                 ParseAddrs(lib, r.addrs, {}).value, r.issuedAt))
  }

  method VerifyAddrRecord(lib: Library, key: Bytes, r: AddrRecord, now: u64) returns (verdict: Verdict)
    ensures verdict == Verify(lib, key, r, now)
  {
    if r.v != 1 {
      return Refused(UnsupportedVersion(r.v));
    }
    if r.kind != RECORD_KIND {
      return Refused(Malformed);
    }
    if WrappingAdd(now, MAX_SKEW_SECS) < r.issuedAt {
      return Refused(FromTheFuture);
    }
    if WrappingAdd(WrappingAdd(r.issuedAt, r.ttlSecs), MAX_SKEW_SECS) < now {
      return Refused(Expired);
    }
    var decoded := lib.unbase64(r.pubkeyB64);
    if decoded.None? || |decoded.value| != PUBKEY_LEN {
      return Refused(Malformed);
    }
    var pk: PubKey := decoded.value;
    if !lib.validPeerId(key) {
      return Refused(BadKey);
    }
    if PeerIdOf(lib, pk) != key || r.peerId != lib.base58(PeerIdOf(lib, pk)) {
      return Refused(KeyMismatch);
    }
    var sig := lib.unbase64(r.sigB64);
    if sig.None? {
      return Refused(Malformed);
    }
    var bytes := BuildSignedBytes(r);
    if !lib.verify(pk, bytes, sig.value) {
      return Refused(BadSignature);
    }
    var userId := UuidOf(lib, r.userIdHex);
    if userId.None? || r.userName == [] || |r.userName| > 64 {
      return Refused(Malformed);
    }
    var transportPeer := lib.unbase58(r.transportPeerB58);
    if transportPeer.None? {
      return Refused(Malformed);
    }
    if r.addrs == [] {
      return Refused(NoAddresses);
    }
    if |r.addrs| > MAX_ADDRS {
      return Refused(TooManyAddresses);
    }
    var addrs := CheckAddrs(lib, r.addrs);
    if addrs.None? {
      return Refused(BadAddress);
    }
    var deviceUuid := UuidOf(lib, r.deviceUuid);
    if deviceUuid.None? {
      return Refused(Malformed);
    }
    verdict := Verified(VerifiedRecord(PeerIdOf(lib, pk), userId.value, r.userName, deviceUuid.value,
                                       transportPeer.value, addrs.value, r.issuedAt));
  }

  // ---- Freshness ----

  /** The documented window: not from the future and not expired, with 30 s of skew. */
  predicate Fresh(issuedAt: nat, ttl: nat, now: nat) {
    issuedAt <= now + MAX_SKEW_SECS && now <= issuedAt + ttl + MAX_SKEW_SECS
  }

  /** The two comparisons the code makes, in wrapping u64 arithmetic. */
  predicate PassesTimeChecks(issuedAt: u64, ttl: u64, now: u64) {
    && WrappingAdd(now, MAX_SKEW_SECS) >= issuedAt
    && WrappingAdd(WrappingAdd(issuedAt, ttl), MAX_SKEW_SECS) >= now
  }

  /** The code accepts exactly the documented window, unless the expiry sum overflows u64;
      then it judges expiry by the wrapped sum. */
  lemma TimeChecksMeanFresh(issuedAt: u64, ttl: u64, now: u64)
    requires now + MAX_SKEW_SECS < TWO_64
    ensures issuedAt + ttl + MAX_SKEW_SECS < TWO_64 ==> (PassesTimeChecks(issuedAt, ttl, now) <==> Fresh(issuedAt, ttl, now))
    ensures issuedAt + ttl + MAX_SKEW_SECS >= TWO_64 ==>
              (PassesTimeChecks(issuedAt, ttl, now) <==>
               Fresh(issuedAt, ttl, now) && (issuedAt + ttl + MAX_SKEW_SECS) % TWO_64 >= now)
  {
    var sum := issuedAt + ttl;
    if sum < TWO_64 {
      assert WrappingAdd(issuedAt, ttl) == sum;
    } else {
      assert WrappingAdd(issuedAt, ttl) == sum - TWO_64;
      assert (sum - TWO_64 + MAX_SKEW_SECS) % TWO_64 == (sum + MAX_SKEW_SECS) % TWO_64;
    }
  }

  // ---- A device's own records ----

  predicate Advertisable(addrs: seq<Multiaddr>) {
    addrs != [] && Distinct(addrs) && forall i | 0 <= i < |addrs| :: AcceptableAddr(addrs[i])
  }

  predicate Passes(lib: Library, addrs: seq<Multiaddr>, seen: set<Bytes>) {
    Distinct(addrs) && forall i | 0 <= i < |addrs| :: AcceptableAddr(addrs[i]) && lib.printAddr(addrs[i]) !in seen
  }

  lemma PassesCons(lib: Library, addrs: seq<Multiaddr>, seen: set<Bytes>)
    requires AddrTextCorrect(lib) && addrs != []
    ensures Passes(lib, addrs, seen) <==>
            && AcceptableAddr(addrs[0]) && lib.printAddr(addrs[0]) !in seen
            && Passes(lib, addrs[1..], seen + {lib.printAddr(addrs[0])})
  {
    var first, rest := addrs[0], addrs[1..];
    if Passes(lib, addrs, seen) {
      forall i | 0 <= i < |rest|
        ensures AcceptableAddr(rest[i]) && lib.printAddr(rest[i]) !in seen + {lib.printAddr(first)}
      {
        assert rest[i] == addrs[i + 1] != first;
        assert lib.parseAddr(lib.printAddr(rest[i])) != lib.parseAddr(lib.printAddr(first));
      }
    }
    if AcceptableAddr(first) && lib.printAddr(first) !in seen && Passes(lib, rest, seen + {lib.printAddr(first)}) {
      assert addrs == [first] + rest;
      forall i, j | 0 <= i < j < |addrs|
        ensures addrs[i] != addrs[j]
      {
        assert addrs[j] == rest[j - 1];
      }
    }
  }

  lemma ParseCons(lib: Library, a: Multiaddr, texts: seq<Bytes>, seen: set<Bytes>)
    requires AddrTextCorrect(lib)
    ensures var rest := ParseAddrs(lib, texts, seen + {lib.printAddr(a)});
            ParseAddrs(lib, [lib.printAddr(a)] + texts, seen) ==
            if AcceptableAddr(a) && lib.printAddr(a) !in seen && rest.Some? then Some([a] + rest.value) else None
  {
    var text := lib.printAddr(a);
    assert ([text] + texts)[0] == text && ([text] + texts)[1..] == texts;
    assert lib.parseAddr(text) == Some(a);
  }

  lemma PrintAllCons(lib: Library, addrs: seq<Multiaddr>)
    requires addrs != []
    ensures PrintAll(lib, addrs) == [lib.printAddr(addrs[0])] + PrintAll(lib, addrs[1..])
  {
  }

  lemma {:induction false} ParsePrinted(lib: Library, addrs: seq<Multiaddr>, seen: set<Bytes>)
    requires AddrTextCorrect(lib)
    ensures ParseAddrs(lib, PrintAll(lib, addrs), seen) == if Passes(lib, addrs, seen) then Some(addrs) else None
    decreases |addrs|
  {
    if addrs == [] {
      assert PrintAll(lib, addrs) == [];
    } else {
      var text := lib.printAddr(addrs[0]);
      PrintAllCons(lib, addrs);
      ParseCons(lib, addrs[0], PrintAll(lib, addrs[1..]), seen);
      ParsePrinted(lib, addrs[1..], seen + {text});
      PassesCons(lib, addrs, seen);
      assert addrs == [addrs[0]] + addrs[1..];
    }
  }

  lemma {:induction false} ParsedShape(lib: Library, texts: seq<Bytes>, seen: set<Bytes>)
    requires ParseAddrs(lib, texts, seen).Some?
    ensures var addrs := ParseAddrs(lib, texts, seen).value;
            && |addrs| == |texts| && Distinct(addrs)
            && forall i | 0 <= i < |addrs| :: AcceptableAddr(addrs[i]) && lib.printAddr(addrs[i]) !in seen
    decreases |texts|
  {
    if texts != [] {
      var a := lib.parseAddr(texts[0]).value;
      var seen' := seen + {lib.printAddr(a)};
      ParsedShape(lib, texts[1..], seen');
      var rest := ParseAddrs(lib, texts[1..], seen').value;
      var addrs := [a] + rest;
      forall i, j | 0 <= i < j < |addrs|
        ensures addrs[i] != addrs[j]
      {
        assert addrs[j] == rest[j - 1];
        if i == 0 {
          assert lib.printAddr(rest[j - 1]) !in seen';
        } else {
          assert addrs[i] == rest[i - 1];
        }
      }
    }
  }

  /** Whoever signed it, an accepted record carries one to eight direct TCP addresses, all
      different, under the identity its key hashes to. */
  lemma VerifiedShape(lib: Library, key: Bytes, r: AddrRecord, now: u64)
    requires Verify(lib, key, r, now).Verified?
    ensures var v := Verify(lib, key, r, now).record;
            && v.peerId == key && 1 <= |v.addrs| <= MAX_ADDRS && Advertisable(v.addrs) && v.issuedAt == r.issuedAt
  {
    ParsedShape(lib, r.addrs, {});
  }

  /** A record like the device's own, with another time to live. */
  function RecordWithTtl(lib: Library, id: Identity, addrs: seq<Multiaddr>, issuedAt: u64, ttl: u64, coins: nat): AddrRecord {
    var record := UnsignedRecord(lib, id, addrs, issuedAt).(ttlSecs := ttl);
    record.(sigB64 := lib.base64(lib.sign(id.secretKey, SignedBytes(record), coins)))
  }

  /** The contents a device signs, whatever the times. */
  ghost predicate GoodContents(id: Identity, addrs: seq<Multiaddr>) {
    1 <= |id.userName| <= 64 && Advertisable(FirstEight(addrs))
  }

  lemma OwnContents(lib: Library, id: Identity, addrs: seq<Multiaddr>, issuedAt: u64, ttl: u64, coins: nat)
    requires Correct(lib)
    ensures var verdict := VerifyContents(lib, RecordWithTtl(lib, id, addrs, issuedAt, ttl, coins), lib.publicKey(id.secretKey));
            if GoodContents(id, addrs)
            then verdict == Verified(VerifiedRecord(DeviceId(lib, id), id.userId, id.userName, id.deviceUuid,
                                                    id.transportPeer, FirstEight(addrs), issuedAt))
            else verdict.Refused?
  {
    assert lib.unhex(lib.hex(id.userId)) == Some(id.userId);
    assert lib.unhex(lib.hex(id.deviceUuid)) == Some(id.deviceUuid);
    assert lib.unbase58(lib.base58(id.transportPeer)) == Some(id.transportPeer);
    ParsePrinted(lib, FirstEight(addrs), {});
  }

  /** At any times, overflowing or not, a device's record verifies, and to the same contents,
      if and only if it passes the two comparisons and its contents are good. */
  lemma SignedContentsVerify(lib: Library, id: Identity, addrs: seq<Multiaddr>, issuedAt: u64, ttl: u64, coins: nat, now: u64)
    requires Correct(lib)
    ensures var verdict := Verify(lib, DeviceId(lib, id), RecordWithTtl(lib, id, addrs, issuedAt, ttl, coins), now);
            && (if PassesTimeChecks(issuedAt, ttl, now) && GoodContents(id, addrs)
                then verdict == Verified(VerifiedRecord(DeviceId(lib, id), id.userId, id.userName, id.deviceUuid,
                                                        id.transportPeer, FirstEight(addrs), issuedAt))
                else verdict.Refused?)
            && (!PassesTimeChecks(issuedAt, ttl, now) && issuedAt <= WrappingAdd(now, MAX_SKEW_SECS) ==> verdict == Refused(Expired))
  {
    var r := RecordWithTtl(lib, id, addrs, issuedAt, ttl, coins);
    var pk := lib.publicKey(id.secretKey);
    var bytes := SignedBytes(UnsignedRecord(lib, id, addrs, issuedAt).(ttlSecs := ttl));
    assert SignedBytes(r) == bytes;
    assert lib.verify(pk, bytes, lib.sign(id.secretKey, bytes, coins));
    assert lib.unbase64(r.sigB64) == Some(lib.sign(id.secretKey, bytes, coins));
    assert lib.unbase64(r.pubkeyB64) == Some(pk);
    assert lib.validPeerId([0x12, 0x20] + lib.sha256(pk));
    assert VerifyUnderKey(lib, DeviceId(lib, id), r, pk) == VerifyContents(lib, r, pk);
    OwnContents(lib, id, addrs, issuedAt, ttl, coins);
  }

  /** A record a device signs is accepted exactly inside its window (150 s after issue, 30 s
      before), for a legal name and an advertisable address set; what is accepted is then the
      first eight addresses, in order, under the device's own names. */
  lemma OwnRecordVerifies(lib: Library, id: Identity, addrs: seq<Multiaddr>, issuedAt: u64, coins: nat, now: u64)
    requires Correct(lib)
    requires issuedAt + DEFAULT_TTL_SECS + MAX_SKEW_SECS < TWO_64 && now + MAX_SKEW_SECS < TWO_64
    ensures var verdict := Verify(lib, DeviceId(lib, id), SignedRecord(lib, id, addrs, issuedAt, coins), now);
            if Fresh(issuedAt, DEFAULT_TTL_SECS, now) && GoodContents(id, addrs)
            then verdict == Verified(VerifiedRecord(DeviceId(lib, id), id.userId, id.userName, id.deviceUuid,
                                                    id.transportPeer, FirstEight(addrs), issuedAt))
            else verdict.Refused?
  {
    assert SignedRecord(lib, id, addrs, issuedAt, coins) == RecordWithTtl(lib, id, addrs, issuedAt, DEFAULT_TTL_SECS, coins);
    TimeChecksMeanFresh(issuedAt, DEFAULT_TTL_SECS, now);
    SignedContentsVerify(lib, id, addrs, issuedAt, DEFAULT_TTL_SECS, coins, now);
  }

  /** A time to live so large that the expiry sum overflows. */
  lemma OverflowingTimes() returns (issuedAt: u64, ttl: u64, now: u64)
    ensures Fresh(issuedAt, ttl, now) && !PassesTimeChecks(issuedAt, ttl, now) && issuedAt <= WrappingAdd(now, MAX_SKEW_SECS)
    ensures PassesTimeChecks(issuedAt, DEFAULT_TTL_SECS, now)
  {
    issuedAt, ttl, now := 1000, TWO_64 - 1, 1100;
    TimeChecksMeanFresh(issuedAt, ttl, now);
    TimeChecksMeanFresh(issuedAt, DEFAULT_TTL_SECS, now);
  }

  /** A record that is refused as expired although it is inside its window, and would be
      accepted with a shorter time to live. */
  lemma OverflowingTtlRefused(lib: Library, id: Identity, addrs: seq<Multiaddr>, coins: nat)
    returns (issuedAt: u64, ttl: u64, now: u64)
    requires Correct(lib) && GoodContents(id, addrs)
    ensures Fresh(issuedAt, ttl, now)
    ensures Verify(lib, DeviceId(lib, id), RecordWithTtl(lib, id, addrs, issuedAt, ttl, coins), now) == Refused(Expired)
    ensures Verify(lib, DeviceId(lib, id), RecordWithTtl(lib, id, addrs, issuedAt, DEFAULT_TTL_SECS, coins), now).Verified?
  {
    issuedAt, ttl, now := OverflowingTimes();
    SignedContentsVerify(lib, id, addrs, issuedAt, ttl, coins, now);
    SignedContentsVerify(lib, id, addrs, issuedAt, DEFAULT_TTL_SECS, coins, now);
  }

  /** A relayed address among the first eight makes every reader refuse the whole record. */
  lemma RelayedAddressRefused(lib: Library, id: Identity, addrs: seq<Multiaddr>, k: nat, issuedAt: u64, coins: nat, now: u64)
    requires Correct(lib) && issuedAt + DEFAULT_TTL_SECS + MAX_SKEW_SECS < TWO_64 && now + MAX_SKEW_SECS < TWO_64
    requires k < |addrs| && k < MAX_ADDRS && HasP2p(addrs[k])
    ensures Verify(lib, DeviceId(lib, id), SignedRecord(lib, id, addrs, issuedAt, coins), now).Refused?
  {
    assert FirstEight(addrs)[k] == addrs[k];
    OwnRecordVerifies(lib, id, addrs, issuedAt, coins, now);
  }

  // ---- Any record ----

  /** Each text is an acceptable address, and no two are the same address. */
  predicate Readable(lib: Library, texts: seq<Bytes>, seen: set<Bytes>) {
    && (forall i | 0 <= i < |texts| :: GoodText(lib, texts[i]) && lib.printAddr(lib.parseAddr(texts[i]).value) !in seen)
    && (forall i, j | 0 <= i < j < |texts| && lib.parseAddr(texts[i]).Some? && lib.parseAddr(texts[j]).Some? ::
          lib.printAddr(lib.parseAddr(texts[i]).value) != lib.printAddr(lib.parseAddr(texts[j]).value))
  }

  predicate GoodText(lib: Library, text: Bytes) {
    lib.parseAddr(text).Some? && AcceptableAddr(lib.parseAddr(text).value)
  }

  lemma ReadableCons(lib: Library, texts: seq<Bytes>, seen: set<Bytes>)
    requires texts != [] && GoodText(lib, texts[0]) && lib.printAddr(lib.parseAddr(texts[0]).value) !in seen
    ensures Readable(lib, texts, seen) <==> Readable(lib, texts[1..], seen + {lib.printAddr(lib.parseAddr(texts[0]).value)})
  {
    var rest, p := texts[1..], lib.printAddr(lib.parseAddr(texts[0]).value);
    assert forall i | 0 <= i < |rest| :: rest[i] == texts[i + 1];
    assert forall i | 1 <= i < |texts| :: texts[i] == rest[i - 1];
    if Readable(lib, rest, seen + {p}) {
      forall i, j | 0 <= i < j < |texts| && lib.parseAddr(texts[i]).Some? && lib.parseAddr(texts[j]).Some?
        ensures lib.printAddr(lib.parseAddr(texts[i]).value) != lib.printAddr(lib.parseAddr(texts[j]).value)
      {
        assert GoodText(lib, rest[j - 1]) && lib.printAddr(lib.parseAddr(rest[j - 1]).value) !in seen + {p};
      }
    }
  }

  lemma {:induction false} ParsesExactly(lib: Library, texts: seq<Bytes>, seen: set<Bytes>)
    ensures var r := ParseAddrs(lib, texts, seen);
            && (r.Some? <==> Readable(lib, texts, seen))
            && (r.Some? ==> |r.value| == |texts| && forall i | 0 <= i < |texts| :: lib.parseAddr(texts[i]) == Some(r.value[i]))
    decreases |texts|
  {
    if texts != [] {
      if GoodText(lib, texts[0]) && lib.printAddr(lib.parseAddr(texts[0]).value) !in seen {
        ParsesExactly(lib, texts[1..], seen + {lib.printAddr(lib.parseAddr(texts[0]).value)});
        ReadableCons(lib, texts, seen);
      } else {
        assert !Readable(lib, texts, seen);
      }
    }
  }

  /** The key in the record is a device key that hashes to the expected id and signed the record. */
  predicate SignedBy(lib: Library, key: Bytes, r: AddrRecord) {
    var pk := PubKeyOf(lib, r.pubkeyB64);
    && pk.Some? && lib.validPeerId(key) && PeerIdOf(lib, pk.value) == key && r.peerId == lib.base58(key)
    && lib.unbase64(r.sigB64).Some? && lib.verify(pk.value, SignedBytes(r), lib.unbase64(r.sigB64).value)
  }

  /** When exactly any record at all verifies, foreign or malformed ones included, and what the
      reader then gets. */
  lemma VerifiesExactly(lib: Library, key: Bytes, r: AddrRecord, now: u64)
    ensures Verify(lib, key, r, now).Verified? <==>
            && r.v == 1 && r.kind == RECORD_KIND && PassesTimeChecks(r.issuedAt, r.ttlSecs, now) && SignedBy(lib, key, r)
            && UuidOf(lib, r.userIdHex).Some? && UuidOf(lib, r.deviceUuid).Some? && 1 <= |r.userName| <= 64
            && lib.unbase58(r.transportPeerB58).Some? && 1 <= |r.addrs| <= 8 && Readable(lib, r.addrs, {})
    ensures Verify(lib, key, r, now).Verified? ==>
              var v := Verify(lib, key, r, now).record;
              && v.peerId == key && v.userName == r.userName && v.issuedAt == r.issuedAt
              && Some(v.userId) == UuidOf(lib, r.userIdHex) && Some(v.deviceUuid) == UuidOf(lib, r.deviceUuid)
              && Some(v.transportPeer) == lib.unbase58(r.transportPeerB58)
              && |v.addrs| == |r.addrs| && forall i | 0 <= i < |v.addrs| :: lib.parseAddr(r.addrs[i]) == Some(v.addrs[i])
  {
    ParsesExactly(lib, r.addrs, {});
  }
}
