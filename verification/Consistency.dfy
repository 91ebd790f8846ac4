/** The assumptions are consistent: there is a library that is correct, and with it two honest
    nodes about to talk, so the theorems about honest nodes are about something. The library
    is a toy with no security; only what `Correct` asks for matters here. */
module Consistency {
  import opened ByteStrings
  import opened Framing
  import opened Library
  import Hs = Handshake
  import opened HandshakePair
  import opened Registry
  import opened Conversation
  import opened EndToEnd

  // ---- A printing of addresses that loses nothing ----

  /** A number in unary, closed by a zero. */
  function Unary(n: nat): Bytes {
    if n == 0 then [0] else [1] + Unary(n - 1)
  }

  function Counted(s: Bytes): Bytes { Unary(|s|) + s }

  function Tag(p: Protocol): byte {
    match p
    case Ip(V4(_)) => 1
    case Ip(V6(_)) => 2
    case Tcp(_) => 3
    case P2p(_) => 4
    case P2pCircuit => 5
    case Other(_) => 6
  }

  function Body(p: Protocol): Bytes {
    match p
    case Ip(ip) => Counted(ip.octets)
    case Tcp(port) => Unary(port)
    case P2p(peer) => Counted(peer)
    case P2pCircuit => []
    case Other(code) => Unary(code)
  }

  function PrintProtocol(p: Protocol): (s: Bytes)
    ensures s != []
  {
    [Tag(p)] + Body(p)
  }

  function Print(a: Multiaddr): Bytes {
    if a == [] then [] else PrintProtocol(a[0]) + Print(a[1..])
  }

  lemma {:induction false} UnaryUnique(m: nat, n: nat, x: Bytes, y: Bytes)
    requires Unary(m) + x == Unary(n) + y
    ensures m == n && x == y
    decreases m
  {
    var s := Unary(m) + x;
    assert s[0] == Unary(m)[0] == Unary(n)[0];
    assert s[1..] == Unary(m)[1..] + x == Unary(n)[1..] + y;
    if m > 0 {
      assert Unary(m)[1..] == Unary(m - 1) && Unary(n)[1..] == Unary(n - 1);
      UnaryUnique(m - 1, n - 1, x, y);
    }
  }

  lemma CountedUnique(s: Bytes, t: Bytes, x: Bytes, y: Bytes)
    requires Counted(s) + x == Counted(t) + y
    ensures s == t && x == y
  {
    ConcatAssociative(Unary(|s|), s, x);
    ConcatAssociative(Unary(|t|), t, y);
    UnaryUnique(|s|, |t|, s + x, t + y);
    SplitAt(s, t, x, y);
  }

  lemma BodyUnique(p: Protocol, q: Protocol, x: Bytes, y: Bytes)
    requires Tag(p) == Tag(q) && Body(p) + x == Body(q) + y
    ensures p == q && x == y
  {
    match p
    case Ip(ip) => CountedUnique(ip.octets, q.ip.octets, x, y);
    case Tcp(port) => UnaryUnique(port, q.port, x, y);
    case P2p(peer) => CountedUnique(peer, q.peer, x, y);
    case P2pCircuit => assert [] + x == x && [] + y == y;
    case Other(code) => UnaryUnique(code, q.code, x, y);
  }

  lemma ProtocolUnique(p: Protocol, q: Protocol, x: Bytes, y: Bytes)
    requires PrintProtocol(p) + x == PrintProtocol(q) + y
    ensures p == q && x == y
  {
    ConcatAssociative([Tag(p)], Body(p), x);
    ConcatAssociative([Tag(q)], Body(q), y);
    SplitAt([Tag(p)], [Tag(q)], Body(p) + x, Body(q) + y);
    BodyUnique(p, q, x, y);
  }

  lemma PrintHead(a: Multiaddr)
    requires a != []
    ensures Print(a) == PrintProtocol(a[0]) + Print(a[1..]) && Print(a) != [] && a == [a[0]] + a[1..]
  {
  }

  lemma {:induction false} PrintUnique(a: Multiaddr, b: Multiaddr)
    requires Print(a) == Print(b)
    ensures a == b
    decreases |a|
  {
    if a == [] {
      if b != [] {
        PrintHead(b);
      }
    } else {
      PrintHead(a);
      if b != [] {
        PrintHead(b);
        ProtocolUnique(a[0], b[0], Print(a[1..]), Print(b[1..]));
        PrintUnique(a[1..], b[1..]);
      }
    }
  }

  ghost function Parse(s: Bytes): Option<Multiaddr> {
    if exists a :: Print(a) == s then
      var a :| Print(a) == s;
      Some(a)
    else None
  }

  lemma ParsePrint(a: Multiaddr)
    ensures Parse(Print(a)) == Some(a)
  {
    var b :| Print(b) == Print(a) && Parse(Print(a)) == Some(b);
    PrintUnique(a, b);
  }

  // ---- A correct library ----

  function FirstByte(s: Bytes): byte { if s == [] then 0 else s[0] }

  function Unseal(c: Bytes): Option<Bytes> { if |c| < TAG_LEN then None else Some(c[..|c| - TAG_LEN]) }

  /** n bytes that start with `first`. */
  function Filled(first: byte, n: nat): (s: Bytes)
    ensures |s| == n && (n > 0 ==> s[0] == first)
  {
    seq(n, i => if i == 0 then first else 0)
  }

  ghost function Toy(): Library {
    Library(
      dk => Filled(0, EK_LEN), (ek, r) => Filled(0, CT_LEN), (ek, r) => Filled(0, 32), (dk, ct) => Filled(0, 32),
      sk => Filled(sk % 0x100, PUBKEY_LEN), (sk, m, r) => Filled(0, SIG_LEN), (pk, m, sig) => true,
      m => Filled(FirstByte(m), 32), (salt, ikm, info) => Filled(1, 16), (salt, ikm, info) => Filled(0, 32),
      (k, n, a, p) => p + Filled(0, TAG_LEN), (k, n, a, c) => Unseal(c),
      b => true, a => Print(a), s => Parse(s),
      b => b, b => Some(b), b => b, b => Some(b), id => id, b => Some(b), id => true)
  }

  lemma ToyCorrect()
    ensures Correct(Toy())
  {
    var lib := Toy();
    forall k, n, a, p
      ensures lib.open(k, n, a, lib.seal(k, n, a, p)) == Some(p)
    {
      assert (p + Filled(0, TAG_LEN))[..|p|] == p;
    }
    forall a
      ensures lib.parseAddr(lib.printAddr(a)) == Some(a)
    {
      ParsePrint(a);
    }
  }

  // ---- Two honest nodes ----

  function ToyEnd(secretKey: nat): End {
    End(Party(Identity(secretKey, Filled(0, 16), [0x61], Filled(0, 16), []), Hs.Coins(0, 0, 0), None), ConnKey([], 0))
  }

  function ToySide(e: End): Side { Side(NewRegistry(e.party.id), false, 0, []) }

  lemma NewNodeIsFresh(lib: Library, e: End, peer: End)
    requires e.party.expected.None?
    ensures FreshSide(lib, e, peer, ToySide(e))
  {
  }

  lemma ToyIds(m: nat, n: nat)
    requires m % 0x100 != n % 0x100
    ensures DeviceId(Toy(), ToyEnd(m).party.id) != DeviceId(Toy(), ToyEnd(n).party.id)
  {
    assert DeviceId(Toy(), ToyEnd(m).party.id)[2] == m % 0x100 && DeviceId(Toy(), ToyEnd(n).party.id)[2] == n % 0x100;
  }

  lemma ToySessionId(a: Party, b: Party)
    ensures PairKeys(Toy(), a, b).sessionId != ZERO_ID
  {
    assert PairKeys(Toy(), a, b).sessionId[0] == 1 != ZERO_ID[0];
  }

  /** The hypotheses of the end-to-end theorems can be met. */
  lemma HonestNodesExist() returns (lib: Library, a: End, b: End, w: World)
    ensures Honest(lib, a.party, b.party) && FreshSide(lib, a, b, w.a) && FreshSide(lib, b, a, w.b)
    ensures PairKeys(lib, a.party, b.party).sessionId != ZERO_ID
  {
    lib, a, b := Toy(), ToyEnd(1), ToyEnd(2);
    w := World(ToySide(a), ToySide(b));
    ToyCorrect();
    ToyIds(1, 2);
    ToySessionId(a.party, b.party);
    NewNodeIsFresh(lib, a, b);
    NewNodeIsFresh(lib, b, a);
  }
}
