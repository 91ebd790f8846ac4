/** The library code the protocol calls: cryptography, text codecs and multiaddrs. None of it
    is implemented here; each primitive is a function the model is given, and `Correct` says
    what is relied on. Unforgeability and authenticity are properties of runs, stated where
    runs are defined. */
module Library {
  import opened ByteStrings
  import opened Framing

  function Zeros(n: nat): (s: Bytes)
    ensures |s| == n
  {
    if n == 0 then [] else Zeros(n - 1) + [0]
  }

  /** The bytes of an ASCII literal. */
  function Ascii(s: string): (b: Bytes)
    ensures |b| == |s|
  {
    seq(|s|, i requires 0 <= i < |s| => (s[i] as int) % 0x100)
  }

  const EK_LEN: nat := 1184
  const CT_LEN: nat := 1088
  const PUBKEY_LEN: nat := 1952
  const SIG_LEN: nat := 3309
  const TAG_LEN: nat := 16

  type Digest = s: Bytes | |s| == 32 witness Zeros(32)
  type Key = s: Bytes | |s| == 32 witness Zeros(32)
  type Nonce = s: Bytes | |s| == 12 witness Zeros(12)
  type Uuid = s: Bytes | |s| == 16 witness Zeros(16)
  type EncapKey = s: Bytes | |s| == EK_LEN witness Zeros(1184)
  type Ciphertext = s: Bytes | |s| == CT_LEN witness Zeros(1088)
  type PubKey = s: Bytes | |s| == PUBKEY_LEN witness Zeros(1952)
  type Signature = s: Bytes | |s| == SIG_LEN witness Zeros(3309)

  /** Peer IDs compare as byte strings. */
  type PeerId = Bytes

  datatype IpAddr = V4(octets: Bytes) | V6(octets: Bytes)
  {
    predicate Valid() {
      if V4? then |octets| == 4 else |octets| == 16
    }
  }

  predicate IsLoopback(ip: IpAddr) {
    match ip
    case V4(o) => |o| > 0 && o[0] == 127
    case V6(o) => o == [0, 0, 0, 0, 0, 0, 0, 0, 0, 0, 0, 0, 0, 0, 0, 1]
  }

  datatype Protocol = Ip(ip: IpAddr) | Tcp(port: u16) | P2p(peer: PeerId) | P2pCircuit | Other(code: nat)
  type Multiaddr = seq<Protocol>

  predicate HasTcp(a: Multiaddr) { exists i :: 0 <= i < |a| && a[i].Tcp? }
  predicate HasP2p(a: Multiaddr) { exists i :: 0 <= i < |a| && a[i].P2p? }
  predicate HasCircuit(a: Multiaddr) { exists i :: 0 <= i < |a| && a[i].P2pCircuit? }

  function FirstIp(a: Multiaddr): Option<IpAddr> {
    if a == [] then None else if a[0].Ip? then Some(a[0].ip) else FirstIp(a[1..])
  }

  /** A random choice is a number: secret keys, decapsulation keys and coins are all `nat`. */
  datatype Library = Library(
    encapKey: nat -> EncapKey,
    ciphertext: (Bytes, nat) -> Ciphertext,
    sharedSecret: (Bytes, nat) -> Key,
    decapsulate: (nat, Bytes) -> Key,
    publicKey: nat -> PubKey,
    sign: (nat, Bytes, nat) -> Signature,
    verify: (PubKey, Bytes, Bytes) -> bool,
    sha256: Bytes -> Digest,
    hkdfId: (Digest, Bytes, Bytes) -> SessionId,
    hkdfKey: (Digest, Bytes, Bytes) -> Key,
    seal: (Key, Nonce, Bytes, Bytes) -> Bytes,
    open: (Key, Nonce, Bytes, Bytes) -> Option<Bytes>,
    utf8: Bytes -> bool,
    printAddr: Multiaddr -> Bytes,
    parseAddr: Bytes -> Option<Multiaddr>,
    base64: Bytes -> Bytes,
    unbase64: Bytes -> Option<Bytes>,
    hex: Bytes -> Bytes,
    unhex: Bytes -> Option<Bytes>,
    base58: PeerId -> Bytes,
    unbase58: Bytes -> Option<PeerId>,
    validPeerId: Bytes -> bool
  )

  ghost predicate KemCorrect(lib: Library) {
    forall dk, r :: lib.decapsulate(dk, lib.ciphertext(lib.encapKey(dk), r)) == lib.sharedSecret(lib.encapKey(dk), r)
  }

  ghost predicate SignatureCorrect(lib: Library) {
    forall sk, m, r :: lib.verify(lib.publicKey(sk), m, lib.sign(sk, m, r))
  }

  ghost predicate AeadCorrect(lib: Library) {
    && (forall k, n, a, p :: lib.open(k, n, a, lib.seal(k, n, a, p)) == Some(p))
    && (forall k, n, a, p :: |lib.seal(k, n, a, p)| == |p| + TAG_LEN)
  }

  ghost predicate AddrTextCorrect(lib: Library) {
    forall a :: lib.parseAddr(lib.printAddr(a)) == Some(a) && lib.utf8(lib.printAddr(a))
  }

  ghost predicate TextCorrect(lib: Library) {
    && (forall b :: lib.unbase64(lib.base64(b)) == Some(b))
    && (forall b :: lib.unhex(lib.hex(b)) == Some(b))
    && (forall id :: lib.unbase58(lib.base58(id)) == Some(id))
    && (forall m :: lib.validPeerId([0x12, 0x20] + lib.sha256(m)))
  }

  /** Functional correctness: what was encapsulated, signed, sealed or printed comes back. */
  ghost predicate Correct(lib: Library) {
    KemCorrect(lib) && SignatureCorrect(lib) && AeadCorrect(lib) && AddrTextCorrect(lib) && TextCorrect(lib)
  }

  lemma PrintInjective(lib: Library, a: Multiaddr, b: Multiaddr)
    requires AddrTextCorrect(lib) && lib.printAddr(a) == lib.printAddr(b)
    ensures a == b
  {
    assert lib.parseAddr(lib.printAddr(a)) == Some(a);
    assert lib.parseAddr(lib.printAddr(b)) == Some(b);
  }

  /** A device: its long-term signing key and the names it publishes. */
  datatype Identity = Identity(secretKey: nat, userId: Uuid, userName: Bytes, deviceUuid: Uuid, transportPeer: PeerId)

  /** The self-certifying Peer ID: the SHA-256 multihash of the device key. */
  function PeerIdOf(lib: Library, pk: PubKey): PeerId {
    [0x12, 0x20] + lib.sha256(pk)
  }

  function DeviceId(lib: Library, id: Identity): PeerId {
    PeerIdOf(lib, lib.publicKey(id.secretKey))
  }
}
