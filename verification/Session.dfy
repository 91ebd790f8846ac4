/** Established sessions (src/session.rs): counters, nonces, sealing and opening. */
module Session {
  import opened ByteStrings
  import opened Framing
  import opened Library
  import opened Handshake

  const MAX_MESSAGE_BYTES: nat := 4096
  const SEEN_WINDOW: nat := 4096
  const MAX_SEQ_VIOLATIONS: u32 := 5
  const MAX_CONTROL_ADDR_BYTES: nat := 512
  const MAX_U32: u32 := 0xFFFF_FFFF

  type Dir = d: Bytes | |d| == 2 witness [0, 0]
  const LOW_DIR: Dir := [0x00, 0x01]
  const HIGH_DIR: Dir := [0x00, 0x02]

  /** What one frame carries before encryption. */
  datatype Plain =
    | TextPlain(ts: u64, body: Bytes)
    | AckPlain(ackMsgId: u64, ackSeq: u32, ts: u64)
    | ObservedPlain(ip: IpAddr, port: u16)
    | DialReqPlain(addr: Multiaddr)
    | DialResPlain(addr: Multiaddr, reachable: bool)

  datatype Inbound =
    | InMessage(seqNo: u32, msgId: u64, ts: u64, body: Bytes)
    | InAck(msgId: u64, ackSeq: u32)
    | InObserved(seqNo: u32, ip: IpAddr, port: u16)
    | InDialReq(seqNo: u32, addr: Multiaddr)
    | InDialRes(seqNo: u32, addr: Multiaddr, reachable: bool)

  datatype SessionError =
    | WrongSession | Replay | AuthenticationFailed | MalformedPlaintext | MessageTooLarge(size: nat) | Hostile | InvalidFrameType

  datatype Opened = Opened(event: Inbound) | Refused(error: SessionError)

  datatype SessionState = SessionState(
    sessionId: SessionId, sendKey: Key, recvKey: Key, myDir: Dir, peerDir: Dir,
    outSeq: u32, inSeq: u32, seqViolations: u32, seen: seq<(u32, u64)>)

  /** `Panics` stands for the `expect` on an exhausted counter. */
  datatype SealOutcome = Sealed(state: SessionState, frame: Frame) | NotSealed(error: SessionError) | Panics

  datatype HandleOutcome = Handled(state: SessionState, answer: Opened)

  function NewSession(r: HandshakeResult): SessionState {
    var mineLower := Less(r.myId, r.peerId);
    SessionState(r.keys.sessionId, r.sendKey, r.recvKey, if mineLower then LOW_DIR else HIGH_DIR,
                 if mineLower then HIGH_DIR else LOW_DIR, 0, 0, 0, [])
  }

  // ---- Plaintext codecs ----

  function TypeOf(p: Plain): MessageType {
    match p
    case TextPlain(_, _) => Message
    case AckPlain(_, _, _) => Ack
    case _ => Control
  }

  /** The text of an address as it goes on the wire: cut at the limit. */
  function WireText(lib: Library, addr: Multiaddr): (s: Bytes)
    ensures |s| <= MAX_CONTROL_ADDR_BYTES
  {
    var s := lib.printAddr(addr);
    if |s| <= MAX_CONTROL_ADDR_BYTES then s else s[..MAX_CONTROL_ADDR_BYTES]
  }

  function PushAddr(lib: Library, addr: Multiaddr): Bytes {
    Tagged(2, WireText(lib, addr))
  }

  function PlainBytes(lib: Library, p: Plain): Bytes {
    match p
    case TextPlain(ts, body) => [1] + BigEndian(ts, 8) + body
    case AckPlain(ackMsgId, ackSeq, ts) => [2] + BigEndian(ackMsgId, 8) + BigEndian(ackSeq, 4) + BigEndian(ts, 8)
    case ObservedPlain(V4(octets), port) => [3, 4] + octets + BigEndian(port, 2)
    case ObservedPlain(V6(octets), port) => [3, 16] + octets + BigEndian(port, 2)
    case DialReqPlain(addr) => [4] + PushAddr(lib, addr)
    case DialResPlain(addr, reachable) => [5] + PushAddr(lib, addr) + [if reachable then 1 else 0]
  }

  /** The address after the tag byte, and the bytes that follow it. */
  function TakeAddr(lib: Library, plaintext: Bytes): Option<(Multiaddr, Bytes)> {
    if |plaintext| < 4 then None
    else
      var len := FromBigEndian(plaintext[1..3]);
      if len == 0 || len > MAX_CONTROL_ADDR_BYTES then None
      else if |plaintext| < 3 + len then None
      else if !lib.utf8(plaintext[3..3 + len]) then None
      else
        match lib.parseAddr(plaintext[3..3 + len])
        case None => None
        case Some(addr) => Some((addr, plaintext[3 + len..]))
  }

  function ParseObserved(seqNo: u32, plaintext: Bytes): Opened {
    if |plaintext| < 8 then Refused(MalformedPlaintext)
    else
      var ipLen: int := plaintext[1];
      if |plaintext| != 2 + ipLen + 2 || (ipLen != 4 && ipLen != 16) then Refused(MalformedPlaintext)
      else
        Widths();
        var octets := plaintext[2..2 + ipLen];
        Opened(InObserved(seqNo, if ipLen == 4 then V4(octets) else V6(octets), FromBigEndian(plaintext[2 + ipLen..])))
  }

  function ParseText(lib: Library, seqNo: u32, msgId: u64, plaintext: Bytes): Opened {
    if |plaintext| < 9 then Refused(MalformedPlaintext)
    else if !lib.utf8(plaintext[9..]) then Refused(MalformedPlaintext)
    else Widths(); Opened(InMessage(seqNo, msgId, FromBigEndian(plaintext[1..9]), plaintext[9..]))
  }

  function ParseAck(plaintext: Bytes): Opened {
    if |plaintext| != 21 then Refused(MalformedPlaintext)
    else Widths(); Opened(InAck(FromBigEndian(plaintext[1..9]), FromBigEndian(plaintext[9..13])))
  }

  function ParseDialReq(lib: Library, seqNo: u32, plaintext: Bytes): Opened {
    match TakeAddr(lib, plaintext)
    case None => Refused(MalformedPlaintext)
    case Some((addr, _)) => Opened(InDialReq(seqNo, addr))
  }

  function ParseDialRes(lib: Library, seqNo: u32, plaintext: Bytes): Opened {
    match TakeAddr(lib, plaintext)
    case None => Refused(MalformedPlaintext)
    case Some((addr, rest)) =>
      if |rest| != 1 then Refused(MalformedPlaintext) else Opened(InDialRes(seqNo, addr, rest[0] == 1))
  }

  function ParsePlaintext(lib: Library, seqNo: u32, t: MessageType, msgId: u64, plaintext: Bytes): Opened {
    if plaintext == [] then Refused(MalformedPlaintext)
    else if t == Message && plaintext[0] == 1 then ParseText(lib, seqNo, msgId, plaintext)
    else if t == Ack && plaintext[0] == 2 then ParseAck(plaintext)
    else if t == Control && plaintext[0] == 3 then ParseObserved(seqNo, plaintext)
    else if t == Control && plaintext[0] == 4 then ParseDialReq(lib, seqNo, plaintext)
    else if t == Control && plaintext[0] == 5 then ParseDialRes(lib, seqNo, plaintext)
    else Refused(MalformedPlaintext)
  }

  /** What the receiver of `p` should see. */
  function InboundOf(seqNo: u32, msgId: u64, p: Plain): Inbound {
    match p
    case TextPlain(ts, body) => InMessage(seqNo, msgId, ts, body)
    case AckPlain(ackMsgId, ackSeq, _) => InAck(ackMsgId, ackSeq)
    case ObservedPlain(ip, port) => InObserved(seqNo, ip, port)
    case DialReqPlain(addr) => InDialReq(seqNo, addr)
    case DialResPlain(addr, reachable) => InDialRes(seqNo, addr, reachable)
  }

  /** What the types of the program guarantee: texts are UTF-8, IP addresses have 4 or 16
      bytes. */
  ghost predicate Typed(lib: Library, p: Plain) {
    && (p.TextPlain? ==> lib.utf8(p.body))
    && (p.ObservedPlain? ==> p.ip.Valid())
  }

  /** Typed, and any address within the length the program asserts in a debug build. */
  ghost predicate Sendable(lib: Library, p: Plain) {
    Typed(lib, p) && (p.DialReqPlain? || p.DialResPlain? ==> |lib.printAddr(p.addr)| <= MAX_CONTROL_ADDR_BYTES)
  }

  /** What a reader makes of the text of an address. */
  function ReadAddr(lib: Library, text: Bytes): Option<Multiaddr> {
    if text == [] || !lib.utf8(text) then None else lib.parseAddr(text)
  }

  lemma WireTextReads(lib: Library, addr: Multiaddr)
    requires AddrTextCorrect(lib) && |lib.printAddr(addr)| <= MAX_CONTROL_ADDR_BYTES
    ensures ReadAddr(lib, WireText(lib, addr)) == if lib.printAddr(addr) == [] then None else Some(addr)
  {
    assert lib.parseAddr(lib.printAddr(addr)) == Some(addr) && lib.utf8(lib.printAddr(addr));
  }

  lemma TakePushedAddr(lib: Library, tag: byte, addr: Multiaddr, rest: Bytes)
    ensures var read := ReadAddr(lib, WireText(lib, addr));
            TakeAddr(lib, [tag] + PushAddr(lib, addr) + rest) == if read.None? then None else Some((read.value, rest))
  {
    var s := WireText(lib, addr);
    var p := [tag] + PushAddr(lib, addr) + rest;
    assert p[1..3] == BigEndian(|s|, 2);
    Widths();
    BigEndianRoundTrip(|s|, 2);
    assert p[3..3 + |s|] == s && p[3 + |s|..] == rest;
  }

  lemma ReadText(lib: Library, seqNo: u32, msgId: u64, ts: u64, body: Bytes)
    requires lib.utf8(body)
    ensures ParsePlaintext(lib, seqNo, Message, msgId, PlainBytes(lib, TextPlain(ts, body))) == Opened(InMessage(seqNo, msgId, ts, body))
  {
    var b := PlainBytes(lib, TextPlain(ts, body));
    Widths();
    BigEndianRoundTrip(ts, 8);
    assert b[1..9] == BigEndian(ts, 8) && b[9..] == body;
  }

  lemma ReadAck(lib: Library, seqNo: u32, msgId: u64, ackMsgId: u64, ackSeq: u32, ts: u64)
    ensures ParsePlaintext(lib, seqNo, Ack, msgId, PlainBytes(lib, AckPlain(ackMsgId, ackSeq, ts))) == Opened(InAck(ackMsgId, ackSeq))
  {
    var b := PlainBytes(lib, AckPlain(ackMsgId, ackSeq, ts));
    Widths();
    BigEndianRoundTrip(ackMsgId, 8);
    BigEndianRoundTrip(ackSeq, 4);
    assert b[1..9] == BigEndian(ackMsgId, 8) && b[9..13] == BigEndian(ackSeq, 4);
  }

  lemma ReadObserved(lib: Library, seqNo: u32, msgId: u64, ip: IpAddr, port: u16)
    requires ip.Valid()
    ensures ParsePlaintext(lib, seqNo, Control, msgId, PlainBytes(lib, ObservedPlain(ip, port))) == Opened(InObserved(seqNo, ip, port))
  {
    var b := PlainBytes(lib, ObservedPlain(ip, port));
    var n := |ip.octets|;
    Widths();
    BigEndianRoundTrip(port, 2);
    assert b[0] == 3 && b[1] == n && b[2..2 + n] == ip.octets && b[2 + n..] == BigEndian(port, 2);
  }

  lemma ReadDial(lib: Library, seqNo: u32, msgId: u64, addr: Multiaddr, reachable: bool)
    ensures var read := ReadAddr(lib, WireText(lib, addr));
            && ParsePlaintext(lib, seqNo, Control, msgId, PlainBytes(lib, DialReqPlain(addr)))
               == (if read.None? then Refused(MalformedPlaintext) else Opened(InDialReq(seqNo, read.value)))
            && ParsePlaintext(lib, seqNo, Control, msgId, PlainBytes(lib, DialResPlain(addr, reachable)))
               == (if read.None? then Refused(MalformedPlaintext) else Opened(InDialRes(seqNo, read.value, reachable)))
  {
    TakePushedAddr(lib, 4, addr, []);
    var req := PlainBytes(lib, DialReqPlain(addr));
    assert req == req + [];
    TakePushedAddr(lib, 5, addr, [if reachable then 1 else 0]);
  }

  /** What arrives of `p`: everything, except that a dial-back names the address its cut text
      reads as, if any. */
  function Arriving(lib: Library, p: Plain): Option<Plain> {
    if !p.DialReqPlain? && !p.DialResPlain? then Some(p)
    else
      var read := ReadAddr(lib, WireText(lib, p.addr));
      if read.None? then None else Some(p.(addr := read.value))
  }

  /** Every payload is read back as what arrives of it, and refused if nothing does. */
  lemma PlainRoundTrip(lib: Library, seqNo: u32, msgId: u64, p: Plain)
    requires Typed(lib, p)
    ensures var got := Arriving(lib, p);
            ParsePlaintext(lib, seqNo, TypeOf(p), msgId, PlainBytes(lib, p))
            == if got.None? then Refused(MalformedPlaintext) else Opened(InboundOf(seqNo, msgId, got.value))
  {
    match p {
      case TextPlain(ts, body) => ReadText(lib, seqNo, msgId, ts, body);
      case AckPlain(ackMsgId, ackSeq, ts) => ReadAck(lib, seqNo, msgId, ackMsgId, ackSeq, ts);
      case ObservedPlain(ip, port) => ReadObserved(lib, seqNo, msgId, ip, port);
      case DialReqPlain(addr) => ReadDial(lib, seqNo, msgId, addr, true);
      case DialResPlain(addr, reachable) => ReadDial(lib, seqNo, msgId, addr, reachable);
    }
  }

  /** Within the length limit everything arrives unchanged, but for an address with no text. */
  lemma SendableArrives(lib: Library, p: Plain)
    requires AddrTextCorrect(lib) && Sendable(lib, p)
    ensures Arriving(lib, p) == if (p.DialReqPlain? || p.DialResPlain?) && lib.printAddr(p.addr) == [] then None else Some(p)
  {
    if p.DialReqPlain? || p.DialResPlain? {
      WireTextReads(lib, p.addr);
    }
  }

  // ---- Nonces and associated data ----

  /** [dir 2][zero 2][seq 4][zero 4] */
  function NonceFor(dir: Dir, seqNo: u32): Nonce {
    dir + [0, 0] + BigEndian(seqNo, 4) + [0, 0, 0, 0]
  }

  /** [version | type << 4][session 16][seq 4][message id 8]; the type code is below 16, so
      the two halves of the first byte do not overlap. */
  function AadFor(sessionId: SessionId, t: MessageType, seqNo: u32, msgId: u64): Bytes {
    [VERSION + 16 * TypeCode(t)] + sessionId + BigEndian(seqNo, 4) + BigEndian(msgId, 8)
  }

  lemma NonceInjective(dir: Dir, dir': Dir, seqNo: u32, seqNo': u32)
    requires NonceFor(dir, seqNo) == NonceFor(dir', seqNo')
    ensures dir == dir' && seqNo == seqNo'
  {
    var n := NonceFor(dir, seqNo);
    assert n[..2] == dir && n[4..8] == BigEndian(seqNo, 4);
    assert n[..2] == dir' && n[4..8] == BigEndian(seqNo', 4);
    Widths();
    BigEndianInjective(seqNo, seqNo', 4);
  }

  lemma AadInjective(sid: SessionId, sid': SessionId, t: MessageType, t': MessageType, seqNo: u32, seqNo': u32, msgId: u64, msgId': u64)
    requires AadFor(sid, t, seqNo, msgId) == AadFor(sid', t', seqNo', msgId')
    ensures sid == sid' && t == t' && seqNo == seqNo' && msgId == msgId'
  {
    var a, b := AadFor(sid, t, seqNo, msgId), AadFor(sid', t', seqNo', msgId');
    assert a[0] == b[0] && a[1..17] == b[1..17] && a[17..21] == b[17..21] && a[21..29] == b[21..29];
    assert a[1..17] == sid && b[1..17] == sid';
    assert a[17..21] == BigEndian(seqNo, 4) && b[17..21] == BigEndian(seqNo', 4);
    assert a[21..29] == BigEndian(msgId, 8) && b[21..29] == BigEndian(msgId', 8);
    Widths();
    BigEndianInjective(seqNo, seqNo', 4);
    BigEndianInjective(msgId, msgId', 8);
  }

  // ---- Sealing ----

  function SealFrame(lib: Library, s: SessionState, t: MessageType, seqNo: u32, msgId: u64, plaintext: Bytes): Frame {
    Frame(t, 0, s.sessionId, seqNo, msgId,
          lib.seal(s.sendKey, NonceFor(s.myDir, seqNo), AadFor(s.sessionId, t, seqNo, msgId), plaintext))
  }

  /** The frame that carries `p` as number `seqNo` of this direction. */
  function FrameFor(lib: Library, s: SessionState, seqNo: u32, msgId: u64, p: Plain): Frame {
    SealFrame(lib, s, TypeOf(p), seqNo, msgId, PlainBytes(lib, p))
  }

  /** Acknowledgements and control frames. */
  function SealPlain(lib: Library, s: SessionState, p: Plain, msgId: u64): SealOutcome {
    if s.outSeq == MAX_U32 then Panics
    else Sealed(s.(outSeq := s.outSeq + 1), FrameFor(lib, s, s.outSeq, msgId, p))
  }

  function EncryptMessage(lib: Library, s: SessionState, text: Bytes, msgId: u64, ts: u64): SealOutcome {
    if |text| > MAX_MESSAGE_BYTES then NotSealed(MessageTooLarge(|text|))
    else if s.outSeq == MAX_U32 then NotSealed(Hostile)
    else SealPlain(lib, s, TextPlain(ts, text), msgId)
  }

  // ---- Opening ----

  function Remember(seen: seq<(u32, u64)>, seqNo: u32, msgId: u64): seq<(u32, u64)> {
    (if |seen| >= SEEN_WINDOW then seen[1..] else seen) + [(seqNo, msgId)]
  }

  function HandleFrame(lib: Library, s: SessionState, f: Frame): HandleOutcome {
    if f.sessionId != s.sessionId then Handled(s, Refused(WrongSession))
    else if f.seqNo != s.inSeq then
      var violations: u32 := (s.seqViolations + 1) % 0x1_0000_0000;
      Handled(s.(seqViolations := violations),
              if violations >= MAX_SEQ_VIOLATIONS then Refused(Hostile) else Refused(Replay))
    else if s.inSeq == MAX_U32 then Handled(s, Refused(Hostile))
    else
      var s' := s.(inSeq := s.inSeq + 1, seen := Remember(s.seen, f.seqNo, f.msgId));
      if !f.IsSessionFrame() then Handled(s', Refused(InvalidFrameType))
      else
        match lib.open(s.recvKey, NonceFor(s.peerDir, f.seqNo), AadFor(s.sessionId, f.msgType, f.seqNo, f.msgId), f.payload)
        case None => Handled(s', Refused(AuthenticationFailed))
        case Some(plaintext) => Handled(s', ParsePlaintext(lib, f.seqNo, f.msgType, f.msgId, plaintext))
  }

  // ---- The object the program updates in place ----

  class Session {
    const lib: Library
    const sessionId: SessionId
    const sendKey: Key
    const recvKey: Key
    const myDir: Dir
    const peerDir: Dir
    var outSeq: u32
    var inSeq: u32
    var seqViolations: u32
    var seen: seq<(u32, u64)>

    ghost predicate Valid()
      reads this
    {
      |seen| <= SEEN_WINDOW
    }

    ghost function View(): SessionState
      reads this
    {
      SessionState(sessionId, sendKey, recvKey, myDir, peerDir, outSeq, inSeq, seqViolations, seen)
    }

    constructor (lib: Library, r: HandshakeResult)
      ensures Valid() && View() == NewSession(r) && this.lib == lib
    {
      this.lib := lib;
      var mineLower := Less(r.myId, r.peerId);
      sessionId, sendKey, recvKey := r.keys.sessionId, r.sendKey, r.recvKey;
      myDir := if mineLower then LOW_DIR else HIGH_DIR;
      peerDir := if mineLower then HIGH_DIR else LOW_DIR;
      outSeq, inSeq, seqViolations, seen := 0, 0, 0, [];
    }

    method EncryptText(text: Bytes, msgId: u64, ts: u64) returns (r: SealOutcome)
      modifies this`outSeq
      ensures r == EncryptMessage(lib, old(View()), text, msgId, ts)
      ensures View() == if r.Sealed? then r.state else old(View())
    {
      if |text| > MAX_MESSAGE_BYTES {
        return NotSealed(MessageTooLarge(|text|));
      }
      var plaintext := [1];
      plaintext := plaintext + BigEndian(ts, 8);
      plaintext := plaintext + text;
      var seqNo := outSeq;
      if outSeq == MAX_U32 {
        return NotSealed(Hostile);
      }
      outSeq := outSeq + 1;
      r := SealNow(Message, seqNo, msgId, plaintext);
    }

    /** Acks and control frames: the counter must not be exhausted. */
    method EncryptPlain(p: Plain, msgId: u64) returns (r: SealOutcome)
      requires !p.TextPlain?
      modifies this`outSeq
      ensures r == SealPlain(lib, old(View()), p, msgId)
      ensures View() == if r.Sealed? then r.state else old(View())
    {
      var seqNo := outSeq;
      if outSeq == MAX_U32 {
        return Panics;
      }
      outSeq := outSeq + 1;
      r := SealNow(TypeOf(p), seqNo, msgId, PlainBytes(lib, p));
    }

    method SealNow(t: MessageType, seqNo: u32, msgId: u64, plaintext: Bytes) returns (r: SealOutcome)
      ensures r == Sealed(View(), SealFrame(lib, View(), t, seqNo, msgId, plaintext))
    {
      var ct := lib.seal(sendKey, NonceFor(myDir, seqNo), AadFor(sessionId, t, seqNo, msgId), plaintext);
      r := Sealed(SessionState(sessionId, sendKey, recvKey, myDir, peerDir, outSeq, inSeq, seqViolations, seen),
                  Frame(t, 0, sessionId, seqNo, msgId, ct));
    }

    method Handle(f: Frame) returns (answer: Opened)
      requires Valid()
      modifies this
      ensures Valid()
      ensures Handled(View(), answer) == HandleFrame(lib, old(View()), f)
    {
      if f.sessionId != sessionId {
        return Refused(WrongSession);
      }
      if f.seqNo != inSeq {
        seqViolations := (seqViolations + 1) % 0x1_0000_0000;
        if seqViolations >= MAX_SEQ_VIOLATIONS {
          return Refused(Hostile);
        }
        return Refused(Replay);
      }
      if inSeq == MAX_U32 {
        return Refused(Hostile);
      }
      inSeq := inSeq + 1;
      if |seen| >= SEEN_WINDOW {
        seen := seen[1..];
      }
      seen := seen + [(f.seqNo, f.msgId)];
      if !f.IsSessionFrame() {
        return Refused(InvalidFrameType);
      }
      var plaintext := lib.open(recvKey, NonceFor(peerDir, f.seqNo), AadFor(sessionId, f.msgType, f.seqNo, f.msgId), f.payload);
      if plaintext.None? {
        return Refused(AuthenticationFailed);
      }
      answer := ParsePlaintext(lib, inSeq - 1, f.msgType, f.msgId, plaintext.value);
    }
  }
}
