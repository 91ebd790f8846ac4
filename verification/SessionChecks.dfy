/** What a session answers to frames that do not open, and what it keeps of those it takes
    (src/session.rs). */
module SessionChecks {
  import opened ByteStrings
  import opened Framing
  import opened Library
  import opened Session
  import opened Limits

  predicate OutOfOrder(s: SessionState, f: Frame) { f.sessionId == s.sessionId && f.seqNo != s.inSeq }

  predicate InOrder(s: SessionState, f: Frame) { f.sessionId == s.sessionId && f.seqNo == s.inSeq && s.inSeq < MAX_U32 }

  /** The reason for every refusal. A frame in order takes its number even if it is refused; any
      other leaves the number, and only one out of order is counted. */
  lemma RefusalReason(lib: Library, s: SessionState, f: Frame)
    requires s.seqViolations < MAX_U32
    ensures var h := HandleFrame(lib, s, f);
            && (h.answer == Refused(WrongSession) <==> f.sessionId != s.sessionId)
            && (h.answer == Refused(Replay) <==> OutOfOrder(s, f) && s.seqViolations + 1 < MAX_SEQ_VIOLATIONS)
            && (h.answer == Refused(Hostile) <==>
                || (OutOfOrder(s, f) && s.seqViolations + 1 >= MAX_SEQ_VIOLATIONS)
                || (f.sessionId == s.sessionId && f.seqNo == s.inSeq == MAX_U32))
            && (h.answer == Refused(InvalidFrameType) <==> InOrder(s, f) && !f.IsSessionFrame())
            && (h.answer == Refused(AuthenticationFailed) <==> InOrder(s, f) && f.IsSessionFrame() && Plaintext(lib, s, f).None?)
            && (h.answer == Refused(MalformedPlaintext) <==>
                Plaintext(lib, s, f).Some? && ParsePlaintext(lib, f.seqNo, f.msgType, f.msgId, Plaintext(lib, s, f).value).Refused?)
            && h.state.inSeq == (if InOrder(s, f) then s.inSeq + 1 else s.inSeq)
            && h.state.seqViolations == (if OutOfOrder(s, f) then s.seqViolations + 1 else s.seqViolations)
  {
    if Plaintext(lib, s, f).Some? {
      OnlyMalformed(lib, f.seqNo, f.msgType, f.msgId, Plaintext(lib, s, f).value);
    }
  }

  lemma OnlyMalformed(lib: Library, seqNo: u32, t: MessageType, msgId: u64, p: Bytes)
    ensures var o := ParsePlaintext(lib, seqNo, t, msgId, p); o.Refused? ==> o.error == MalformedPlaintext
  {
  }

  /** The session after `frames`. */
  function Fed(lib: Library, s: SessionState, frames: seq<Frame>): SessionState
    decreases |frames|
  {
    if frames == [] then s else HandleFrame(lib, Fed(lib, s, frames[..|frames| - 1]), frames[|frames| - 1]).state
  }

  /** Frames out of order, one after the other: the fifth, and every later one, is answered as
      hostile. */
  lemma {:induction false} ViolationsAdd(lib: Library, s: SessionState, frames: seq<Frame>, f: Frame)
    requires s.seqViolations == 0 && |frames| < MAX_U32 && forall i | 0 <= i < |frames| :: OutOfOrder(s, frames[i])
    requires OutOfOrder(s, f)
    ensures var t := Fed(lib, s, frames);
            && t.inSeq == s.inSeq && t.sessionId == s.sessionId && t.seqViolations == |frames|
            && HandleFrame(lib, t, f).answer == Refused(if |frames| + 1 >= MAX_SEQ_VIOLATIONS then Hostile else Replay)
    decreases |frames|
  {
    if frames != [] {
      var front, last := frames[..|frames| - 1], frames[|frames| - 1];
      ViolationsAdd(lib, s, front, last);
      RefusalReason(lib, Fed(lib, s, front), last);
    }
    RefusalReason(lib, Fed(lib, s, frames), f);
  }

  /** The window holds the numbers and ids of the latest frames taken, at most SEEN_WINDOW. */
  ghost predicate HoldsLatest(seen: seq<(u32, u64)>, frames: seq<Frame>) {
    && |seen| == (if |frames| <= SEEN_WINDOW then |frames| else SEEN_WINDOW)
    && forall k | 0 <= k < |seen| :: seen[k] == (frames[|frames| - |seen| + k].seqNo, frames[|frames| - |seen| + k].msgId)
  }

  lemma {:induction false} WindowHoldsLatest(lib: Library, s: SessionState, frames: seq<Frame>)
    requires s.inSeq == 0 && s.seen == [] && s.seqViolations == 0 && |frames| <= MAX_U32
    requires forall i | 0 <= i < |frames| :: frames[i].sessionId == s.sessionId && frames[i].seqNo == i
    ensures var t := Fed(lib, s, frames); t.inSeq == |frames| && t.sessionId == s.sessionId && t.seqViolations == 0 && HoldsLatest(t.seen, frames)
    decreases |frames|
  {
    if frames != [] {
      var front, last := frames[..|frames| - 1], frames[|frames| - 1];
      WindowHoldsLatest(lib, s, front);
      RefusalReason(lib, Fed(lib, s, front), last);
      TakenIsRemembered(lib, Fed(lib, s, front), last);
      LatestSnoc(Fed(lib, s, front).seen, front, last);
      assert frames == front + [last];
    }
  }

  lemma TakenIsRemembered(lib: Library, s: SessionState, f: Frame)
    requires InOrder(s, f)
    ensures var t := HandleFrame(lib, s, f).state; t.seen == Remember(s.seen, f.seqNo, f.msgId) && t.sessionId == s.sessionId
  {
  }

  lemma LatestSnoc(seen: seq<(u32, u64)>, frames: seq<Frame>, f: Frame)
    requires HoldsLatest(seen, frames)
    ensures HoldsLatest(Remember(seen, f.seqNo, f.msgId), frames + [f])
  {
  }
}
