/** The per-connection handler (src/transport.rs): an incremental reader, a partial
    writer, and what the two do to the bytes of one connection. */
module Stream {
  import opened ByteStrings
  import opened Framing

  const READ_CHUNK: nat := 4096
  const MAX_READ_BUFFER: nat := HEADER_LEN + MAX_PAYLOAD

  type Chunk = b: Bytes | |b| <= READ_CHUNK

  /** What the substream answers to one poll_write / poll_read. A write that reports more
      than it was offered counts as having taken everything; an empty read is end of file. */
  datatype WritePoll = Wrote(n: nat) | WritePending | WriteFailed
  datatype ReadPoll = Got(chunk: Chunk) | ReadPending | ReadFailed

  datatype FlushResult = Flushed | FlushPending | FlushFailed
  datatype ReadResult = Emitted(frame: Frame) | NoFrame | NotReady | Broken

  datatype HandlerEvent = Idle | OutboundSubstreamRequest | SubstreamReady | FrameReceived(frame: Frame) | StreamClosed

  datatype Writing = Writing(buf: Bytes, offset: nat)

  function Concat(chunks: seq<Bytes>): Bytes {
    if chunks == [] then [] else chunks[0] + Concat(chunks[1..])
  }

  lemma {:induction false} ConcatAppend(xs: seq<Bytes>, ys: seq<Bytes>)
    ensures Concat(xs + ys) == Concat(xs) + Concat(ys)
  {
    if xs == [] {
      assert xs + ys == ys;
    } else {
      ConcatAppend(xs[1..], ys);
      assert (xs + ys)[0] == xs[0] && (xs + ys)[1..] == xs[1..] + ys;
      ConcatAssociative(xs[0], Concat(xs[1..]), Concat(ys));
    }
  }

  /** What is left of the chunk being written, then the queue. */
  function UnsentOf(writing: Option<Writing>, queue: seq<Bytes>): Bytes
    requires writing.Some? ==> writing.value.offset <= |writing.value.buf|
  {
    (if writing.Some? then writing.value.buf[writing.value.offset..] else []) + Concat(queue)
  }

  /** The next chunk and offset after the substream took `n` more bytes. */
  function Advance(w: Writing, n: nat): Option<Writing>
    requires w.offset + n <= |w.buf|
  {
    if w.offset + n == |w.buf| then None else Some(Writing(w.buf, w.offset + n))
  }

  lemma AdvanceKeepsBytes(before: Bytes, w: Writing, n: nat, queue: seq<Bytes>)
    requires w.offset + n <= |w.buf|
    ensures before + w.buf[w.offset..w.offset + n] + UnsentOf(Advance(w, n), queue)
            == before + UnsentOf(Some(w), queue)
  {
    assert w.buf[w.offset..] == w.buf[w.offset..w.offset + n] + w.buf[w.offset + n..];
  }

  lemma PopKeepsBytes(queue: seq<Bytes>)
    requires queue != []
    ensures UnsentOf(Some(Writing(queue[0], 0)), queue[1..]) == UnsentOf(None, queue)
  {
  }

  lemma PushAppendsBytes(writing: Option<Writing>, queue: seq<Bytes>, chunk: Bytes)
    requires writing.Some? ==> writing.value.offset <= |writing.value.buf|
    ensures UnsentOf(writing, queue + [chunk]) == UnsentOf(writing, queue) + chunk
  {
    ConcatAppend(queue, [chunk]);
    assert Concat([chunk]) == chunk + Concat([]) == chunk;
  }

  lemma EncodingAllSnoc(fs: seq<Frame>, i: nat)
    requires i < |fs|
    ensures EncodingAll(fs[..i + 1]) == EncodingAll(fs[..i]) + Encoding(fs[i])
  {
    EncodingAllAppend(fs[..i], [fs[i]]);
    assert fs[..i + 1] == fs[..i] + [fs[i]];
    assert EncodingAll([fs[i]]) == Encoding(fs[i]) + EncodingAll([]) == Encoding(fs[i]);
  }

  /** The bytes that polls `polls` deliver before the first one that delivers none. */
  function Received(polls: seq<ReadPoll>): Bytes {
    if polls == [] || !polls[0].Got? then [] else polls[0].chunk + Received(polls[1..])
  }

  lemma {:induction false} ReceivedStep(polls: seq<ReadPoll>, k: nat)
    requires k < |polls| && polls[k].Got? && forall i | 0 <= i < k :: polls[i].Got?
    ensures Received(polls[..k + 1]) == Received(polls[..k]) + polls[k].chunk
  {
    if k == 0 {
      assert polls[..1][1..] == [];
    } else {
      ReceivedStep(polls[1..], k - 1);
      assert polls[..k + 1][1..] == polls[1..][..k];
      assert polls[..k][1..] == polls[1..][..k - 1];
    }
  }

  /** One call of the reader: it turns `got` new bytes and the buffer into a result. */
  ghost predicate ReadStep(buf: Bytes, got: Bytes, r: ReadResult, buf': Bytes) {
    match r
    case Emitted(f) => WellFormed(f) && buf + got == Encoding(f) + buf'
    case NoFrame => buf' == buf + got && Decode(buf') == Malformed(Truncated)
    case NotReady => buf' == buf + got && Decode(buf') == Malformed(Truncated)
    case Broken => buf' == buf + got
  }

  /** A decoded frame is followed by the rest of the buffer. */
  lemma Consumes(buf: Bytes)
    requires Decode(buf).Decoded?
    ensures var f := Decode(buf).frame;
            var n := HEADER_LEN + |f.payload|;
            n <= |buf| && WellFormed(f) && buf == Encoding(f) + buf[n..]
  {
    DecodeCanonical(buf);
    var n := HEADER_LEN + |Decode(buf).frame.payload|;
    assert buf == buf[..n] + buf[n..];
  }

  class SessionHandler {
    const initiator: bool
    var outboundRequested: bool
    var substream: bool
    var pendingReady: bool
    var readBuf: Bytes
    var writeQueue: seq<Bytes>
    var writing: Option<Writing>
    var closed: bool

    ghost predicate Valid()
      reads this
    {
      && (forall i | 0 <= i < |writeQueue| :: writeQueue[i] != [])
      && (writing.Some? ==> writing.value.offset < |writing.value.buf|)
      && |readBuf| < MAX_READ_BUFFER + READ_CHUNK
      && (pendingReady ==> substream)
    }

    /** Bytes handed to the handler and not yet accepted by the substream. */
    ghost function Unsent(): Bytes
      requires Valid()
      reads this
    {
      UnsentOf(writing, writeQueue)
    }

    constructor (initiator: bool)
      ensures Valid() && this.initiator == initiator && !substream && !closed && !pendingReady
      ensures !outboundRequested && readBuf == [] && Unsent() == []
    {
      this.initiator := initiator;
      outboundRequested, substream, pendingReady, closed := false, false, false, false;
      readBuf, writeQueue, writing := [], [], None;
    }

    /** A negotiated substream; only the first one is kept. */
    method SetSubstream()
      requires Valid()
      modifies this`substream, this`pendingReady
      ensures Valid() && substream
      ensures pendingReady == (old(pendingReady) || !old(substream))
    {
      if substream {
        return;
      }
      substream := true;
      pendingReady := true;
    }

    /** Queues the encodings of `frames`, in order. */
    method SendFrames(frames: seq<Frame>)
      requires Valid()
      modifies this`writeQueue
      ensures Valid() && Unsent() == old(Unsent()) + EncodingAll(frames)
    {
      ghost var before := Unsent();
      for i := 0 to |frames|
        invariant Valid()
        invariant Unsent() == before + EncodingAll(frames[..i])
      {
        var bytes := Encode(frames[i]);
        PushAppendsBytes(writing, writeQueue, bytes);
        EncodingAllSnoc(frames, i);
        ConcatAssociative(before, EncodingAll(frames[..i]), bytes);
        writeQueue := writeQueue + [bytes];
      }
      assert frames[..|frames|] == frames;
    }

    /** Writes until the queue is empty or the substream stops taking bytes. Nothing is
        lost, repeated or reordered: what was accepted plus what is left is what there was. */
    method PollFlushWrites(polls: seq<WritePoll>) returns (r: FlushResult, written: Bytes)
      requires Valid()
      modifies this`writeQueue, this`writing
      ensures Valid()
      ensures written + Unsent() == old(Unsent())
      ensures r.Flushed? && substream ==> Unsent() == []
      ensures !substream ==> r.Flushed? && written == []
      ensures r.FlushPending? ==> Unsent() != []
      ensures r.FlushFailed? ==> exists p :: p in polls && (p.WriteFailed? || p == Wrote(0))
      ensures r.FlushFailed? ==> Unsent() != []
      ensures substream && old(Unsent()) != [] && polls != [] && polls[0].Wrote? && polls[0].n > 0 ==> written != []
    {
      written := [];
      if !substream {
        return Flushed, [];
      }
      var used := 0;
      while true
        invariant Valid() && used <= |polls|
        invariant written + Unsent() == old(Unsent())
        invariant used > 0 ==> written != []
        decreases |polls| - used
      {
        if writing.None? {
          if writeQueue == [] {
            return Flushed, written;
          }
          PopKeepsBytes(writeQueue);
          writing, writeQueue := Some(Writing(writeQueue[0], 0)), writeQueue[1..];
        }
        var w := writing.value;
        if used == |polls| || polls[used].WritePending? {
          return FlushPending, written;
        }
        if polls[used].WriteFailed? || polls[used].n == 0 {
          assert polls[used] in polls;
          return FlushFailed, written;
        }
        var n := if polls[used].n <= |w.buf| - w.offset then polls[used].n else |w.buf| - w.offset;
        AdvanceKeepsBytes(written, w, n, writeQueue);
        written := written + w.buf[w.offset..w.offset + n];
        writing := Advance(w, n);
        used := used + 1;
      }
    }

    /** Decodes the next frame, reading only when no complete frame is buffered. The size
        check of the program cannot fire, so the buffer stays bounded. */
    method PollReadOnce(polls: seq<ReadPoll>) returns (r: ReadResult, ghost got: Bytes)
      requires Valid()
      modifies this`readBuf
      ensures Valid()
      ensures if substream then ReadStep(old(readBuf), got, r, readBuf)
              else r.NoFrame? && got == [] && readBuf == old(readBuf)
      ensures got <= Received(polls)
      ensures r.Broken? ==> (exists p :: p in polls && p.ReadFailed?)
                            || (Decode(readBuf).Malformed? && Decode(readBuf) != Malformed(Truncated))
      ensures r.NotReady? ==> got == Received(polls)
      ensures r.NoFrame? && substream ==> Got([]) in polls
      ensures substream && Decode(old(readBuf)).Decoded? ==> r == Emitted(Decode(old(readBuf)).frame)
    {
      got := [];
      if !substream {
        return NoFrame, [];
      }
      var used := 0;
      while true
        invariant used <= |polls| && forall i | 0 <= i < used :: polls[i].Got?
        invariant got == Received(polls[..used]) && readBuf == old(readBuf) + got
        invariant |readBuf| < MAX_READ_BUFFER + READ_CHUNK
        invariant used > 0 ==> Decode(old(readBuf)) == Malformed(Truncated)
        decreases |polls| - used
      {
        ReceivedPrefix(polls, used);
        match Decode(readBuf) {
          case Decoded(frame) =>
            Consumes(readBuf);
            readBuf := readBuf[HEADER_LEN + |frame.payload|..];
            return Emitted(frame), got;
          case Malformed(error) =>
            if error != Truncated {
              return Broken, got;
            }
        }
        TruncatedIsShort(readBuf);
        if |readBuf| > MAX_READ_BUFFER {
          assert false;
        }
        if used == |polls| {
          assert polls[..used] == polls;
          return NotReady, got;
        }
        match polls[used] {
          case ReadPending =>
            ReceivedStops(polls, used);
            return NotReady, got;
          case ReadFailed =>
            assert polls[used] in polls;
            return Broken, got;
          case Got(chunk) =>
            if chunk == [] {
              assert polls[used] in polls;
              return NoFrame, got;
            }
            ReceivedStep(polls, used);
            readBuf, got := readBuf + chunk, got + chunk;
            used := used + 1;
        }
      }
    }

    /** Open, with nothing left to announce. */
    predicate Ready()
      reads this
    {
      !closed && !pendingReady && !(initiator && !outboundRequested && !substream)
    }

    /** One poll of the handler: announcements first, then the bytes to write, and only when
        none is left the bytes to read. `read` is the result of the reader, if it was called. */
    method Poll(writePolls: seq<WritePoll>, readPolls: seq<ReadPoll>)
      returns (event: HandlerEvent, written: Bytes, ghost got: Bytes, ghost read: Option<ReadResult>)
      requires Valid()
      modifies this
      ensures Valid()
      // The bytes.
      ensures written + Unsent() == old(Unsent())
      ensures if read.Some? then ReadStep(old(readBuf), got, read.value, readBuf) && got <= Received(readPolls)
              else got == [] && readBuf == old(readBuf)
      // The order of the work: a willing substream takes bytes, and nothing is read before the rest.
      ensures old(Ready() && substream && Unsent() != []) && writePolls != [] && writePolls[0].Wrote? && writePolls[0].n > 0
              ==> written != []
      ensures read.Some? <==> old(Ready() && substream) && Unsent() == []
      ensures read.Some? && Decode(old(readBuf)).Decoded? ==> event == FrameReceived(Decode(old(readBuf)).frame)
      ensures read == Some(NotReady) ==> got == Received(readPolls)
      ensures read == Some(Broken) ==> (exists p :: p in readPolls && p.ReadFailed?)
                                       || (Decode(readBuf).Malformed? && Decode(readBuf) != Malformed(Truncated))
      // The events.
      ensures old(closed) ==> event.Idle? && closed
      ensures event.OutboundSubstreamRequest? <==> old(!closed && initiator && !outboundRequested && !substream)
      ensures event.SubstreamReady? <==> old(pendingReady) && !old(closed)
                                         && !(initiator && !old(outboundRequested) && !old(substream))
      ensures event.FrameReceived? <==> read.Some? && read.value.Emitted?
      ensures event.FrameReceived? ==> event.frame == read.value.frame && !closed
      ensures event.StreamClosed? <==> closed && !old(closed)
      ensures event.StreamClosed? ==> (exists p :: p in writePolls && (p.WriteFailed? || p == Wrote(0))) || read == Some(Broken)
      // The flags.
      ensures outboundRequested == (old(outboundRequested) || event.OutboundSubstreamRequest?)
      ensures pendingReady == (old(pendingReady) && !event.SubstreamReady?)
      ensures substream == (old(substream) && !event.StreamClosed?)
    {
      written, got, read := [], [], None;
      assert written + Unsent() == Unsent();
      if closed {
        return Idle, written, got, read;
      }
      if initiator && !outboundRequested && !substream {
        outboundRequested := true;
        return OutboundSubstreamRequest, written, got, read;
      }
      if pendingReady {
        pendingReady := false;
        return SubstreamReady, written, got, read;
      }
      event, written, got, read := PollStreams(writePolls, readPolls);
    }

    /** A poll past the announcements. */
    method PollStreams(writePolls: seq<WritePoll>, readPolls: seq<ReadPoll>)
      returns (event: HandlerEvent, written: Bytes, ghost got: Bytes, ghost read: Option<ReadResult>)
      requires Valid() && Ready()
      modifies this`writeQueue, this`writing, this`readBuf, this`closed, this`substream
      ensures Valid()
      ensures written + Unsent() == old(Unsent())
      ensures if read.Some? then ReadStep(old(readBuf), got, read.value, readBuf) && got <= Received(readPolls)
              else got == [] && readBuf == old(readBuf)
      ensures old(substream && Unsent() != []) && writePolls != [] && writePolls[0].Wrote? && writePolls[0].n > 0 ==> written != []
      ensures read.Some? <==> old(substream) && Unsent() == []
      ensures read.Some? && Decode(old(readBuf)).Decoded? ==> read.value == Emitted(Decode(old(readBuf)).frame)
      ensures read == Some(NotReady) ==> got == Received(readPolls)
      ensures read == Some(Broken) ==> (exists p :: p in readPolls && p.ReadFailed?)
                                       || (Decode(readBuf).Malformed? && Decode(readBuf) != Malformed(Truncated))
      ensures event == if closed then StreamClosed
                       else if read.Some? && read.value.Emitted? then FrameReceived(read.value.frame) else Idle
      ensures closed && read.None? ==> exists p :: p in writePolls && (p.WriteFailed? || p == Wrote(0))
      ensures read.Some? ==> (closed <==> read.value.Broken?)
      ensures substream == (old(substream) && !closed)
    {
      written, got, read := [], [], None;
      assert written + Unsent() == Unsent();
      if writeQueue != [] || writing.Some? {
        var flushed;
        flushed, written := PollFlushWrites(writePolls);
        if flushed.FlushFailed? {
          closed, substream := true, false;
          return StreamClosed, written, got, read;
        }
        if flushed.FlushPending? {
          return Idle, written, got, read;
        }
      }
      event, got, read := PollRead(readPolls);
    }

    /** The reading half of a poll. */
    method PollRead(polls: seq<ReadPoll>) returns (event: HandlerEvent, ghost got: Bytes, ghost read: Option<ReadResult>)
      requires Valid() && !closed && !pendingReady
      modifies this`readBuf, this`closed, this`substream
      ensures Valid()
      ensures read.Some? <==> old(substream)
      ensures if read.Some? then ReadStep(old(readBuf), got, read.value, readBuf) && got <= Received(polls)
              else got == [] && readBuf == old(readBuf)
      ensures read.Some? && Decode(old(readBuf)).Decoded? ==> read.value == Emitted(Decode(old(readBuf)).frame)
      ensures read == Some(NotReady) ==> got == Received(polls)
      ensures read == Some(Broken) ==> (exists p :: p in polls && p.ReadFailed?)
                                       || (Decode(readBuf).Malformed? && Decode(readBuf) != Malformed(Truncated))
      ensures event == if closed then StreamClosed
                       else if read.Some? && read.value.Emitted? then FrameReceived(read.value.frame) else Idle
      ensures (closed <==> read == Some(Broken)) && substream == (old(substream) && !closed)
    {
      var r;
      r, got := PollReadOnce(polls);
      read := if substream then Some(r) else None;
      if r.Broken? {
        closed, substream := true, false;
        return StreamClosed, got, read;
      }
      event := if r.Emitted? then FrameReceived(r.frame) else Idle;
    }
  }

  lemma {:induction false} ReceivedPrefix(polls: seq<ReadPoll>, k: nat)
    requires k <= |polls| && forall i | 0 <= i < k :: polls[i].Got?
    ensures Received(polls[..k]) <= Received(polls)
  {
    if k > 0 {
      ReceivedPrefix(polls[1..], k - 1);
      assert polls[..k][1..] == polls[1..][..k - 1];
    }
  }

  lemma {:induction false} ReceivedStops(polls: seq<ReadPoll>, k: nat)
    requires k < |polls| && !polls[k].Got? && forall i | 0 <= i < k :: polls[i].Got?
    ensures Received(polls[..k]) == Received(polls)
  {
    if k > 0 {
      ReceivedStops(polls[1..], k - 1);
      assert polls[..k][1..] == polls[1..][..k - 1];
    }
  }

  // ---- One direction of a connection: writer, wire, reader ----

  /** `queued` and `emitted` are all frames ever handed to the writer and ever produced by
      the reader. */
  datatype Link = Link(unsent: Bytes, wire: Bytes, readBuf: Bytes, queued: seq<Frame>, emitted: seq<Frame>)

  const EMPTY_LINK: Link := Link([], [], [], [], [])

  ghost predicate Queues(l: Link, l': Link, frames: seq<Frame>) {
    && l' == l.(unsent := l'.unsent, queued := l.queued + frames)
    && l'.unsent == l.unsent + EncodingAll(frames)
  }

  ghost predicate Writes(l: Link, l': Link, written: Bytes) {
    && l' == l.(unsent := l'.unsent, wire := l.wire + written)
    && written + l'.unsent == l.unsent
  }

  ghost predicate Reads(l: Link, l': Link, got: Bytes, r: ReadResult) {
    && l' == l.(wire := l'.wire, readBuf := l'.readBuf, emitted := l'.emitted)
    && got + l'.wire == l.wire
    && ReadStep(l.readBuf, got, r, l'.readBuf)
    && l'.emitted == (if r.Emitted? then l.emitted + [r.frame] else l.emitted)
  }

  datatype LinkAction = Queue(frames: seq<Frame>) | Write(written: Bytes) | Read(got: Bytes, result: ReadResult)

  /** What SendFrames, PollFlushWrites and PollReadOnce allow; module Wire drives them. */
  ghost predicate LinkStep(l: Link, a: LinkAction, l': Link) {
    match a
    case Queue(frames) => (forall f | f in frames :: WellFormed(f)) && Queues(l, l', frames)
    case Write(written) => Writes(l, l', written)
    case Read(got, r) => Reads(l, l', got, r)
  }

  ghost predicate LinkRun(states: seq<Link>, actions: seq<LinkAction>) {
    && |states| == |actions| + 1
    && states[0] == EMPTY_LINK
    && forall i | 0 <= i < |actions| :: LinkStep(states[i], actions[i], states[i + 1])
  }

  /** Byte conservation: everything queued is emitted, buffered, on the wire or unsent. */
  ghost predicate Conserves(l: Link) {
    && (forall f | f in l.queued :: WellFormed(f))
    && l.emitted <= l.queued
    && EncodingAll(l.queued[|l.emitted|..]) == l.readBuf + l.wire + l.unsent
  }

  /** What the decoder says of a buffer that is cut out of a stream of whole frames. */
  lemma DecodeOfStream(fs: seq<Frame>, buf: Bytes, tail: Bytes)
    requires forall f | f in fs :: WellFormed(f)
    requires EncodingAll(fs) == buf + tail
    ensures Decode(buf) == if fs != [] && |Encoding(fs[0])| <= |buf| then Decoded(fs[0]) else Malformed(Truncated)
  {
    if fs == [] {
      assert buf == [];
    } else {
      var first := Encoding(fs[0]);
      assert fs[0] in fs;
      assert buf + tail == first + EncodingAll(fs[1..]);
      if |first| <= |buf| {
        assert first == (buf + tail)[..|first|] == buf[..|first|];
        DecodeEncoding(fs[0], buf[|first|..]);
        assert buf == first + buf[|first|..];
      } else {
        assert buf == (buf + tail)[..|buf|] == first[..|buf|];
        ProperPrefixTruncated(fs[0], |buf|);
      }
    }
  }

  lemma Regroup(a: Bytes, b: Bytes, c: Bytes, d: Bytes)
    ensures a + (b + c) + d == (a + b) + (c + d)
    ensures a + b + (c + d) == a + (b + c) + d
  {
  }

  lemma TailAppend<T>(s: seq<T>, t: seq<T>, n: nat)
    requires n <= |s|
    ensures (s + t)[n..] == s[n..] + t
  {
  }

  lemma PrefixAppend<T>(p: seq<T>, s: seq<T>, t: seq<T>)
    requires p <= s
    ensures p <= s + t
  {
  }

  lemma QueueConserves(l: Link, l': Link, frames: seq<Frame>)
    requires Conserves(l) && LinkStep(l, Queue(frames), l')
    ensures Conserves(l')
  {
    var rest := l.queued[|l.emitted|..];
    TailAppend(l.queued, frames, |l.emitted|);
    PrefixAppend(l.emitted, l.queued, frames);
    EncodingAllAppend(rest, frames);
    ConcatAssociative(l.readBuf + l.wire, l.unsent, EncodingAll(frames));
  }

  lemma ReadConserves(l: Link, l': Link, got: Bytes, r: ReadResult)
    requires Conserves(l) && LinkStep(l, Read(got, r), l')
    ensures Conserves(l')
  {
    var rest := l.queued[|l.emitted|..];
    var tail := l'.wire + l'.unsent;
    Regroup(l.readBuf, got, l'.wire, l.unsent);
    assert EncodingAll(rest) == (l.readBuf + got) + tail;
    Regroup(l'.readBuf, [], l'.wire, l'.unsent);
    assert l'.readBuf + [] == l'.readBuf && [] + l'.wire == l'.wire;
    if r.Emitted? {
      EmitsNext(rest, l.readBuf + got, tail, r.frame, l'.readBuf);
      assert l'.queued[|l'.emitted|..] == rest[1..];
      assert l'.emitted <= l'.queued;
    }
  }

  lemma LinkStepConserves(l: Link, a: LinkAction, l': Link)
    requires Conserves(l) && LinkStep(l, a, l')
    ensures Conserves(l')
  {
    match a {
      case Queue(frames) => QueueConserves(l, l', frames);
      case Write(written) => Regroup(l.readBuf, l.wire, written, l'.unsent);
                             assert l.readBuf + (l.wire + written) + l'.unsent == l.readBuf + l.wire + l.unsent;
      case Read(got, r) => ReadConserves(l, l', got, r);
    }
  }

  /** The frame the reader emits is the next one of the stream. */
  lemma EmitsNext(rest: seq<Frame>, buf: Bytes, tail: Bytes, f: Frame, buf': Bytes)
    requires forall g | g in rest :: WellFormed(g)
    requires EncodingAll(rest) == buf + tail
    requires WellFormed(f) && buf == Encoding(f) + buf'
    ensures rest != [] && rest[0] == f && EncodingAll(rest[1..]) == buf' + tail
  {
    DecodeOfStream(rest, buf, tail);
    DecodeEncoding(f, buf');
    assert Encoding(f) + EncodingAll(rest[1..]) == Encoding(f) + (buf' + tail);
    SplitAt(Encoding(f), Encoding(f), EncodingAll(rest[1..]), buf' + tail);
  }

  lemma {:induction false} LinkRunConserves(states: seq<Link>, actions: seq<LinkAction>, k: nat)
    requires LinkRun(states, actions) && k < |states|
    ensures Conserves(states[k])
  {
    if k > 0 {
      LinkRunConserves(states, actions, k - 1);
      assert LinkStep(states[k - 1], actions[k - 1], states[k]);
      LinkStepConserves(states[k - 1], actions[k - 1], states[k]);
    }
  }

  /** Whatever part of the wire the reader sees next, it is not malformed. */
  lemma NeverMalformed(l: Link, got: Bytes)
    requires Conserves(l) && got <= l.wire
    ensures Decode(l.readBuf + got).Decoded? || Decode(l.readBuf + got) == Malformed(Truncated)
  {
    var back := l.wire[|got|..];
    assert l.wire == got + back;
    Regroup(l.readBuf, got, back, l.unsent);
    DecodeOfStream(l.queued[|l.emitted|..], l.readBuf + got, back + l.unsent);
  }

  /** With nothing in flight and no whole frame buffered, everything has been emitted. */
  lemma DrainedMeansDelivered(l: Link)
    requires Conserves(l) && l.unsent == [] && l.wire == [] && Decode(l.readBuf) == Malformed(Truncated)
    ensures l.emitted == l.queued && l.readBuf == []
  {
    var rest := l.queued[|l.emitted|..];
    assert l.readBuf + [] + [] == l.readBuf + [];
    DecodeOfStream(rest, l.readBuf, []);
  }

  /** Main result for one direction: for every pattern of partial writes and every chunking
      of the bytes, the reader emits exactly the queued frames in order. It never meets a
      malformed frame, and once nothing is in flight it has emitted all of them. */
  lemma ReaderEmitsQueuedFrames(states: seq<Link>, actions: seq<LinkAction>)
    requires LinkRun(states, actions)
    ensures var l := states[|actions|];
            && l.emitted <= l.queued
            && EncodingAll(l.queued) == EncodingAll(l.emitted) + (l.readBuf + l.wire + l.unsent)
            && (forall got | got <= l.wire :: Decode(l.readBuf + got).Decoded? || Decode(l.readBuf + got) == Malformed(Truncated))
            && (l.unsent == [] && l.wire == [] && Decode(l.readBuf) == Malformed(Truncated)
                ==> l.emitted == l.queued && l.readBuf == [])
  {
    LinkRunConserves(states, actions, |actions|);
    var l := states[|actions|];
    EncodingAllAppend(l.emitted, l.queued[|l.emitted|..]);
    assert l.queued == l.emitted + l.queued[|l.emitted|..];
    forall got | got <= l.wire
      ensures Decode(l.readBuf + got).Decoded? || Decode(l.readBuf + got) == Malformed(Truncated)
    {
      NeverMalformed(l, got);
    }
    if l.unsent == [] && l.wire == [] && Decode(l.readBuf) == Malformed(Truncated) {
      DrainedMeansDelivered(l);
    }
  }
}
