/** One direction of a connection as two handlers and the bytes between them: the calls made on
    the handlers form a run of the link, so what module Stream proves of links holds of them. */
module Wire {
  import opened ByteStrings
  import opened Framing
  import opened Stream

  class Connection {
    const writer: SessionHandler
    const reader: SessionHandler
    /** Bytes taken by the writer's substream and not yet read from the reader's. */
    ghost var wire: Bytes
    ghost var queued: seq<Frame>
    ghost var emitted: seq<Frame>
    /** Every state of the link so far, and what led from each to the next. */
    ghost var states: seq<Link>
    ghost var actions: seq<LinkAction>

    ghost predicate Connected()
      reads this, writer, reader
    {
      writer != reader && writer.Valid() && reader.Valid()
    }

    ghost function View(): Link
      requires Connected()
      reads this, writer, reader
    {
      Link(writer.Unsent(), wire, reader.readBuf, queued, emitted)
    }

    ghost predicate Valid()
      reads this, writer, reader
    {
      Connected() && LinkRun(states, actions) && states[|actions|] == View()
    }

    constructor ()
      ensures Valid() && fresh(writer) && fresh(reader) && View() == EMPTY_LINK
    {
      writer := new SessionHandler(true);
      reader := new SessionHandler(false);
      wire, queued, emitted := [], [], [];
      states, actions := [EMPTY_LINK], [];
    }

    method Send(frames: seq<Frame>)
      requires Valid() && forall f | f in frames :: WellFormed(f)
      modifies this, writer`writeQueue
      ensures Valid() && LinkStep(old(View()), Queue(frames), View())
    {
      writer.SendFrames(frames);
      queued := queued + frames;
      Record(Queue(frames));
    }

    /** A poll of the writer, however its substream takes the bytes. It makes progress when the
        handler is ready and the substream takes any. */
    method PollWriter(writePolls: seq<WritePoll>, readPolls: seq<ReadPoll>) returns (event: HandlerEvent, written: Bytes)
      requires Valid()
      modifies this, writer
      ensures Valid() && LinkStep(old(View()), Write(written), View())
      ensures old(writer.Ready() && writer.substream && View().unsent != []) && writePolls != [] && writePolls[0].Wrote? && writePolls[0].n > 0
              ==> written != []
    {
      ghost var got, read;
      event, written, got, read := writer.Poll(writePolls, readPolls);
      wire := wire + written;
      Record(Write(written));
    }

    /** A poll of the reader, however the bytes on the wire are cut into chunks. It reads only
        when it has nothing left to write, hands out a frame that is complete first, takes all
        the bytes it is given otherwise, and is closed only by its substream. */
    method PollReader(writePolls: seq<WritePoll>, readPolls: seq<ReadPoll>)
      returns (event: HandlerEvent, ghost got: Bytes, ghost read: Option<ReadResult>)
      requires Valid() && Received(readPolls) <= wire
      modifies this, reader
      ensures Valid()
      ensures if read.Some? then LinkStep(old(View()), Read(got, read.value), View()) else View() == old(View())
      ensures read.Some? <==> old(reader.Ready() && reader.substream) && reader.Unsent() == []
      ensures emitted == old(emitted) + if event.FrameReceived? then [event.frame] else []
      ensures read.Some? && Decode(old(reader.readBuf)).Decoded? ==> event == FrameReceived(Decode(old(reader.readBuf)).frame)
      ensures read == Some(NotReady) ==> got == Received(readPolls)
      ensures event.StreamClosed? ==> || (exists p :: p in writePolls && (p.WriteFailed? || p == Wrote(0)))
                                      || (exists p :: p in readPolls && p.ReadFailed?)
    {
      ghost var before := View();
      LinkRunConserves(states, actions, |actions|);
      var written;
      event, written, got, read := reader.Poll(writePolls, readPolls);
      if read.Some? {
        NeverMalformed(before, got);
        ReadIsStep(before, got, read.value, reader.readBuf);
        wire := wire[|got|..];
        emitted := emitted + if read.value.Emitted? then [read.value.frame] else [];
        Record(Read(got, read.value));
      }
    }

    ghost method Record(a: LinkAction)
      requires Connected() && LinkRun(states, actions) && LinkStep(states[|actions|], a, View())
      modifies this`states, this`actions
      ensures Valid()
    {
      RunSnoc(states, actions, a, View());
      states, actions := states + [View()], actions + [a];
    }
  }

  /** One call of the reader, on the link. */
  lemma ReadIsStep(l: Link, got: Bytes, r: ReadResult, readBuf: Bytes)
    requires ReadStep(l.readBuf, got, r, readBuf) && got <= l.wire
    ensures LinkStep(l, Read(got, r), Link(l.unsent, l.wire[|got|..], readBuf, l.queued, l.emitted + if r.Emitted? then [r.frame] else []))
  {
  }

  lemma RunSnoc(states: seq<Link>, actions: seq<LinkAction>, a: LinkAction, l: Link)
    requires LinkRun(states, actions) && LinkStep(states[|actions|], a, l)
    ensures LinkRun(states + [l], actions + [a])
  {
    forall i | 0 <= i < |actions + [a]|
      ensures LinkStep((states + [l])[i], (actions + [a])[i], (states + [l])[i + 1])
    {
      if i < |actions| {
        assert LinkStep(states[i], actions[i], states[i + 1]);
      }
    }
  }

  /** Whatever calls were made on the two handlers: the frames received are a prefix of those
      sent, and all of them once nothing is unsent or on the wire and the reader waits. */
  lemma ConnectionDelivers(c: Connection)
    requires c.Valid()
    ensures c.emitted <= c.queued
    ensures c.writer.Unsent() == [] && c.wire == [] && Decode(c.reader.readBuf) == Malformed(Truncated) ==> c.emitted == c.queued
  {
    ReaderEmitsQueuedFrames(c.states, c.actions);
  }
}
