/**
  What the capture limit does, also for streams that do not fit it: the buffer never holds more, and a
  block that grows beyond the limit is discarded as if the stream started anew behind it.
 */
module EventCaptureOverflow {
  import opened EventCapture
  import opened EventCaptureProof
  import opened Text

  // ---------------------------------------------------------------- the buffer is bounded

  /** Between reads: a block that is open fits the limit, and else only as much is kept as a BEGIN is long. */
  predicate WithinLimit(m: Markers, buf: Buffer, max: int) {
    if buf.begin != -1 then |buf.text| <= max && Index(buf.text, m.end) == -1 else |buf.text| <= |m.begin|
  }

  lemma {:induction false} DrainWithinLimit(m: Markers, buf: Buffer, max: int)
    requires WellPlaced(m, buf) && !Drain(m, buf, max).panicked
    ensures WithinLimit(m, Drain(m, buf, max).buffer, max)
    decreases |buf.text|
  {
    if Captured(m, buf).Event? {
      DrainWithinLimit(m, AfterCapture(m, buf, max), max);
    }
  }

  /** Whatever was in the buffer, a read that does not panic leaves it within the limit. */
  lemma ReceiveWithinLimit(m: Markers, buf: Buffer, chunk: string, max: int)
    requires WellPlaced(m, buf) && !Receive(m, buf, chunk, max).panicked
    ensures WithinLimit(m, Receive(m, buf, chunk, max).buffer, max)
  {
    if buf.begin != -1 {
      AtPrefix(buf.text, chunk, m.begin, buf.begin);
    }
    DrainWithinLimit(m, Buffer(buf.text + chunk, buf.begin), max);
  }

  lemma {:induction false} FeedWithinLimit(m: Markers, buf: Buffer, chunks: seq<string>, max: int)
    requires WellPlaced(m, buf) && WithinLimit(m, buf, max) && !FeedAll(m, buf, chunks, max).panicked
    ensures WithinLimit(m, FeedAll(m, buf, chunks, max).buffer, max)
    decreases |chunks|
  {
    if chunks != [] {
      ReceiveWithinLimit(m, buf, chunks[0], max);
      FeedWithinLimit(m, Receive(m, buf, chunks[0], max).buffer, chunks[1..], max);
    }
  }

  /** On any stream in any chunks, the buffer holds at most the limit or a BEGIN between reads, and no END behind an open BEGIN. */
  lemma BufferBounded(m: Markers, chunks: seq<string>, max: int)
    requires !FeedAll(m, START, chunks, max).panicked
    ensures WithinLimit(m, FeedAll(m, START, chunks, max).buffer, max)
  {
    FeedWithinLimit(m, START, chunks, max);
  }

  // ---------------------------------------------------------------- a block that overflows

  /** A read that finds a block open beyond the limit empties the buffer and emits nothing. */
  lemma OverflowDiscards(m: Markers, buf: Buffer, chunk: string, text: string, max: int)
    requires WellPlaced(m, buf) && text == buf.text + chunk && |text| > max
    requires buf.begin != -1 || Index(text, m.begin) != -1
    requires Index(text, m.end) == -1
    ensures Receive(m, buf, chunk, max) == Capture(START, [], false)
  {
    if buf.begin != -1 {
      AtPrefix(buf.text, chunk, m.begin, buf.begin);
    }
  }

  /** Nothing is left of what was read before: the rest is captured like a stream of its own. */
  lemma StartsAnew(m: Markers, buf: Buffer, chunk: string, more: seq<string>, max: int)
    requires WellPlaced(m, buf) && Receive(m, buf, chunk, max) == Capture(START, [], false)
    ensures FeedAll(m, buf, [chunk] + more, max) == FeedAll(m, START, more, max)
  {
    assert ([chunk] + more)[1..] == more;
    assert [] + FeedAll(m, START, more, max).events == FeedAll(m, START, more, max).events;
  }

  lemma {:induction false} FeedInTurn(m: Markers, buf: Buffer, p: seq<string>, q: seq<string>, max: int)
    requires WellPlaced(m, buf) && !FeedAll(m, buf, p, max).panicked
    ensures var f := FeedAll(m, buf, p, max);
            var g := FeedAll(m, f.buffer, q, max);
            FeedAll(m, buf, p + q, max) == Capture(g.buffer, f.events + g.events, g.panicked)
    decreases |p|
  {
    if p == [] {
      assert p + q == q;
      assert [] + FeedAll(m, buf, q, max).events == FeedAll(m, buf, q, max).events;
    } else {
      var r := Receive(m, buf, p[0], max);
      assert (p + q)[1..] == p[1..] + q;
      FeedInTurn(m, r.buffer, p[1..], q, max);
      var f := FeedAll(m, r.buffer, p[1..], max);
      EventsJoined(r.events, f.events, FeedAll(m, f.buffer, q, max).events);
    }
  }

  lemma EventsJoined(a: seq<string>, b: seq<string>, c: seq<string>)
    ensures a + (b + c) == (a + b) + c
  {
  }

  /** Where a clean stream so far ends in a block that has outgrown the limit, the read discards it. */
  lemma OutgrownBlock(m: Markers, buf: Buffer, r: string, chunk: string, max: int)
    requires Tracks(m, buf, r) && |chunk| <= READ_SIZE && Clean(m, r + chunk)
    requires Index(r + chunk, m.begin) != -1 && BlockEnd(m, r + chunk) == -1 && BlockLength(m, r + chunk) > max
    ensures Receive(m, buf, chunk, max) == Capture(START, [], false)
  {
    var off := ReceiveDrains(m, buf, r, chunk);
    OutgrownDrain(m, Buffer(buf.text + chunk, buf.begin), r + chunk, off, max);
  }

  lemma OutgrownDrain(m: Markers, buf: Buffer, r: string, off: int, max: int)
    requires Draining(m, buf, r, off) && Clean(m, r)
    requires Index(r, m.begin) != -1 && BlockEnd(m, r) == -1 && BlockLength(m, r) > max
    ensures Drain(m, buf, max) == Capture(START, [], false)
  {
    FindBeginTracks(m, buf, r, off);
    FindEndTracks(m, buf, r, off);
  }

  /**
    A clean stream of which a block grows beyond the limit, though all in front of it fits, and that goes
    on with any clean stream that fits: the complete blocks of both are emitted, and of the block in
    between nothing.
   */
  lemma OverlongBlockIsLost(m: Markers, p: seq<string>, chunk: string, q: seq<string>, max: int)
    requires Readable(p) && |chunk| <= READ_SIZE && Readable(q)
    requires Clean(m, Flatten(p)) && Fits(m, Flatten(p), max) && Clean(m, Flatten(q)) && Fits(m, Flatten(q), max)
    requires var r := Rest(m, Flatten(p)) + chunk;
             Clean(m, r) && Index(r, m.begin) != -1 && BlockEnd(m, r) == -1 && BlockLength(m, r) > max
    ensures var f := FeedAll(m, START, p + ([chunk] + q), max);
            !f.panicked && f.events == Blocks(m, Flatten(p)) + Blocks(m, Flatten(q))
  {
    FromStart(m, p, max);
    FromStart(m, q, max);
    var buf := FeedAll(m, START, p, max).buffer;
    OutgrownBlock(m, buf, Rest(m, Flatten(p)), chunk, max);
    StartsAnew(m, buf, chunk, q, max);
    FeedInTurn(m, START, p, [chunk] + q, max);
  }

  lemma FromStart(m: Markers, chunks: seq<string>, max: int)
    requires Readable(chunks) && Clean(m, Flatten(chunks)) && Fits(m, Flatten(chunks), max)
    ensures var f := FeedAll(m, START, chunks, max);
            !f.panicked && f.events == Blocks(m, Flatten(chunks)) && Tracks(m, f.buffer, Rest(m, Flatten(chunks)))
  {
    assert "" + Flatten(chunks) == Flatten(chunks);
    CleanStream(m, START, "", chunks, max);
  }
}
