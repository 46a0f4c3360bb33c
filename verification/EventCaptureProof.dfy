/**
  The capture emits exactly the data blocks of the stream under every chunking, if and only if no
  stray END marker lies just in front of a BEGIN marker; otherwise some chunking makes it panic.
 */
module EventCaptureProof {
  import opened Text
  import opened EventCapture

  function Flatten(chunks: seq<string>): string {
    if chunks == [] then "" else chunks[0] + Flatten(chunks[1..])
  }

  /** Every chunk fits the read buffer. */
  predicate Readable(chunks: seq<string>) {
    forall i :: 0 <= i < |chunks| ==> |chunks[i]| <= READ_SIZE
  }

  const START := Buffer("", -1)

  // ---------------------------------------------------------------- markers

  lemma InsideMarker(m: Markers, s: string, pat: string, i: int, j: int)
    requires (pat == m.begin || pat == m.end) && At(s, pat, i) && i < j < i + |pat|
    ensures s[j] != m.begin[0]
  {
    assert s[i + (j - i)] == pat[j - i];
  }

  lemma MarkersDoNotOverlap(m: Markers, s: string, b: int, i: int)
    requires At(s, m.begin, b) && At(s, m.end, i) && i < b + |m.begin|
    ensures i + |m.end| <= b
  {
    var k :| 0 <= k < |m.begin| && k < |m.end| && m.begin[k] != m.end[k];
    assert s[i + 0] == m.end[0] && s[b + 0] == m.begin[0];
    assert s[b + k] == m.begin[k] && s[i + k] == m.end[k];
    if b < i {
      InsideMarker(m, s, m.begin, b, i);
    } else if b < i + |m.end| {
      InsideMarker(m, s, m.end, i, b);
    }
  }

  // ---------------------------------------------------------------- growing streams

  /** A found first occurrence stays the first when bytes are appended. */
  lemma IndexGrows(s: string, t: string, pat: string, from: nat)
    requires IndexFrom(s, pat, from) != -1
    ensures IndexFrom(s + t, pat, from) == IndexFrom(s, pat, from)
  {
    var k := IndexFrom(s, pat, from);
    AtPrefix(s, t, pat, k);
    var m := IndexFrom(s + t, pat, from);
    AtPrefix(s, t, pat, m);
  }

  /** The first block of s, when it is complete, is also the first block of s + t. */
  lemma BlockEndGrows(m: Markers, s: string, t: string)
    requires BlockEnd(m, s) != -1
    ensures Index(s + t, m.begin) == Index(s, m.begin) && BlockEnd(m, s + t) == BlockEnd(m, s)
  {
    IndexGrows(s, t, m.begin, 0);
    IndexGrows(s, t, m.end, Index(s, m.begin) + |m.begin|);
  }

  lemma FirstDataGrows(m: Markers, s: string, t: string)
    requires BlockEnd(m, s) != -1
    ensures BlockEnd(m, s + t) != -1 && FirstData(m, s + t) == FirstData(m, s)
  {
    BlockEndGrows(m, s, t);
  }

  lemma TailGrows(m: Markers, s: string, t: string)
    requires BlockEnd(m, s) != -1
    ensures BlockEnd(m, s + t) != -1 && Tail(m, s + t) == Tail(m, s) + t
  {
    BlockEndGrows(m, s, t);
  }

  lemma StrayGrows(m: Markers, s: string, t: string)
    requires Index(s, m.begin) != -1
    ensures StrayEnd(m, s) <==> StrayEnd(m, s + t)
  {
    var b := Index(s, m.begin);
    IndexGrows(s, t, m.begin, 0);
    if StrayEnd(m, s) {
      var i :| 0 <= i < b && b - READ_SIZE <= i && At(s, m.end, i);
      AtPrefix(s, t, m.end, i);
    }
    if StrayEnd(m, s + t) {
      var i :| 0 <= i < b && b - READ_SIZE <= i && At(s + t, m.end, i);
      MarkersDoNotOverlap(m, s + t, b, i);
      AtPrefix(s, t, m.end, i);
    }
  }

  /** Blocks already complete are final: reading on only adds blocks of what follows them. */
  lemma {:induction false} BlocksGrow(m: Markers, s: string, t: string)
    ensures Blocks(m, s + t) == Blocks(m, s) + Blocks(m, Rest(m, s) + t)
    decreases |s|
  {
    if BlockEnd(m, s) != -1 {
      FirstDataGrows(m, s, t);
      TailGrows(m, s, t);
      BlocksGrow(m, Tail(m, s), t);
    }
  }

  lemma {:induction false} RestGrows(m: Markers, s: string, t: string)
    ensures Rest(m, s + t) == Rest(m, Rest(m, s) + t)
    decreases |s|
  {
    if BlockEnd(m, s) != -1 {
      TailGrows(m, s, t);
      RestGrows(m, Tail(m, s), t);
    }
  }

  lemma {:induction false} CleanGrows(m: Markers, s: string, t: string)
    requires Clean(m, s + t)
    ensures Clean(m, s) && Clean(m, Rest(m, s) + t)
    decreases |s|
  {
    if Index(s, m.begin) != -1 {
      StrayGrows(m, s, t);
    }
    if BlockEnd(m, s) != -1 {
      TailGrows(m, s, t);
      CleanGrows(m, Tail(m, s), t);
    }
  }

  lemma {:induction false} RestHasNoBlock(m: Markers, s: string)
    ensures BlockEnd(m, Rest(m, s)) == -1 && |Rest(m, s)| <= |s|
    decreases |s|
  {
    if BlockEnd(m, s) != -1 {
      RestHasNoBlock(m, Tail(m, s));
    }
  }

  // ---------------------------------------------------------------- one drain

  /** Between reads: r is what the stream still holds after its last complete block. */
  ghost predicate Tracks(m: Markers, buf: Buffer, r: string) {
    && WellPlaced(m, buf)
    && BlockEnd(m, r) == -1
    && if buf.begin == -1 then
         Index(r, m.begin) == -1 && buf.text == LastBytes(r, |m.begin|)
       else
         Index(buf.text, m.end) == -1 && buf.begin <= READ_SIZE && exists off :: HoldsSuffix(m, buf, r, off)
  }

  /** The buffer holds r from off on, and knows where its first BEGIN is. */
  predicate HoldsSuffix(m: Markers, buf: Buffer, r: string, off: int) {
    0 <= off <= |r| && buf.text == r[off..] && buf.begin + off == Index(r, m.begin) && buf.begin >= 0
  }

  /** During a drain: the buffer holds r from off on, and what precedes off is junk. */
  ghost predicate Draining(m: Markers, buf: Buffer, r: string, off: int) {
    && WellPlaced(m, buf) && 0 <= off <= |r| && buf.text == r[off..]
    && if buf.begin == -1 then
         && (Index(r, m.begin) == -1 || off <= Index(r, m.begin))
         && |buf.text| <= READ_SIZE + |m.begin|
         && (off == 0 || |buf.text| >= |m.begin|)
       else
         && HoldsSuffix(m, buf, r, off) && buf.begin <= READ_SIZE
         && (forall i :: At(buf.text, m.end, i) ==> buf.begin < i && |buf.text| - (i + |m.end|) <= READ_SIZE)
  }

  /**
    The capture limit leaves room for every block: for a read and the block with its markers, an
    unfinished one counting as far as it goes, or for all the rest of the stream.
   */
  predicate Fits(m: Markers, s: string, max: int)
    decreases |s|
  {
    || |s| <= max
    || Index(s, m.begin) == -1
    || (READ_SIZE + BlockLength(m, s) <= max && (BlockEnd(m, s) == -1 || Fits(m, Tail(m, s), max)))
  }

  /** The length of the first block, its markers included. */
  function BlockLength(m: Markers, s: string): (n: int)
    requires Index(s, m.begin) != -1
  {
    (if BlockEnd(m, s) == -1 then |s| else BlockEnd(m, s) + |m.end|) - Index(s, m.begin)
  }

  lemma BlockLengthGrows(m: Markers, s: string, t: string)
    requires Index(s, m.begin) != -1
    ensures Index(s + t, m.begin) == Index(s, m.begin) && BlockLength(m, s) <= BlockLength(m, s + t)
  {
    IndexGrows(s, t, m.begin, 0);
    if BlockEnd(m, s) != -1 {
      BlockEndGrows(m, s, t);
    } else if BlockEnd(m, s + t) != -1 {
      var e := BlockEnd(m, s + t);
      if e + |m.end| <= |s| {
        AtPrefix(s, t, m.end, e);
      }
    }
  }

  /** What fits as a whole fits as far as it has been read. */
  lemma {:induction false} FitsSoFar(m: Markers, s: string, t: string, max: int)
    requires Fits(m, s + t, max)
    ensures Fits(m, s, max)
    decreases |s|
  {
    if |s + t| > max && Index(s, m.begin) != -1 {
      BlockLengthGrows(m, s, t);
      if BlockEnd(m, s) != -1 {
        BlockEndGrows(m, s, t);
        TailGrows(m, s, t);
        FitsSoFar(m, Tail(m, s), t, max);
      }
    }
  }

  /** So does what is left behind the blocks read. */
  lemma {:induction false} FitsFromRest(m: Markers, s: string, t: string, max: int)
    requires Fits(m, s + t, max)
    ensures Fits(m, Rest(m, s) + t, max)
    decreases |s|
  {
    if BlockEnd(m, s) != -1 {
      BlockEndGrows(m, s, t);
      TailGrows(m, s, t);
      FitsFromRest(m, Tail(m, s), t, max);
    }
  }

  /** The buffer that holds an unfinished block of such a stream does not overflow. */
  lemma HoldsWithoutOverflow(m: Markers, buf: Buffer, r: string, off: int, max: int)
    requires Draining(m, buf, r, off) && Fits(m, r, max) && Index(r, m.begin) != -1 && BlockEnd(m, r) == -1
    ensures |buf.text| <= max
  {
    assert |buf.text| == |r| - off;
  }

  /** findBeginStr finds the first BEGIN of r, or leaves the last bytes of r. */
  lemma FindBeginTracks(m: Markers, buf: Buffer, r: string, off: int)
    requires Draining(m, buf, r, off)
    ensures var f := FindBegin(m, buf);
            if Index(r, m.begin) == -1 then f == Buffer(LastBytes(r, |m.begin|), -1)
            else HoldsSuffix(m, f, r, off) && f.text == buf.text
  {
    if buf.begin == -1 {
      forall i | 0 <= i < off
        ensures !At(r, m.begin, i)
      {
      }
      IndexOfSuffix(r, m.begin, off, off);
      assert IndexFrom(r, m.begin, off) == Index(r, m.begin);
    }
  }

  /** In a clean stream no END lies between off and the data of the first block. */
  lemma NoStray(m: Markers, buf: Buffer, r: string, off: int, i: int)
    requires Draining(m, buf, r, off) && Clean(m, r) && Index(r, m.begin) != -1
    requires off <= i < Index(r, m.begin) + |m.begin|
    ensures !At(r, m.end, i)
  {
    var b := Index(r, m.begin);
    if At(r, m.end, i) {
      MarkersDoNotOverlap(m, r, b, i);
    }
  }

  /** In a clean stream the END that findEndStr sees is the one that closes the block. */
  lemma FindEndTracks(m: Markers, buf: Buffer, r: string, off: int)
    requires Draining(m, buf, r, off) && Clean(m, r) && Index(r, m.begin) != -1
    ensures Index(buf.text, m.end) == if BlockEnd(m, r) == -1 then -1 else BlockEnd(m, r) - off
  {
    var from := Index(r, m.begin) + |m.begin|;
    forall i | off <= i < from
      ensures !At(r, m.end, i)
    {
      NoStray(m, buf, r, off, i);
    }
    IndexOfSuffix(r, m.end, off, from);
  }

  /** Draining a clean stream emits its complete blocks and keeps the rest. */
  lemma {:induction false} DrainTracks(m: Markers, buf: Buffer, r: string, off: int, max: int)
    requires Draining(m, buf, r, off) && Clean(m, r) && Fits(m, r, max)
    ensures var d := Drain(m, buf, max);
            !d.panicked && d.events == Blocks(m, r) && Tracks(m, d.buffer, Rest(m, r))
    decreases |buf.text|
  {
    FindBeginTracks(m, buf, r, off);
    if Index(r, m.begin) != -1 {
      FindEndTracks(m, buf, r, off);
      if BlockEnd(m, r) == -1 {
        HoldsWithoutOverflow(m, buf, r, off, max);
        assert HoldsSuffix(m, FindBegin(m, buf), r, off);
      } else {
        CaptureTracks(m, buf, r, off, max);
        TailIsShort(m, buf, r, off);
        DrainTracks(m, AfterCapture(m, buf, max), Tail(m, r), 0, max);
      }
    }
  }

  /** Where captureEvent finds the markers of the first block of the stream. */
  lemma MarkersFound(m: Markers, buf: Buffer, r: string, off: int)
    requires Draining(m, buf, r, off) && Clean(m, r) && BlockEnd(m, r) != -1
    ensures var f := FindBegin(m, buf);
            && f.text == r[off..] && f.begin == Index(r, m.begin) - off && f.begin >= 0
            && Index(f.text, m.end) == BlockEnd(m, r) - off && BlockEnd(m, r) - off >= f.begin + |m.begin|
  {
    FindBeginTracks(m, buf, r, off);
    FindEndTracks(m, buf, r, off);
  }

  /** captureEvent takes what is between the markers it has found. */
  lemma CapturedAt(m: Markers, buf: Buffer, begin: int, end: int)
    requires WellPlaced(m, buf) && begin == FindBegin(m, buf).begin && end == Index(FindBegin(m, buf).text, m.end)
    requires begin >= 0 && end >= begin + |m.begin|
    ensures end <= |FindBegin(m, buf).text| && Captured(m, buf) == Event(FindBegin(m, buf).text[begin + |m.begin|..end])
  {
  }

  lemma CapturedFirst(m: Markers, buf: Buffer, r: string, off: int)
    requires Draining(m, buf, r, off) && Clean(m, r) && BlockEnd(m, r) != -1
    ensures Captured(m, buf) == Event(FirstData(m, r))
  {
    var begin, end := Index(r, m.begin), BlockEnd(m, r);
    MarkersFound(m, buf, r, off);
    CapturedAt(m, buf, begin - off, end - off);
    SliceOfSuffix(r, off, begin + |m.begin|, end);
  }

  /** One captureEvent takes the first block off the stream. */
  lemma CaptureTracks(m: Markers, buf: Buffer, r: string, off: int, max: int)
    requires Draining(m, buf, r, off) && Clean(m, r) && BlockEnd(m, r) != -1
    ensures Captured(m, buf) == Event(FirstData(m, r))
    ensures AfterCapture(m, buf, max) == Buffer(Tail(m, r), -1)
  {
    CapturedFirst(m, buf, r, off);
    AfterEvent(m, buf, max);
    MarkersFound(m, buf, r, off);
    SliceOfSuffix(r, off, BlockEnd(m, r) + |m.end|, |r|);
  }

  lemma AfterEvent(m: Markers, buf: Buffer, max: int)
    requires WellPlaced(m, buf) && Captured(m, buf).Event?
    ensures var f := FindBegin(m, buf);
            && 0 <= Index(f.text, m.end) <= |f.text| - |m.end|
            && AfterCapture(m, buf, max) == Buffer(f.text[Index(f.text, m.end) + |m.end|..], -1)
  {
  }

  lemma SliceOfSuffix(r: string, off: int, lo: int, hi: int)
    requires 0 <= off <= lo <= hi <= |r|
    ensures r[off..][lo - off..hi - off] == r[lo..hi]
    ensures r[off..][lo - off..] == r[lo..]
  {
  }

  /** What remains after a block fits a read and what was kept before it. */
  lemma TailIsShort(m: Markers, buf: Buffer, r: string, off: int)
    requires Draining(m, buf, r, off) && Clean(m, r) && BlockEnd(m, r) != -1
    ensures Draining(m, Buffer(Tail(m, r), -1), Tail(m, r), 0)
  {
    FindEndTracks(m, buf, r, off);
    assert Tail(m, r)[0..] == Tail(m, r);
  }

  /** An END that a read completes lies behind the BEGIN, and not far from the end of the buffer. */
  lemma EndIsNear(m: Markers, kept: string, begin: int, chunk: string, text: string, i: int)
    requires text == kept + chunk && |chunk| <= READ_SIZE && Index(kept, m.end) == -1 && At(kept, m.begin, begin) && At(text, m.end, i)
    ensures begin < i && |text| - (i + |m.end|) <= READ_SIZE
  {
    if i + |m.end| <= |kept| {
      AtPrefix(kept, chunk, m.end, i);
    } else if i < begin + |m.begin| {
      AtPrefix(kept, chunk, m.begin, begin);
      MarkersDoNotOverlap(m, text, begin, i);
    }
  }

  /** A read leaves the buffer ready to be drained. */
  lemma ReceiveDrains(m: Markers, buf: Buffer, r: string, chunk: string) returns (off: int)
    requires Tracks(m, buf, r) && |chunk| <= READ_SIZE
    ensures Draining(m, Buffer(buf.text + chunk, buf.begin), r + chunk, off)
  {
    var text := buf.text + chunk;
    if buf.begin == -1 {
      off := |r| - |buf.text|;
      assert text == (r + chunk)[off..];
      var b := Index(r + chunk, m.begin);
      if b != -1 && b < off {
        AtPrefix(r, chunk, m.begin, b);
      }
    } else {
      off :| HoldsSuffix(m, buf, r, off);
      assert text == (r + chunk)[off..];
      AtPrefix(buf.text, chunk, m.begin, buf.begin);
      IndexGrows(r, chunk, m.begin, 0);
      forall i | At(text, m.end, i)
        ensures buf.begin < i && |text| - (i + |m.end|) <= READ_SIZE
      {
        EndIsNear(m, buf.text, buf.begin, chunk, text, i);
      }
    }
  }

  // ---------------------------------------------------------------- every chunking of a clean stream

  lemma {:induction false} CleanStream(m: Markers, buf: Buffer, r: string, chunks: seq<string>, max: int)
    requires Tracks(m, buf, r) && Readable(chunks)
    requires Clean(m, r + Flatten(chunks)) && Fits(m, r + Flatten(chunks), max)
    ensures var f := FeedAll(m, buf, chunks, max);
            !f.panicked && f.events == Blocks(m, r + Flatten(chunks)) && Tracks(m, f.buffer, Rest(m, r + Flatten(chunks)))
    decreases |chunks|
  {
    if chunks == [] {
      assert r + Flatten(chunks) == r;
    } else {
      var c, more := chunks[0], Flatten(chunks[1..]);
      assert r + Flatten(chunks) == (r + c) + more;
      BlocksGrow(m, r + c, more);
      RestGrows(m, r + c, more);
      CleanGrows(m, r + c, more);
      RestHasNoBlock(m, r + c);
      FitsSoFar(m, r + c, more, max);
      FitsFromRest(m, r + c, more, max);
      var off := ReceiveDrains(m, buf, r, c);
      DrainTracks(m, Buffer(buf.text + c, buf.begin), r + c, off, max);
      CleanStream(m, Receive(m, buf, c, max).buffer, Rest(m, r + c), chunks[1..], max);
    }
  }

  // ---------------------------------------------------------------- a chunking that breaks an unclean stream

  function Singles(s: string): (chunks: seq<string>)
    ensures Readable(chunks) && Flatten(chunks) == s
  {
    if s == "" then [] else
    var rest := Singles(s[1..]);
    assert ([s[..1]] + rest)[1..] == rest && s[..1] + s[1..] == s;
    [s[..1]] + rest
  }

  lemma {:induction false} FlattenConcat(p: seq<string>, q: seq<string>)
    ensures Flatten(p + q) == Flatten(p) + Flatten(q)
    decreases |p|
  {
    if p == [] {
      assert p + q == q;
    } else {
      assert (p + q)[1..] == p[1..] + q;
      FlattenConcat(p[1..], q);
    }
  }

  lemma {:induction false} FeedConcat(m: Markers, buf: Buffer, p: seq<string>, q: seq<string>, max: int)
    requires WellPlaced(m, buf)
    ensures var f := FeedAll(m, buf, p, max);
            !f.panicked ==> FeedAll(m, buf, p + q, max).panicked == FeedAll(m, f.buffer, q, max).panicked
    ensures FeedAll(m, buf, p, max).panicked ==> FeedAll(m, buf, p + q, max).panicked
    decreases |p|
  {
    if p == [] {
      assert p + q == q;
    } else {
      assert (p + q)[1..] == p[1..] + q;
      FeedConcat(m, Receive(m, buf, p[0], max).buffer, p[1..], q, max);
    }
  }

  /** Byte by byte up to q, then one read up to top, then byte by byte. */
  function OneLongRead(s: string, q: int, top: int): seq<string>
    requires 0 <= q <= top <= |s|
  {
    Singles(s[..q]) + [s[q..top]] + Singles(s[top..])
  }

  lemma LongReadIsReadable(s: string, q: int, top: int)
    requires 0 <= q <= top <= |s| && top - q <= READ_SIZE
    ensures Readable(OneLongRead(s, q, top)) && Flatten(OneLongRead(s, q, top)) == s
  {
    FlattenAround(Singles(s[..q]), s[q..top], Singles(s[top..]));
    assert s[..q] + s[q..top] + s[top..] == s;
  }

  /** Reading up to shortly before a BEGIN and then past it keeps the stray END in the buffer. */
  lemma StrayPanics(m: Markers, s: string, max: int) returns (chunks: seq<string>)
    requires StrayEnd(m, s)
    ensures Readable(chunks) && Flatten(chunks) == s && FeedAll(m, START, chunks, max).panicked
  {
    var top := Index(s, m.begin) + |m.begin|;
    var q := if top > READ_SIZE then top - READ_SIZE else 0;
    LongReadIsReadable(s, q, top);
    LongReadPanics(m, s, q, top, max);
    FeedConcat(m, START, Singles(s[..q]) + [s[q..top]], Singles(s[top..]), max);
    chunks := OneLongRead(s, q, top);
  }

  lemma FlattenAround(p: seq<string>, c: string, q: seq<string>)
    ensures Flatten(p + [c] + q) == Flatten(p) + c + Flatten(q)
  {
    FlattenConcat(p, [c]);
    FlattenConcat(p + [c], q);
    assert Flatten([c]) == c;
  }

  lemma LongReadPanics(m: Markers, s: string, q: int, top: int, max: int)
    requires StrayEnd(m, s) && 0 <= q <= Index(s, m.begin) && top == Index(s, m.begin) + |m.begin|
    requires q == 0 || q == top - READ_SIZE
    ensures FeedAll(m, START, Singles(s[..q]) + [s[q..top]], max).panicked
  {
    var off := JunkIsTrimmed(m, s, q, max);
    Rejoined(s, off, q, top);
    StrayPanicsThen(m, s, off, Singles(s[..q]), s[off..q], s[q..top], s[off..top], max);
  }

  lemma StrayPanicsThen(m: Markers, s: string, off: int, chunks: seq<string>, kept: string, chunk: string, text: string, max: int)
    requires StrayEnd(m, s) && 0 <= off <= Index(s, m.begin) && (off == 0 || off <= Index(s, m.begin) - READ_SIZE)
    requires text == s[off..Index(s, m.begin) + |m.begin|] && text == kept + chunk
    requires FeedAll(m, START, chunks, max).buffer == Buffer(kept, -1) && !FeedAll(m, START, chunks, max).panicked
    ensures FeedAll(m, START, chunks + [chunk], max).panicked
  {
    StrayIsSeen(m, s, off);
    ThenPanics(m, chunks, kept, chunk, text, max);
  }

  lemma PanicsAtOnce(m: Markers, kept: string, chunk: string, text: string, max: int)
    requires text == kept + chunk && Captured(m, Buffer(text, -1)) == Panic
    ensures FeedAll(m, Buffer(kept, -1), [chunk], max).panicked
  {
    assert Drain(m, Buffer(text, -1), max).panicked;
    assert Receive(m, Buffer(kept, -1), chunk, max).panicked;
  }

  lemma ThenPanics(m: Markers, chunks: seq<string>, kept: string, chunk: string, text: string, max: int)
    requires FeedAll(m, START, chunks, max).buffer == Buffer(kept, -1) && !FeedAll(m, START, chunks, max).panicked
    requires text == kept + chunk && Captured(m, Buffer(text, -1)) == Panic
    ensures FeedAll(m, START, chunks + [chunk], max).panicked
  {
    PanicsAtOnce(m, kept, chunk, text, max);
    FeedConcat(m, START, chunks, [chunk], max);
  }

  lemma Rejoined(s: string, a: int, b: int, c: int)
    requires 0 <= a <= b <= c <= |s|
    ensures s[a..b] + s[b..c] == s[a..c]
  {
  }

  lemma NoBeginBefore(m: Markers, s: string, q: int)
    requires 0 <= q <= Index(s, m.begin)
    ensures Index(s[..q], m.begin) == -1
  {
    var junk := s[..q];
    assert junk + s[q..] == s;
    if Index(junk, m.begin) != -1 {
      AtPrefix(junk, s[q..], m.begin, Index(junk, m.begin));
    }
  }

  /** After junk up to q, the buffer holds its last bytes, from off on. */
  lemma JunkIsTrimmed(m: Markers, s: string, q: int, max: int) returns (off: int)
    requires StrayEnd(m, s) && 0 <= q <= Index(s, m.begin)
    ensures var f := FeedAll(m, START, Singles(s[..q]), max);
            !f.panicked && 0 <= off <= q && f.buffer == Buffer(s[off..q], -1)
    ensures off == 0 || off == q - |m.begin|
  {
    NoBeginBefore(m, s, q);
    KeepsLastBytes(m, s[..q], max);
    off := if q > |m.begin| then q - |m.begin| else 0;
    assert LastBytes(s[..q], |m.begin|) == s[off..q];
  }

  lemma KeepsLastBytes(m: Markers, junk: string, max: int)
    requires Index(junk, m.begin) == -1
    ensures !FeedAll(m, START, Singles(junk), max).panicked
    ensures FeedAll(m, START, Singles(junk), max).buffer == Buffer(LastBytes(junk, |m.begin|), -1)
  {
    assert "" + junk == junk;
    CleanStream(m, START, "", Singles(junk), max);
  }

  lemma StrayIsSeen(m: Markers, s: string, off: int)
    requires StrayEnd(m, s)
    requires 0 <= off <= Index(s, m.begin) && (off == 0 || off <= Index(s, m.begin) - READ_SIZE)
    ensures Captured(m, Buffer(s[off..Index(s, m.begin) + |m.begin|], -1)) == Panic
  {
    var b := Index(s, m.begin);
    var top := b + |m.begin|;
    BeginIsSeen(m, s, off);
    var i :| 0 <= i < b && b - READ_SIZE <= i && At(s, m.end, i);
    MarkersDoNotOverlap(m, s, b, i);
    AtSlice(s, off, top, m.end, i);
    assert At(s[off..top], m.end, i - off);
  }

  lemma BeginIsSeen(m: Markers, s: string, off: int)
    requires 0 <= off <= Index(s, m.begin)
    ensures Index(s[off..Index(s, m.begin) + |m.begin|], m.begin) == Index(s, m.begin) - off
  {
    var b := Index(s, m.begin);
    var top := b + |m.begin|;
    AtSlice(s, off, top, m.begin, b);
    var k := Index(s[off..top], m.begin);
    AtSlice(s, off, top, m.begin, off + k);
  }

  lemma {:induction false} UncleanPanics(m: Markers, s: string, max: int) returns (chunks: seq<string>)
    requires !Clean(m, s) && Fits(m, s, max)
    ensures Readable(chunks) && Flatten(chunks) == s && FeedAll(m, START, chunks, max).panicked
    decreases |s|
  {
    if StrayEnd(m, s) {
      chunks := StrayPanics(m, s, max);
    } else {
      var block := s[..BlockEnd(m, s) + |m.end|];
      assert block + Tail(m, s) == s;
      BlockLeavesNothing(m, s, block, max);
      var more := UncleanPanics(m, Tail(m, s), max);
      chunks := Singles(block) + more;
      BlockThenPanics(m, block, Tail(m, s), more, max);
    }
  }

  lemma BlockThenPanics(m: Markers, block: string, tail: string, more: seq<string>, max: int)
    requires !FeedAll(m, START, Singles(block), max).panicked && FeedAll(m, START, Singles(block), max).buffer == START
    requires Readable(more) && Flatten(more) == tail && FeedAll(m, START, more, max).panicked
    ensures Readable(Singles(block) + more) && Flatten(Singles(block) + more) == block + tail
    ensures FeedAll(m, START, Singles(block) + more, max).panicked
  {
    FlattenConcat(Singles(block), more);
    FeedConcat(m, START, Singles(block), more, max);
  }

  /** After reading exactly the first block byte by byte the capture is as at the start. */
  lemma BlockLeavesNothing(m: Markers, s: string, block: string, max: int)
    requires BlockEnd(m, s) != -1 && !StrayEnd(m, s) && Fits(m, s, max) && block == s[..BlockEnd(m, s) + |m.end|]
    ensures !FeedAll(m, START, Singles(block), max).panicked && FeedAll(m, START, Singles(block), max).buffer == START
  {
    OneBlock(m, s);
    BlockFits(m, s, block, Tail(m, s), max);
    ReadWhole(m, block, max);
  }

  lemma BlockFits(m: Markers, s: string, block: string, tail: string, max: int)
    requires BlockEnd(m, s) != -1 && Fits(m, s, max) && block == s[..BlockEnd(m, s) + |m.end|] && tail == Tail(m, s)
    ensures Fits(m, block, max)
  {
    assert block + tail == s;
    FitsSoFar(m, block, tail, max);
  }

  lemma ReadWhole(m: Markers, s: string, max: int)
    requires Clean(m, s) && Rest(m, s) == "" && Fits(m, s, max)
    ensures !FeedAll(m, START, Singles(s), max).panicked && FeedAll(m, START, Singles(s), max).buffer == START
  {
    assert "" + s == s;
    CleanStream(m, START, "", Singles(s), max);
  }

  /** The first block of a stream, cut off behind its END, is a clean stream without a rest. */
  lemma OneBlock(m: Markers, s: string)
    requires BlockEnd(m, s) != -1 && !StrayEnd(m, s)
    ensures var block := s[..BlockEnd(m, s) + |m.end|];
            Clean(m, block) && Rest(m, block) == ""
  {
    var b, e := Index(s, m.begin), BlockEnd(m, s);
    var block := s[..e + |m.end|];
    assert block + Tail(m, s) == s;
    AtPrefix(block, Tail(m, s), m.begin, b);
    AtPrefix(block, Tail(m, s), m.end, e);
    IndexGrows(block, Tail(m, s), m.begin, 0);
    IndexGrows(block, Tail(m, s), m.end, b + |m.begin|);
    StrayGrows(m, block, Tail(m, s));
    assert Tail(m, block) == "";
  }

  // ---------------------------------------------------------------- streams a program writes

  /** Output that precedes a block, and the data of the block. */
  datatype Piece = Piece(junk: string, data: string)

  predicate WellFormed(m: Markers, p: Piece) {
    Index(p.junk, m.begin) == -1 && Index(p.junk, m.end) == -1 && Index(p.data, m.end) == -1
  }

  function Written(m: Markers, pieces: seq<Piece>, last: string): string {
    if pieces == [] then last
    else pieces[0].junk + (m.begin + (pieces[0].data + (m.end + Written(m, pieces[1..], last))))
  }

  function DataOf(pieces: seq<Piece>): seq<string> {
    if pieces == [] then [] else [pieces[0].data] + DataOf(pieces[1..])
  }

  /** A marker written behind text without that marker is found where it was written. */
  lemma MarkerIsFirst(m: Markers, t: string, pat: string, more: string)
    requires Index(t, pat) == -1 && (pat == m.begin || pat == m.end)
    ensures Index(t + (pat + more), pat) == |t|
  {
    var s := t + (pat + more);
    assert At(s, pat, |t|);
    var k := Index(s, pat);
    assert s[|t|] == m.begin[0];
    if k + |pat| <= |t| {
      AtPrefix(t, pat + more, pat, k);
    } else if k < |t| {
      InsideMarker(m, s, pat, k, |t|);
    }
  }

  lemma DropTwo(a: string, b: string, c: string)
    ensures (a + (b + c))[|a| + |b|..] == c
  {
  }

  lemma DataIsFirst(m: Markers, s: string, data: string, more: string)
    requires Index(s, m.begin) != -1 && Index(data, m.end) == -1
    requires s[Index(s, m.begin) + |m.begin|..] == data + (m.end + more)
    ensures BlockEnd(m, s) == Index(s, m.begin) + |m.begin| + |data|
  {
    var rest := s[Index(s, m.begin) + |m.begin|..];
    assert Index(rest, m.end) == |data| by {
      MarkerIsFirst(m, data, m.end, more);
    }
    BlockEndInRest(m, s, |data|);
  }

  lemma BlockEndInRest(m: Markers, s: string, k: int)
    requires Index(s, m.begin) != -1 && k != -1 && Index(s[Index(s, m.begin) + |m.begin|..], m.end) == k
    ensures BlockEnd(m, s) == Index(s, m.begin) + |m.begin| + k
  {
    var from := Index(s, m.begin) + |m.begin|;
    IndexOfSuffix(s, m.end, from, from);
  }

  lemma BlockIsData(m: Markers, s: string, data: string, more: string)
    requires Index(s, m.begin) != -1 && Index(data, m.end) == -1
    requires s[Index(s, m.begin) + |m.begin|..] == data + (m.end + more)
    ensures BlockEnd(m, s) != -1 && FirstData(m, s) == data && Tail(m, s) == more
  {
    var from := Index(s, m.begin) + |m.begin|;
    DataIsFirst(m, s, data, more);
    assert s[from..][..|data|] == data;
    DropTwo(data, m.end, more);
    assert s[from..][|data| + |m.end|..] == more;
  }

  lemma PieceIsFirstBlock(m: Markers, p: Piece, more: string)
    requires WellFormed(m, p)
    ensures var s := p.junk + (m.begin + (p.data + (m.end + more)));
            BlockEnd(m, s) != -1 && FirstData(m, s) == p.data && Tail(m, s) == more
  {
    var rest := p.data + (m.end + more);
    MarkerIsFirst(m, p.junk, m.begin, rest);
    DropTwo(p.junk, m.begin, rest);
    BlockIsData(m, p.junk + (m.begin + rest), p.data, more);
  }

  lemma PieceIsClean(m: Markers, p: Piece, more: string)
    requires WellFormed(m, p)
    ensures !StrayEnd(m, p.junk + (m.begin + more))
  {
    var s := p.junk + (m.begin + more);
    MarkerIsFirst(m, p.junk, m.begin, more);
    if StrayEnd(m, s) {
      var i :| 0 <= i < |p.junk| && At(s, m.end, i);
      MarkersDoNotOverlap(m, s, |p.junk|, i);
      AtPrefix(p.junk, m.begin + more, m.end, i);
    }
  }

  /** Parsing what a program wrote gives back its data, and what it wrote is clean. */
  lemma {:induction false} WrittenThenParsed(m: Markers, pieces: seq<Piece>, last: string)
    requires forall i | 0 <= i < |pieces| :: WellFormed(m, pieces[i])
    requires Index(last, m.begin) == -1
    ensures Blocks(m, Written(m, pieces, last)) == DataOf(pieces) && Clean(m, Written(m, pieces, last))
    decreases |pieces|
  {
    if pieces != [] {
      var more := Written(m, pieces[1..], last);
      PieceIsFirstBlock(m, pieces[0], more);
      PieceIsClean(m, pieces[0], pieces[0].data + (m.end + more));
      WrittenThenParsed(m, pieces[1..], last);
    }
  }

  // ---------------------------------------------------------------- the result

  /** Every chunking of s emits exactly its data blocks, in order. */
  ghost predicate ChunkIndependent(m: Markers, s: string, max: int) {
    forall chunks :: Readable(chunks) && Flatten(chunks) == s ==>
      var f := FeedAll(m, START, chunks, max);
      !f.panicked && f.events == Blocks(m, s)
  }

  /** The capture is independent of chunking exactly on clean streams. */
  lemma ChunkIndependentIff(m: Markers, s: string, max: int)
    requires Fits(m, s, max)
    ensures ChunkIndependent(m, s, max) <==> Clean(m, s)
  {
    if Clean(m, s) {
      forall chunks | Readable(chunks) && Flatten(chunks) == s
        ensures var f := FeedAll(m, START, chunks, max); !f.panicked && f.events == Blocks(m, s)
      {
        assert "" + s == s;
        CleanStream(m, START, "", chunks, max);
      }
    } else {
      var chunks := UncleanPanics(m, s, max);
    }
  }
}
