/**
  ProcCommEventCapture (events/events.go:468-565): a streaming parser that cuts the data between a
  BEGIN and an END marker out of the output of a process, whatever the sizes of the chunks in which
  the output arrives.
 */
module EventCapture {
  import opened Text

  /** The size of the read buffer of startCapture (events/events.go:505). */
  const READ_SIZE: nat := 10240

  datatype MarkerPair = MarkerPair(begin: string, end: string)

  /**
    Two markers that cannot overlap: both start with a character that occurs nowhere else in them,
    and they differ somewhere.
   */
  predicate Separable(m: MarkerPair) {
    && 0 < |m.begin| <= READ_SIZE && 0 < |m.end|
    && m.begin[0] == m.end[0]
    && (forall k | 1 <= k < |m.begin| :: m.begin[k] != m.begin[0])
    && (forall k | 1 <= k < |m.end| :: m.end[k] != m.begin[0])
    && exists k | 0 <= k < |m.begin| && k < |m.end| :: m.begin[k] != m.end[k]
  }

  function PlainMarkers(): (m: MarkerPair)
    ensures Separable(m)
  {
    var m := MarkerPair("<B", "<E");
    assert m.begin[1] != m.end[1];
    m
  }

  type Markers = m: MarkerPair | Separable(m) witness PlainMarkers()

  /** The markers of the source (events/events.go:22-26). */
  function SupervisorMarkers(): Markers {
    MarkerPair(BeginMarker(), EndMarker())
  }

  function BeginMarker(): (s: string)
    ensures |s| == 24 && s[0] == '<' && s[16] == 'B'
    ensures forall k | 1 <= k < |s| :: s[k] != '<'
  {
    "<!--XSUPERVISOR:BEGIN-->"
  }

  function EndMarker(): (s: string)
    ensures |s| == 22 && s[0] == '<' && s[16] == 'E'
    ensures forall k | 1 <= k < |s| :: s[k] != '<'
  {
    "<!--XSUPERVISOR:END-->"
  }

  // ---------------------------------------------------------------- what a stream means

  /** Where the END that closes the first block starts, or -1: leftmost BEGIN, then leftmost END after it. */
  function BlockEnd(m: Markers, s: string): (e: int)
    ensures e != -1 ==> Index(s, m.begin) != -1 && Index(s, m.begin) + |m.begin| <= e && At(s, m.end, e)
  {
    var b := Index(s, m.begin);
    if b == -1 then -1 else IndexFrom(s, m.end, b + |m.begin|)
  }

  function FirstData(m: Markers, s: string): string
    requires BlockEnd(m, s) != -1
  {
    s[Index(s, m.begin) + |m.begin|..BlockEnd(m, s)]
  }

  /** What follows the first block. */
  function Tail(m: Markers, s: string): (r: string)
    requires BlockEnd(m, s) != -1
    ensures |r| < |s|
  {
    s[BlockEnd(m, s) + |m.end|..]
  }

  /** The data blocks of a complete stream. */
  function Blocks(m: Markers, s: string): seq<string>
    decreases |s|
  {
    if BlockEnd(m, s) == -1 then [] else [FirstData(m, s)] + Blocks(m, Tail(m, s))
  }

  /** What follows the last complete block. */
  function Rest(m: Markers, s: string): string
    decreases |s|
  {
    if BlockEnd(m, s) == -1 then s else Rest(m, Tail(m, s))
  }

  /** An END marker lies in front of the first BEGIN marker, within reach of one read. */
  predicate StrayEnd(m: Markers, s: string) {
    exists i | 0 <= i < Index(s, m.begin) :: Index(s, m.begin) - READ_SIZE <= i && At(s, m.end, i)
  }

  /** No junk in front of a BEGIN marker holds a stray END marker. */
  predicate Clean(m: Markers, s: string)
    decreases |s|
  {
    !StrayEnd(m, s) && (BlockEnd(m, s) == -1 || Clean(m, Tail(m, s)))
  }

  // ---------------------------------------------------------------- what the capture does

  datatype Buffer = Buffer(text: string, begin: int)

  datatype Outcome = Nothing | Event(data: string) | Panic

  predicate WellPlaced(m: Markers, buf: Buffer) {
    buf.begin == -1 || At(buf.text, m.begin, buf.begin)
  }

  /** events/events.go:539-550 */
  function FindBegin(m: Markers, buf: Buffer): (r: Buffer)
    requires WellPlaced(m, buf)
    ensures WellPlaced(m, r) && |r.text| <= |buf.text|
  {
    if buf.begin != -1 then buf else
    var b := Index(buf.text, m.begin);
    if b == -1 then Buffer(LastBytes(buf.text, |m.begin|), -1) else Buffer(buf.text, b)
  }

  /** events/events.go:552-565, as the buffer afterwards; the position is Index(text, END). */
  function FindEnd(m: Markers, buf: Buffer, max: int): (r: Buffer)
    requires WellPlaced(m, buf)
    ensures WellPlaced(m, r)
  {
    if buf.begin != -1 && Index(buf.text, m.end) == -1 && |buf.text| > max then Buffer("", -1) else buf
  }

  /** One call of captureEvent (events/events.go:523-537): the outcome. */
  function Captured(m: Markers, buf: Buffer): Outcome
    requires WellPlaced(m, buf)
  {
    var f := FindBegin(m, buf);
    if f.begin == -1 || Index(f.text, m.end) == -1 then Nothing
    else if Index(f.text, m.end) < f.begin + |m.begin| then Panic
    else Event(f.text[f.begin + |m.begin|..Index(f.text, m.end)])
  }

  /** One call of captureEvent: the buffer afterwards. */
  function AfterCapture(m: Markers, buf: Buffer, max: int): (r: Buffer)
    requires WellPlaced(m, buf)
    ensures WellPlaced(m, r)
    ensures Captured(m, buf).Event? ==> |r.text| < |buf.text|
  {
    var f := FindBegin(m, buf);
    match Captured(m, buf)
    case Nothing => FindEnd(m, f, max)
    case Event(_) => Buffer(f.text[Index(f.text, m.end) + |m.end|..], -1)
    case Panic => f
  }

  datatype Capture = Capture(buffer: Buffer, events: seq<string>, panicked: bool)

  /** The drain loop (events/events.go:512-518). */
  function Drain(m: Markers, buf: Buffer, max: int): (r: Capture)
    requires WellPlaced(m, buf)
    ensures WellPlaced(m, r.buffer)
    decreases |buf.text|
  {
    match Captured(m, buf)
    case Nothing => Capture(AfterCapture(m, buf, max), [], false)
    case Panic => Capture(AfterCapture(m, buf, max), [], true)
    case Event(data) =>
      var r := Drain(m, AfterCapture(m, buf, max), max);
      Capture(r.buffer, [data] + r.events, r.panicked)
  }

  /** Reads arriving one after the other; nothing happens after a panic. */
  function FeedAll(m: Markers, buf: Buffer, chunks: seq<string>, max: int): (r: Capture)
    requires WellPlaced(m, buf)
    ensures WellPlaced(m, r.buffer)
    decreases |chunks|
  {
    if chunks == [] then Capture(buf, [], false) else
    var r := Receive(m, buf, chunks[0], max);
    if r.panicked then r else
    var q := FeedAll(m, r.buffer, chunks[1..], max);
    Capture(q.buffer, r.events + q.events, q.panicked)
  }

  function Receive(m: Markers, buf: Buffer, chunk: string, max: int): (r: Capture)
    requires WellPlaced(m, buf)
    ensures WellPlaced(m, r.buffer)
  {
    if buf.begin != -1 then AtPrefix(buf.text, chunk, m.begin, buf.begin); Drain(m, Buffer(buf.text + chunk, buf.begin), max)
    else Drain(m, Buffer(buf.text + chunk, -1), max)
  }

  /** Having emitted `done`, the capture still has r to do to reach the goal set when `before` was emitted. */
  ghost predicate Remaining(goal: Capture, before: seq<string>, r: Capture, done: seq<string>) {
    goal.buffer == r.buffer && goal.panicked == r.panicked && before + goal.events == done + r.events
  }

  lemma DrainOn(m: Markers, buf: Buffer, max: int, goal: Capture, before: seq<string>, done: seq<string>, data: string)
    requires WellPlaced(m, buf) && Captured(m, buf) == Event(data)
    requires Remaining(goal, before, Drain(m, buf, max), done)
    ensures Remaining(goal, before, Drain(m, AfterCapture(m, buf, max), max), done + [data])
  {
    var next := Drain(m, AfterCapture(m, buf, max), max);
    assert done + ([data] + next.events) == (done + [data]) + next.events;
  }

  /** The object of the source. `emitted` stands for the calls of EmitEvent. */
  class ProcCommEventCapture {
    const m: Markers := SupervisorMarkers()
    const captureMaxBytes: int
    var eventBuffer: string
    var eventBeginPos: int
    var emitted: seq<string>
    var panicked: bool

    function View(): Buffer
      reads this
    {
      Buffer(eventBuffer, eventBeginPos)
    }

    constructor (captureMaxBytes: int)
      ensures this.captureMaxBytes == captureMaxBytes
      ensures View() == Buffer("", -1) && emitted == [] && !panicked
    {
      this.captureMaxBytes := captureMaxBytes;
      eventBuffer, eventBeginPos, emitted, panicked := "", -1, [], false;
    }

    method FindBeginStr()
      requires WellPlaced(m, View())
      modifies `eventBuffer, `eventBeginPos
      ensures View() == FindBegin(m, old(View()))
    {
      if eventBeginPos == -1 {
        eventBeginPos := Index(eventBuffer, m.begin);
        if eventBeginPos == -1 {
          var n := |eventBuffer|;
          if n > |m.begin| {
            eventBuffer := eventBuffer[n - |m.begin|..];
          }
        }
      }
    }

    method FindEndStr() returns (endPos: int)
      requires WellPlaced(m, View())
      modifies `eventBuffer, `eventBeginPos
      ensures endPos == if old(eventBeginPos) == -1 then -1 else Index(old(eventBuffer), m.end)
      ensures old(eventBeginPos) != -1 && endPos == -1 && |old(eventBuffer)| > captureMaxBytes ==> View() == Buffer("", -1)
      ensures old(eventBeginPos) == -1 || endPos != -1 || |old(eventBuffer)| <= captureMaxBytes ==> View() == old(View())
      ensures View() == FindEnd(m, old(View()), captureMaxBytes)
    {
      if eventBeginPos == -1 {
        return -1;
      }
      endPos := Index(eventBuffer, m.end);
      if endPos == -1 {
        if |eventBuffer| > captureMaxBytes {
          eventBeginPos := -1;
          eventBuffer := "";
        }
      }
    }

    /** Panic stands for the slice expression of line 529 with its bounds out of order. */
    method CaptureEvent() returns (r: Outcome)
      requires WellPlaced(m, View())
      modifies `eventBuffer, `eventBeginPos
      ensures r == Captured(m, old(View()))
      ensures View() == AfterCapture(m, old(View()), captureMaxBytes)
    {
      FindBeginStr();
      var endPos := FindEndStr();
      if endPos == -1 {
        return Nothing;
      }
      if endPos < eventBeginPos + |m.begin| {
        return Panic;
      }
      r := Event(eventBuffer[eventBeginPos + |m.begin|..endPos]);
      eventBuffer := eventBuffer[endPos + |m.end|..];
      eventBeginPos := -1;
    }

    /** One successful read and the drain loop after it (events/events.go:511-518). */
    method Read(chunk: string)
      requires WellPlaced(m, View()) && !panicked
      modifies this
      ensures var r := Receive(m, old(View()), chunk, captureMaxBytes);
              View() == r.buffer && emitted == old(emitted) + r.events && panicked == r.panicked
    {
      if eventBeginPos != -1 {
        AtPrefix(eventBuffer, chunk, m.begin, eventBeginPos);
      }
      eventBuffer := eventBuffer + chunk;
      ghost var goal := Drain(m, View(), captureMaxBytes);
      ghost var before := emitted;
      while true
        invariant WellPlaced(m, View()) && !panicked
        invariant Remaining(goal, before, Drain(m, View(), captureMaxBytes), emitted)
        decreases |eventBuffer|
      {
        ghost var here := View();
        var event := CaptureEvent();
        match event
        case Nothing => break;
        case Panic =>
          panicked := true;
          break;
        case Event(data) =>
          DrainOn(m, here, captureMaxBytes, goal, before, emitted, data);
          emitted := emitted + [data];
      }
    }

    /** The goroutine of startCapture, given what the successful reads return until one fails. */
    method StartCapture(chunks: seq<string>)
      requires WellPlaced(m, View()) && !panicked
      modifies this
      ensures var r := FeedAll(m, old(View()), chunks, captureMaxBytes);
              View() == r.buffer && emitted == old(emitted) + r.events && panicked == r.panicked
    {
      ghost var goal := FeedAll(m, View(), chunks, captureMaxBytes);
      ghost var before := emitted;
      var n := 0;
      while n < |chunks| && !panicked
        invariant 0 <= n <= |chunks| && WellPlaced(m, View())
        invariant panicked ==> Remaining(goal, before, Capture(View(), [], true), emitted)
        invariant !panicked ==> Remaining(goal, before, FeedAll(m, View(), chunks[n..], captureMaxBytes), emitted)
      {
        assert chunks[n..][1..] == chunks[n + 1..];
        RemainingAfterRead(m, goal, before, View(), chunks[n..], emitted, captureMaxBytes);
        Read(chunks[n]);
        n := n + 1;
      }
    }
  }

  /** What remains to be done once the first of the chunks has been received. */
  lemma RemainingAfterRead(m: Markers, goal: Capture, before: seq<string>, buf: Buffer, chunks: seq<string>,
                           done: seq<string>, max: int)
    requires WellPlaced(m, buf) && chunks != [] && Remaining(goal, before, FeedAll(m, buf, chunks, max), done)
    ensures var r := Receive(m, buf, chunks[0], max);
            if r.panicked then Remaining(goal, before, Capture(r.buffer, [], true), done + r.events)
            else Remaining(goal, before, FeedAll(m, r.buffer, chunks[1..], max), done + r.events)
  {
    var r := Receive(m, buf, chunks[0], max);
    if r.panicked {
      assert done + r.events == (done + r.events) + [];
    } else {
      var q := FeedAll(m, r.buffer, chunks[1..], max);
      assert done + (r.events + q.events) == (done + r.events) + q.events;
    }
  }
}
