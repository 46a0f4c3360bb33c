/**
  The delivery of events to one listener (events/events.go:112-244) as interleaved steps: any
  number of producers call HandleEvent, anyone may call stop, and one goroutine fetches the head of
  the queue, writes it, reads the result and removes the head when the result is OK. Each step is
  one critical section of the source or one interaction with the listener.
 */
module EventDelivery {

  type Event = string

  datatype Pc =
    | AwaitReady               // in waitForReady
    | Fetching                 // before getFirstEvent
    | Sending(event: Event)    // fetched, before the write
    | AwaitResult              // written, before readResult
    | Acknowledging            // result OK, before removeFirstEvent
    | Exited

  /** What the delivery goroutine did, in order. `index` counts the events removed before. */
  datatype Entry = Sent(index: nat, event: Event) | Okayed | Removed(event: Event)

  datatype Listener = Listener(
    queue: seq<Event>,
    stopped: bool,
    pc: Pc,
    accepted: seq<Event>,      // every event HandleEvent queued, in order
    log: seq<Entry>,
    stopMark: nat              // length of the log when stop was first called
  )

  datatype Step =
    | HandleEvent(event: Event)
    | StopCall
    | Ready | ReadyFails
    | Fetch | FetchStopped
    | Write(ok: bool)
    | ResultOk | ResultFail | ResultUnknown | ResultError
    | RemoveFirst

  function Initial(): Listener {
    Listener([], false, AwaitReady, [], [], 0)
  }

  predicate Enabled(s: Listener, step: Step) {
    match step
    case HandleEvent(_) => true
    case StopCall => true
    case Ready => s.pc == AwaitReady
    case ReadyFails => s.pc == AwaitReady
    case Fetch => s.pc == Fetching && !s.stopped && s.queue != []
    case FetchStopped => s.pc == Fetching && s.stopped
    case Write(_) => s.pc.Sending?
    case ResultOk => s.pc == AwaitResult
    case ResultFail => s.pc == AwaitResult
    case ResultUnknown => s.pc == AwaitResult
    case ResultError => s.pc == AwaitResult
    case RemoveFirst => s.pc == Acknowledging
  }

  function Do(bufferSize: int, s: Listener, step: Step): Listener {
    match step
    case HandleEvent(e) =>
      if |s.queue| <= bufferSize then s.(queue := s.queue + [e], accepted := s.accepted + [e]) else s
    case StopCall => s.(stopped := true, stopMark := if s.stopped then s.stopMark else |s.log|)
    case Ready => s.(pc := Fetching)
    case ReadyFails => s.(pc := Exited)
    case Fetch => if s.queue == [] then s else s.(pc := Sending(s.queue[0]))
    case FetchStopped => s.(pc := Exited)
    case Write(ok) =>
      if s.pc.Sending?
      then s.(pc := if ok then AwaitResult else AwaitReady, log := s.log + [Sent(|Gone(s.log)|, s.pc.event)])
      else s
    case ResultOk => s.(pc := Acknowledging, log := s.log + [Okayed])
    case ResultFail => s.(pc := AwaitReady)
    case ResultUnknown => s.(pc := Fetching)
    case ResultError => s.(pc := AwaitReady)
    case RemoveFirst =>
      if s.queue == [] then s.(pc := AwaitReady)
      else s.(pc := AwaitReady, queue := s.queue[1..], log := s.log + [Removed(s.queue[0])])
  }

  // ---------------------------------------------------------------- the critical sections

  /**
    The part of the listener that goroutines share under its lock. Every method is one critical
    section, and does to the queue and the flag what the step of the same name does to them.
   */
  class EventListener {
    const bufferSize: int
    var events: seq<Event>
    var stopped: bool

    constructor (bufferSize: int)
      ensures this.bufferSize == bufferSize && View(Initial()) == Initial()
    {
      this.bufferSize := bufferSize;
      events, stopped := [], false;
    }

    /** The listener s with the queue and the flag of this object. */
    function View(s: Listener): Listener
      reads this
    {
      s.(queue := events, stopped := stopped)
    }

    method HandleEvent(event: Event)
      modifies `events
      ensures events == if |old(events)| > bufferSize then old(events) else old(events) + [event]
      ensures forall s :: Shared(Do(bufferSize, old(View(s)), Step.HandleEvent(event)), View(s))
    {
      if |events| <= bufferSize {
        events := events + [event];
      }
    }

    method Stop()
      modifies `stopped
      ensures stopped
      ensures forall s :: Shared(Do(bufferSize, old(View(s)), StopCall), View(s))
    {
      stopped := true;
    }

    method RemoveFirstEvent()
      modifies `events
      ensures old(events) != [] ==> old(events) == [old(events)[0]] + events
      ensures old(events) == [] ==> events == []
      ensures forall s :: Shared(Do(bufferSize, old(View(s)), RemoveFirst), View(s))
    {
      if |events| > 0 {
        events := events[1..];
      }
    }

    /** getFirstEvent once its wait is over; the step taken is Fetch or FetchStopped. */
    method GetFirstEvent() returns (event: Event, ok: bool)
      requires |events| > 0 || stopped
      ensures ok <==> !stopped
      ensures ok ==> event == events[0]
      ensures forall s: Listener | s.pc == Fetching :: Enabled(View(s), if ok then Fetch else FetchStopped)
      ensures ok ==> forall s :: Do(bufferSize, View(s), Fetch).pc == Sending(event)
    {
      if stopped {
        return "", false;
      }
      return events[0], true;
    }
  }

  /** Both agree on what is shared under the lock. */
  predicate Shared(s: Listener, t: Listener) {
    s.queue == t.queue && s.stopped == t.stopped
  }

  /** The events removed from the queue, in order. */
  function Gone(log: seq<Entry>): seq<Event> {
    if log == [] then []
    else Gone(log[..|log| - 1]) + match log[|log| - 1] case Removed(e) => [e] case _ => []
  }

  function SentIn(log: seq<Entry>): nat {
    if log == [] then 0 else SentIn(log[..|log| - 1]) + (if log[|log| - 1].Sent? then 1 else 0)
  }

  ghost predicate Runs(bufferSize: int, s: Listener, steps: seq<Step>, t: Listener)
    decreases |steps|
  {
    if steps == [] then s == t
    else Enabled(s, steps[0]) && Runs(bufferSize, Do(bufferSize, s, steps[0]), steps[1..], t)
  }

  // ---------------------------------------------------------------- the invariant

  /** The queue holds what was accepted and has not gone, and never more than it may. */
  ghost predicate QueueInv(bufferSize: int, s: Listener) {
    && s.accepted == Gone(s.log) + s.queue
    && |s.queue| <= (if bufferSize < 0 then 0 else bufferSize + 1)
  }

  /** The delivery goroutine works on the head of the queue. */
  ghost predicate HeadInv(s: Listener) {
    var n := |s.log|;
    && (s.pc.Sending? ==> s.queue != [] && s.queue[0] == s.pc.event)
    && (s.pc == AwaitResult ==> s.queue != [] && n > 0 && s.log[n - 1] == Sent(|Gone(s.log)|, s.queue[0]))
    && (s.pc == Acknowledging ==>
          s.queue != [] && n > 1 && s.log[n - 1] == Okayed && s.log[n - 2] == Sent(|Gone(s.log)|, s.queue[0]))
  }

  /** Each write carries the oldest event that had not gone. */
  ghost predicate SentInv(s: Listener) {
    forall j | 0 <= j < |s.log| && s.log[j].Sent? ::
      s.log[j].index == |Gone(s.log[..j])| < |s.accepted| && s.accepted[s.log[j].index] == s.log[j].event
  }

  /** An event goes only after its own OK. */
  ghost predicate RemovedInv(s: Listener) {
    forall j | 0 <= j < |s.log| && s.log[j].Removed? ::
      j > 1 && s.log[j - 1] == Okayed && s.log[j - 2] == Sent(|Gone(s.log[..j])|, s.log[j].event)
  }

  ghost predicate StopInv(s: Listener) {
    && s.stopMark <= |s.log|
    && (s.stopped ==> SentIn(s.log[s.stopMark..]) + (if s.pc.Sending? then 1 else 0) <= 1)
  }

  ghost predicate Inv(bufferSize: int, s: Listener) {
    QueueInv(bufferSize, s) && HeadInv(s) && SentInv(s) && RemovedInv(s) && StopInv(s)
  }

  lemma GonePush(log: seq<Entry>, x: Entry)
    ensures Gone(log + [x]) == Gone(log) + (if x.Removed? then [x.event] else [])
    ensures SentIn(log + [x]) == SentIn(log) + (if x.Sent? then 1 else 0)
  {
    assert (log + [x])[..|log|] == log;
  }

  lemma Handed(gone: seq<Event>, queue: seq<Event>, e: Event)
    ensures gone + (queue + [e]) == gone + queue + [e]
  {
  }

  lemma FirstGone(gone: seq<Event>, queue: seq<Event>)
    requires queue != []
    ensures gone + [queue[0]] + queue[1..] == gone + queue
  {
  }

  lemma QueueStep(bufferSize: int, s: Listener, step: Step)
    requires QueueInv(bufferSize, s) && HeadInv(s) && Enabled(s, step)
    ensures QueueInv(bufferSize, Do(bufferSize, s, step))
  {
    var t, gone := Do(bufferSize, s, step), Gone(s.log);
    match step
    case HandleEvent(e) =>
      Handed(gone, s.queue, e);
    case RemoveFirst =>
      GonePush(s.log, Removed(s.queue[0]));
      FirstGone(gone, s.queue);
    case Write(_) =>
      GonePush(s.log, t.log[|s.log|]);
    case ResultOk =>
      GonePush(s.log, Okayed);
    case _ =>
      assert t.log == s.log && t.queue == s.queue && t.accepted == s.accepted;
  }

  lemma HeadStep(bufferSize: int, s: Listener, step: Step)
    requires HeadInv(s) && Enabled(s, step)
    ensures HeadInv(Do(bufferSize, s, step))
  {
    var t := Do(bufferSize, s, step);
    if |t.log| == |s.log| + 1 {
      GonePush(s.log, t.log[|s.log|]);
    }
  }

  lemma SentPush(s: Listener, t: Listener)
    requires SentInv(s) && s.accepted <= t.accepted && s.log <= t.log && |t.log| <= |s.log| + 1
    requires |t.log| > |s.log| && t.log[|s.log|].Sent? ==>
               var x := t.log[|s.log|];
               x.index == |Gone(s.log)| < |t.accepted| && t.accepted[x.index] == x.event
    ensures SentInv(t)
  {
    forall j | 0 <= j <= |s.log|
      ensures t.log[..j] == s.log[..j]
    {
    }
    assert s.log[..|s.log|] == s.log;
  }

  lemma RemovedPush(s: Listener, t: Listener)
    requires RemovedInv(s) && s.log <= t.log && |t.log| <= |s.log| + 1
    requires |t.log| > |s.log| && t.log[|s.log|].Removed? ==>
               && |s.log| > 1 && s.log[|s.log| - 1] == Okayed
               && s.log[|s.log| - 2] == Sent(|Gone(s.log)|, t.log[|s.log|].event)
    ensures RemovedInv(t)
  {
    forall j | 0 <= j <= |s.log|
      ensures t.log[..j] == s.log[..j]
    {
    }
    assert s.log[..|s.log|] == s.log;
  }

  lemma LogStep(bufferSize: int, s: Listener, step: Step)
    requires Inv(bufferSize, s) && Enabled(s, step)
    ensures SentInv(Do(bufferSize, s, step)) && RemovedInv(Do(bufferSize, s, step))
  {
    SentPush(s, Do(bufferSize, s, step));
    RemovedPush(s, Do(bufferSize, s, step));
  }

  lemma StopStep(bufferSize: int, s: Listener, step: Step)
    requires StopInv(s) && Enabled(s, step)
    ensures StopInv(Do(bufferSize, s, step))
  {
    var t := Do(bufferSize, s, step);
    if |t.log| == |s.log| + 1 {
      assert t.log[s.stopMark..] == s.log[s.stopMark..] + [t.log[|s.log|]];
      GonePush(s.log[s.stopMark..], t.log[|s.log|]);
    }
  }

  lemma {:induction false} RunsInv(bufferSize: int, s: Listener, steps: seq<Step>, t: Listener)
    requires Inv(bufferSize, s) && Runs(bufferSize, s, steps, t)
    ensures Inv(bufferSize, t)
    decreases |steps|
  {
    if steps != [] {
      QueueStep(bufferSize, s, steps[0]);
      HeadStep(bufferSize, s, steps[0]);
      LogStep(bufferSize, s, steps[0]);
      StopStep(bufferSize, s, steps[0]);
      RunsInv(bufferSize, Do(bufferSize, s, steps[0]), steps[1..], t);
    }
  }

  // ---------------------------------------------------------------- the results

  /** Accepted events are the removed ones followed by the queue, which holds at most bufferSize + 1. */
  lemma Conservation(bufferSize: int, steps: seq<Step>, t: Listener)
    requires Runs(bufferSize, Initial(), steps, t)
    ensures t.accepted == Gone(t.log) + t.queue
    ensures |t.queue| <= (if bufferSize < 0 then 0 else bufferSize + 1)
  {
    RunsInv(bufferSize, Initial(), steps, t);
  }

  /** An event is removed only directly after its own OK, which answers its own write. */
  lemma RemovedAfterOk(bufferSize: int, steps: seq<Step>, t: Listener, j: nat)
    requires Runs(bufferSize, Initial(), steps, t)
    requires j < |t.log| && t.log[j].Removed?
    ensures j > 1 && t.log[j - 1] == Okayed && t.log[j - 2] == Sent(|Gone(t.log[..j])|, t.log[j].event)
  {
    RunsInv(bufferSize, Initial(), steps, t);
  }

  /** At most one write follows stop. */
  lemma OneWriteAfterStop(bufferSize: int, steps: seq<Step>, t: Listener)
    requires Runs(bufferSize, Initial(), steps, t) && t.stopped
    ensures t.stopMark <= |t.log| && SentIn(t.log[t.stopMark..]) <= 1
  {
    RunsInv(bufferSize, Initial(), steps, t);
  }

  /** Between two writes with no write in between at most one event goes. */
  lemma {:induction false} GoneBetween(s: Listener, i: nat, j: nat)
    requires RemovedInv(s) && i < j <= |s.log| && s.log[i].Sent?
    requires forall k | i < k < j :: !s.log[k].Sent?
    ensures |Gone(s.log[..i])| <= |Gone(s.log[..j])| <= |Gone(s.log[..i])| + (if j >= i + 3 then 1 else 0)
    decreases j
  {
    GonePush(s.log[..j - 1], s.log[j - 1]);
    assert s.log[..j - 1] + [s.log[j - 1]] == s.log[..j];
    if i + 1 < j {
      GoneBetween(s, i, j - 1);
    }
  }

  /** Each write repeats the event of the previous write or carries its immediate successor. */
  lemma WritesInOrder(bufferSize: int, steps: seq<Step>, t: Listener, i: nat, j: nat)
    requires Runs(bufferSize, Initial(), steps, t)
    requires i < j < |t.log| && t.log[i].Sent? && t.log[j].Sent? && forall k | i < k < j :: !t.log[k].Sent?
    ensures t.log[j].index == t.log[i].index || t.log[j].index == t.log[i].index + 1
    ensures t.log[j].index < |t.accepted| && t.accepted[t.log[j].index] == t.log[j].event
  {
    RunsInv(bufferSize, Initial(), steps, t);
    GoneBetween(t, i, j);
  }

  // ---------------------------------------------------------------- which events are accepted

  /** The events handed in, in order. */
  function HandedIn(steps: seq<Step>): seq<Event> {
    if steps == [] then []
    else (if steps[0].HandleEvent? then [steps[0].event] else []) + HandedIn(steps[1..])
  }

  /** An event is accepted if and only if of those accepted before no more than bufferSize are still to be removed. */
  lemma AcceptedIff(bufferSize: int, steps: seq<Step>, t: Listener, event: Event)
    requires Runs(bufferSize, Initial(), steps, t)
    ensures var after := Do(bufferSize, t, HandleEvent(event));
            after.accepted == t.accepted + if |t.accepted| - |Gone(t.log)| <= bufferSize then [event] else []
  {
    Conservation(bufferSize, steps, t);
  }

  lemma AcceptedStep(bufferSize: int, s: Listener, step: Step)
    requires Enabled(s, step)
    ensures step.HandleEvent? && |s.queue| <= bufferSize ==> Do(bufferSize, s, step).accepted == s.accepted + [step.event]
    ensures !step.HandleEvent? ==> Do(bufferSize, s, step).accepted == s.accepted
  {
  }

  /** As long as the places suffice, a step accepts what it hands in. */
  lemma AcceptsNext(bufferSize: int, s: Listener, step: Step, u: Listener)
    requires Inv(bufferSize, s) && Enabled(s, step) && u == Do(bufferSize, s, step)
    requires step.HandleEvent? ==> |s.accepted| <= bufferSize
    ensures Inv(bufferSize, u) && u.accepted == s.accepted + if step.HandleEvent? then [step.event] else []
  {
    AcceptedStep(bufferSize, s, step);
    assert [step][1..] == [] && Runs(bufferSize, u, [], u);
    RunsInv(bufferSize, s, [step], u);
  }

  lemma {:induction false} AcceptsFirst(bufferSize: int, s: Listener, steps: seq<Step>, t: Listener)
    requires Inv(bufferSize, s) && Runs(bufferSize, s, steps, t)
    requires |s.accepted| + |HandedIn(steps)| <= bufferSize + 1
    ensures t.accepted == s.accepted + HandedIn(steps)
    decreases |steps|
  {
    if steps != [] {
      var u := Do(bufferSize, s, steps[0]);
      AcceptsNext(bufferSize, s, steps[0], u);
      AcceptsFirst(bufferSize, u, steps[1..], t);
      Regrouped(s.accepted, if steps[0].HandleEvent? then [steps[0].event] else [], HandedIn(steps[1..]));
    }
  }

  lemma Regrouped(a: seq<Event>, b: seq<Event>, c: seq<Event>)
    ensures a + b + c == a + (b + c)
  {
  }

  /** As long as no more events are handed in than there are places, all of them are accepted, in order. */
  lemma AcceptsAll(bufferSize: int, steps: seq<Step>, t: Listener)
    requires Runs(bufferSize, Initial(), steps, t) && |HandedIn(steps)| <= bufferSize + 1
    ensures t.accepted == HandedIn(steps)
  {
    AcceptsFirst(bufferSize, Initial(), steps, t);
  }

  // ---------------------------------------------------------------- what an answer leads to

  function OkaysIn(log: seq<Entry>): nat {
    if log == [] then 0 else OkaysIn(log[..|log| - 1]) + (if log[|log| - 1].Okayed? then 1 else 0)
  }

  lemma OkaysPush(log: seq<Entry>, x: Entry)
    ensures OkaysIn(log + [x]) == OkaysIn(log) + (if x.Okayed? then 1 else 0)
  {
    assert (log + [x])[..|log|] == log;
  }

  predicate OkayInv(s: Listener) {
    OkaysIn(s.log) == |Gone(s.log)| + if s.pc == Acknowledging then 1 else 0
  }

  lemma OkayStep(bufferSize: int, s: Listener, step: Step)
    requires HeadInv(s) && OkayInv(s) && Enabled(s, step)
    ensures OkayInv(Do(bufferSize, s, step))
  {
    var t := Do(bufferSize, s, step);
    if |t.log| == |s.log| + 1 {
      GonePush(s.log, t.log[|s.log|]);
      OkaysPush(s.log, t.log[|s.log|]);
    }
  }

  lemma {:induction false} RunsOkay(bufferSize: int, s: Listener, steps: seq<Step>, t: Listener)
    requires Inv(bufferSize, s) && OkayInv(s) && Runs(bufferSize, s, steps, t)
    ensures OkayInv(t)
    decreases |steps|
  {
    if steps != [] {
      OkayStep(bufferSize, s, steps[0]);
      assert Runs(bufferSize, s, [steps[0]], Do(bufferSize, s, steps[0])) by {
        assert [steps[0]][1..] == [];
      }
      RunsInv(bufferSize, s, [steps[0]], Do(bufferSize, s, steps[0]));
      RunsOkay(bufferSize, Do(bufferSize, s, steps[0]), steps[1..], t);
    }
  }

  /** Every OK removes one event: as many are gone as OKs were read, but for one OK that is being dealt with. */
  lemma EveryOkRemoves(bufferSize: int, steps: seq<Step>, t: Listener)
    requires Runs(bufferSize, Initial(), steps, t)
    ensures OkaysIn(t.log) == |Gone(t.log)| + if t.pc == Acknowledging then 1 else 0
  {
    RunsOkay(bufferSize, Initial(), steps, t);
  }

  /** What ends the use of a READY: every answer but an unknown one, a failed write, and the end. */
  predicate UsesUp(step: Step) {
    step == ResultOk || step == ResultFail || step == ResultError || step == Write(false) || step == ReadyFails || step == FetchStopped
  }

  /** The listener has said READY, and nothing has used that up. */
  predicate IsReady(steps: seq<Step>) {
    exists j | 0 <= j < |steps| :: steps[j] == Ready && forall k | j < k < |steps| :: !UsesUp(steps[k])
  }

  predicate Writing(pc: Pc) {
    pc == Fetching || pc.Sending? || pc == AwaitResult
  }

  lemma ReadyPush(steps: seq<Step>, step: Step)
    ensures IsReady(steps + [step]) <==> step == Ready || (IsReady(steps) && !UsesUp(step))
  {
    var more := steps + [step];
    if step == Ready {
      assert more[|steps|] == Ready;
    } else if IsReady(steps) && !UsesUp(step) {
      var j :| 0 <= j < |steps| && steps[j] == Ready && forall k | j < k < |steps| :: !UsesUp(steps[k]);
      assert more[j] == Ready && forall k | j < k < |more| :: !UsesUp(more[k]);
    }
    if IsReady(more) && step != Ready {
      var j :| 0 <= j < |more| && more[j] == Ready && forall k | j < k < |more| :: !UsesUp(more[k]);
      assert steps[j] == Ready && forall k | j < k < |steps| :: steps[k] == more[k];
      assert more[|steps|] == step;
    }
  }

  lemma WritingStep(bufferSize: int, s: Listener, step: Step)
    requires Enabled(s, step)
    ensures Writing(Do(bufferSize, s, step).pc) <==> step == Ready || (Writing(s.pc) && !UsesUp(step))
  {
  }

  lemma {:induction false} RunsReady(bufferSize: int, before: seq<Step>, s: Listener, steps: seq<Step>, t: Listener)
    requires (Writing(s.pc) <==> IsReady(before)) && Runs(bufferSize, s, steps, t)
    ensures Writing(t.pc) <==> IsReady(before + steps)
    decreases |steps|
  {
    if steps == [] {
      assert before + steps == before;
    } else {
      WritingStep(bufferSize, s, steps[0]);
      ReadyPush(before, steps[0]);
      assert before + [steps[0]] + steps[1..] == before + steps;
      RunsReady(bufferSize, before + [steps[0]], Do(bufferSize, s, steps[0]), steps[1..], t);
    }
  }

  /**
    Events are written only to a listener that has said READY since the last answer, failed write or
    failed read; an unknown answer alone does not use the READY up.
   */
  lemma WritesOnlyWhenReady(bufferSize: int, steps: seq<Step>, t: Listener)
    requires Runs(bufferSize, Initial(), steps, t)
    ensures t.pc == Fetching || t.pc.Sending? || t.pc == AwaitResult <==> IsReady(steps)
    ensures forall ok :: Enabled(t, Write(ok)) ==> IsReady(steps)
  {
    RunsReady(bufferSize, [], Initial(), steps, t);
    assert [] + steps == steps;
  }

  /** The goroutine that delivers has read an error instead of READY, or has seen stop. */
  predicate HasEnded(steps: seq<Step>) {
    ReadyFails in steps || FetchStopped in steps
  }

  lemma EndingStep(bufferSize: int, s: Listener, step: Step)
    requires Enabled(s, step)
    ensures Do(bufferSize, s, step).pc == Exited <==> s.pc == Exited || step == ReadyFails || step == FetchStopped
  {
  }

  lemma {:induction false} RunsEnd(bufferSize: int, s: Listener, steps: seq<Step>, t: Listener)
    requires Runs(bufferSize, s, steps, t)
    ensures t.pc == Exited <==> s.pc == Exited || HasEnded(steps)
    decreases |steps|
  {
    if steps != [] {
      EndingStep(bufferSize, s, steps[0]);
      assert forall x :: x in steps <==> x == steps[0] || x in steps[1..];
      RunsEnd(bufferSize, Do(bufferSize, s, steps[0]), steps[1..], t);
    }
  }

  /** Delivery ends if and only if a READY could not be read or stop was seen; failed writes and answers do not end it. */
  lemma EndsIff(bufferSize: int, steps: seq<Step>, t: Listener)
    requires Runs(bufferSize, Initial(), steps, t)
    ensures t.pc == Exited <==> HasEnded(steps)
  {
    RunsEnd(bufferSize, Initial(), steps, t);
  }

  ghost predicate CanGoTo(bufferSize: int, s: Listener, t: Listener) {
    exists steps :: Runs(bufferSize, s, steps, t) && HandedIn(steps) == []
  }

  lemma GoesTo(bufferSize: int, s: Listener, step: Step, t: Listener)
    requires Enabled(s, step) && !step.HandleEvent? && CanGoTo(bufferSize, Do(bufferSize, s, step), t)
    ensures CanGoTo(bufferSize, s, t)
  {
    var steps :| Runs(bufferSize, Do(bufferSize, s, step), steps, t) && HandedIn(steps) == [];
    assert ([step] + steps)[1..] == steps;
    assert Runs(bufferSize, s, [step] + steps, t);
  }

  lemma OneGoes(bufferSize: int, s: Listener, u: Listener, t: Listener)
    requires s.pc == AwaitReady && !s.stopped && s.queue != [] && u == Removing(bufferSize, s) && CanGoTo(bufferSize, u, t)
    ensures CanGoTo(bufferSize, s, t)
  {
    var a := Do(bufferSize, s, Ready);
    var b := Do(bufferSize, a, Fetch);
    var d := Do(bufferSize, b, Write(true));
    var e := Do(bufferSize, d, ResultOk);
    GoesTo(bufferSize, e, RemoveFirst, t);
    GoesTo(bufferSize, d, ResultOk, t);
    GoesTo(bufferSize, b, Write(true), t);
    GoesTo(bufferSize, a, Fetch, t);
    GoesTo(bufferSize, s, Ready, t);
  }

  /** Where READY, a write, its OK and the removal lead. */
  function Removing(bufferSize: int, s: Listener): Listener {
    var d := Do(bufferSize, Do(bufferSize, Do(bufferSize, s, Ready), Fetch), Write(true));
    Do(bufferSize, Do(bufferSize, d, ResultOk), RemoveFirst)
  }

  lemma GoneOne(log: seq<Entry>, sent: Entry, event: Event)
    requires sent.Sent?
    ensures Gone(log + [sent] + [Okayed] + [Removed(event)]) == Gone(log) + [event]
  {
    GonePush(log, sent);
    GonePush(log + [sent], Okayed);
    GonePush(log + [sent] + [Okayed], Removed(event));
  }

  lemma RemovingIs(bufferSize: int, s: Listener)
    requires s.pc == AwaitReady && !s.stopped && s.queue != []
    ensures var u := Removing(bufferSize, s);
            && u.pc == AwaitReady && !u.stopped && u.queue == s.queue[1..]
            && u.log == s.log + [Sent(|Gone(s.log)|, s.queue[0])] + [Okayed] + [Removed(s.queue[0])]
  {
  }

  /** The first event of the queue goes. */
  lemma FirstCanGo(bufferSize: int, s: Listener) returns (u: Listener)
    requires s.pc == AwaitReady && !s.stopped && s.queue != []
    ensures u.pc == AwaitReady && !u.stopped && u.queue == s.queue[1..] && Gone(u.log) == Gone(s.log) + [s.queue[0]]
    ensures forall t :: CanGoTo(bufferSize, u, t) ==> CanGoTo(bufferSize, s, t)
  {
    u := Removing(bufferSize, s);
    RemovingIs(bufferSize, s);
    GoneOne(s.log, Sent(|Gone(s.log)|, s.queue[0]), s.queue[0]);
    forall t | CanGoTo(bufferSize, u, t)
      ensures CanGoTo(bufferSize, s, t)
    {
      OneGoes(bufferSize, s, u, t);
    }
  }

  /** A listener that answers OK each time gets the whole queue. */
  lemma {:induction false} QueueCanGo(bufferSize: int, s: Listener) returns (t: Listener)
    requires s.pc == AwaitReady && !s.stopped
    ensures CanGoTo(bufferSize, s, t) && t.queue == [] && Gone(t.log) == Gone(s.log) + s.queue
    decreases |s.queue|
  {
    if s.queue == [] {
      t := s;
      assert Runs(bufferSize, s, [], s);
    } else {
      var u := FirstCanGo(bufferSize, s);
      t := QueueCanGo(bufferSize, u);
      FirstGone(Gone(s.log), s.queue);
    }
  }
}
