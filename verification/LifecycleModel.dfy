/**
  The life of one supervised process (process/process.go) as a system of interleaved steps.

  `Start`, the run loop, one exit waiter and one start monitor per attempt, and any number of
  concurrent `Stop` calls share the fields of `System`. A step performs at most one access to a
  variable that other goroutines touch without holding the lock (`state`, the two exit flags of an
  attempt, the child itself); everything else a step does is goroutine-local or protected by the
  lock. The operating system appears as the steps `ChildExits`, `SpawnOk`, `SpawnFails...` and
  `CreateFails`, which it may choose freely. A nil dereference ends the whole supervisor, after which no
  step is possible, unless it happens in a call of `Stop` made by an HTTP handler: net/http recovers
  it, and only the call ends.
 */
module LifecycleModel {

  /** The values of `State` that are ever stored (process/process.go:30-54). */
  datatype ProcState = Stopped | Starting | Running | Backoff | Stopping | Exited | Fatal

  /** The values of autorestart; Unexpected is the default and depends on the exit code. */
  datatype AutoRestart = Never | Always | Unexpected

  /** The settings read: startsecs, restartpause, startretries, autorestart, and whether it is a program or a listener. */
  datatype Settings = Settings(startSecs: int, restartPause: int, startRetries: int, autoRestart: AutoRestart, isProgram: bool)

  datatype Lock = Free | HeldByRun | HeldByMonitor(attempt: nat)

  /** Where the goroutine launched by `Start` is. */
  datatype RunPc =
    | Idle                      // no run loop exists
    | Launched                  // before the lock of `run`
    | Entry                     // lock held, before the IsRunning test
    | LoopTop                   // lock held, before the stopByUser test
    | Pausing                   // lock released for restartpause
    | PreStart(paused: bool)    // lock held, before state becomes Starting
    | Spawning(paused: bool, created: bool)    // lock held, before createProgramCommand or, with a new command, cmd.Start
    | Spawned                   // lock held, child exists, goroutines not launched yet
    | Looping                   // waiting for the child to exit, lock released
    | LoopDone                  // before programExited is set
    | AwaitMonitor               // waiting for monitorExited and then for the lock
    | Accounting                // lock held, before the state is read
    | Ending(last: ProcState)   // lock held, about to store the last state of this run
    | BackingOff                // lock held, about to store Backoff
    | RetryCheck                // lock held, before the retry count is compared
    | Returned                  // `run` returned, lock released
    | Leaving                   // before inStart is cleared

  /** Where the exit waiter of an attempt is; `Bound` holds the command it waits for. */
  datatype WaiterPc = Fresh | Bound(cmd: nat) | Stored | Closed

  /** Where the start monitor of an attempt is. */
  datatype MonitorPc = Timing | TimedOut | Locked | Checked | Promoting | Finishing

  /** Where a call of `Stop` is; `Aborted` is a call that a recovered nil dereference has ended. */
  datatype StopPc = Flagged(wait: bool) | Committed(wait: bool) | Storing(wait: bool) | Waiting | Detached | Done | Aborted

  /** Where the goroutine that sends the signals of a call of `Stop` is. */
  datatype SignalPc = SendStop | Check | SendKill

  /** The run loop: its program counter, its local variables and the fields only it writes. */
  datatype Loop = Loop(
    pc: RunPc,
    inStart: bool,
    retryTimes: nat,
    runs: nat,            // number of the current or latest call of `run`
    runOf: seq<nat>,      // for every attempt made so far, the call of `run` it belongs to
    cmd: nat,             // the attempt whose command p.cmd holds
    hasProcess: bool,     // p.cmd and p.cmd.Process are not nil
    endTime: int          // the instant at which the current attempt counts as started
  )

  /** Children by attempt: those alive, those that ever existed, and their waiters. */
  datatype Children = Children(live: set<nat>, spawned: set<nat>, waiters: map<nat, WaiterPc>)

  datatype Monitor = Monitor(pc: MonitorPc, endTime: int)

  /** Start monitors by attempt, and the two flags each attempt shares with its monitor. */
  datatype Monitors = Monitors(at: map<nat, Monitor>, programExited: set<nat>, monitorExited: set<nat>)

  /** Completion callbacks, by call of `run` (`pending` by attempt). */
  datatype Ledger = Ledger(
    pending: set<nat>,        // attempts with an unfinished `go finishCbWrapper()`
    once: set<nat>,           // calls of `run` whose sync.Once has fired
    refused: set<nat>,        // calls of `run` that found the process running
    fatal: set<nat>,          // calls of `run` that ended in Fatal
    calls: multiset<nat>      // every invocation of finishCb
  )

  /** The calls of `Stop`, the goroutines that send their signals, and whether one of them crashed. */
  datatype Callers = Callers(stops: map<nat, StopPc>, signallers: map<nat, SignalPc>, crashed: bool)

  datatype System = System(
    now: int,
    state: ProcState,
    stopByUser: bool,
    lock: Lock,
    loop: Loop,
    children: Children,
    monitors: Monitors,
    ledger: Ledger,
    callers: Callers
  )

  datatype ClientStep =
    | StartCall
    | StopFlag(call: nat, wait: bool)
    | StopTest(call: nat)
    | StopEvent(call: nat, recovers: bool)    // whether a panic in the goroutine of the caller is recovered
    | StopStore(call: nat)
    | Signal(call: nat)
    | SignalCheck(call: nat)
    | StopReturn(call: nat)

  /** The run loop, from its launch to the spawn of a child. */
  datatype LaunchStep =
    | Enter | Refuse | Begin
    | LoopStop | LoopPause | LoopGo | Resume
    | Prepare | Create | CreateFails | SpawnFailsFinally | SpawnFailsRetry | SpawnOk

  /** The run loop, from the spawn until it has seen the child exit. */
  datatype FinishStep =
    | LaunchGoroutines
    | SeeClosed | SeeNotRunning | MarkExited | TakeLock

  /** The run loop, from accounting for an attempt to its end. */
  datatype SettleStep =
    | Account | End | StoreBackoff | GiveUp | TryAgain
    | Rerun | Quit | Leave

  /** The exit waiter of an attempt, its child and the clock. */
  datatype WaitStep =
    | WaiterBind(attempt: nat) | WaiterStore(attempt: nat) | WaiterClose(attempt: nat)
    | ChildExits(attempt: nat)
    | Tick(delta: nat)

  /** The start monitor of an attempt, and the detached callback used when startsecs is not positive. */
  datatype MonitorStep =
    | MonitorTimeout(attempt: nat) | MonitorLock(attempt: nat)
    | MonitorLate(attempt: nat) | MonitorCheck(attempt: nat)
    | MonitorSkip(attempt: nat) | MonitorDecide(attempt: nat)
    | MonitorPromote(attempt: nat) | MonitorCallback(attempt: nat)
    | DetachedCallback(attempt: nat)

  datatype Step =
    | Client(client: ClientStep)
    | Launch(launch: LaunchStep)
    | Finish(finish: FinishStep)
    | Settle(settle: SettleStep)
    | Wait(wait: WaitStep)
    | Watch(watch: MonitorStep)

  function Initial(): System {
    System(0, Stopped, false, Free, Loop(Idle, false, 0, 0, [], 0, false, 0), Children({}, {}, map[]),
           Monitors(map[], {}, {}), Ledger({}, {}, {}, {}, multiset{}), Callers(map[], map[], false))
  }

  /** process/process.go:602-606 */
  predicate IsRunning(p: ProcState) {
    p == Starting || p == Running || p == Stopping
  }

  predicate Holds(pc: RunPc) {
    pc.Entry? || pc.LoopTop? || pc.PreStart? || pc.Spawning? || pc.Spawned? || pc.Accounting?
    || pc.Ending? || pc.BackingOff? || pc.RetryCheck?
  }

  /** The attempt being made; meaningful only once an attempt exists. */
  function Current(l: Loop): int {
    |l.runOf| - 1
  }

  predicate MustPause(c: Settings, l: Loop) {
    c.restartPause > 0 && l.retryTimes != 0
  }

  /** isAutoRestart may be true; with the default it needs a child that has exited (process/process.go:549-570). */
  predicate MayRestart(c: Settings, l: Loop) {
    c.autoRestart == Always || (c.autoRestart == Unexpected && l.hasProcess)
  }

  predicate WaiterAt(s: System, k: int, pc: WaiterPc) {
    k in s.children.waiters && s.children.waiters[k] == pc
  }

  predicate MonitorAt(s: System, k: int, pc: MonitorPc) {
    k in s.monitors.at && s.monitors.at[k].pc == pc
  }

  predicate StopAt(s: System, t: nat, pc: StopPc) {
    t in s.callers.stops && s.callers.stops[t] == pc
  }

  predicate ClientEnabled(s: System, step: ClientStep) {
    match step
    case StartCall => s.lock == Free && !s.loop.inStart
    case StopFlag(t, _) => s.lock == Free && t !in s.callers.stops
    case StopTest(t) => t in s.callers.stops && s.callers.stops[t].Flagged?
    case StopEvent(t, _) => t in s.callers.stops && s.callers.stops[t].Committed?
    case StopStore(t) => t in s.callers.stops && s.callers.stops[t].Storing?
    case Signal(t) => t in s.callers.signallers && !s.callers.signallers[t].Check? && s.lock == Free
    case SignalCheck(t) => t in s.callers.signallers && s.callers.signallers[t].Check?
    case StopReturn(t) => StopAt(s, t, Waiting) && !IsRunning(s.state)
  }

  predicate LaunchEnabled(c: Settings, s: System, step: LaunchStep) {
    match step
    case Enter => s.loop.pc == Launched && s.lock == Free
    case Refuse => s.loop.pc == Entry && IsRunning(s.state)
    case Begin => s.loop.pc == Entry && !IsRunning(s.state)
    case LoopStop => s.loop.pc == LoopTop && s.stopByUser
    case LoopPause => s.loop.pc == LoopTop && !s.stopByUser && MustPause(c, s.loop)
    case LoopGo => s.loop.pc == LoopTop && !s.stopByUser && !MustPause(c, s.loop)
    case Resume => s.loop.pc == Pausing && s.lock == Free
    case Prepare => s.loop.pc.PreStart?
    case Create => s.loop.pc.Spawning? && !s.loop.pc.created
    case CreateFails => s.loop.pc.Spawning?
    case SpawnFailsFinally => s.loop.pc.Spawning? && s.loop.pc.created && s.loop.retryTimes >= c.startRetries
    case SpawnFailsRetry => s.loop.pc.Spawning? && s.loop.pc.created && s.loop.retryTimes < c.startRetries
    case SpawnOk => s.loop.pc.Spawning? && s.loop.pc.created
  }

  predicate FinishEnabled(s: System, step: FinishStep) {
    match step
    case LaunchGoroutines => s.loop.pc == Spawned
    case SeeClosed => s.loop.pc == Looping && WaiterAt(s, Current(s.loop), Closed)
    case SeeNotRunning => s.loop.pc == Looping && !IsRunning(s.state)
    case MarkExited => s.loop.pc == LoopDone
    case TakeLock => s.loop.pc == AwaitMonitor && s.lock == Free && Current(s.loop) in s.monitors.monitorExited
  }

  predicate SettleEnabled(c: Settings, s: System, step: SettleStep) {
    match step
    case Account => s.loop.pc == Accounting
    case End => s.loop.pc.Ending?
    case StoreBackoff => s.loop.pc == BackingOff
    case GiveUp => s.loop.pc == RetryCheck && s.loop.retryTimes >= c.startRetries
    case TryAgain => s.loop.pc == RetryCheck && s.loop.retryTimes < c.startRetries
    case Rerun => s.loop.pc == Returned && !s.stopByUser && MayRestart(c, s.loop)
    case Quit => s.loop.pc == Returned && (s.stopByUser || c.autoRestart != Always)
    case Leave => s.loop.pc == Leaving && s.lock == Free
  }

  predicate WaitEnabled(s: System, step: WaitStep) {
    match step
    case WaiterBind(k) => WaiterAt(s, k, Fresh)
    case WaiterStore(k) =>
      k in s.children.waiters && s.children.waiters[k].Bound? && s.children.waiters[k].cmd !in s.children.live
    case WaiterClose(k) => WaiterAt(s, k, Stored) && s.lock == Free
    case ChildExits(k) => k in s.children.live
    case Tick(_) => true
  }

  predicate WatchEnabled(s: System, step: MonitorStep) {
    match step
    case MonitorTimeout(k) =>
      MonitorAt(s, k, Timing) && (s.now >= s.monitors.at[k].endTime || k in s.monitors.programExited)
    case MonitorLock(k) => MonitorAt(s, k, TimedOut) && s.lock == Free
    case MonitorLate(k) => MonitorAt(s, k, Locked) && k in s.monitors.programExited
    case MonitorCheck(k) => MonitorAt(s, k, Locked) && k !in s.monitors.programExited
    case MonitorSkip(k) => MonitorAt(s, k, Checked) && s.state != Starting
    case MonitorDecide(k) => MonitorAt(s, k, Checked) && s.state == Starting
    case MonitorPromote(k) => MonitorAt(s, k, Promoting)
    case MonitorCallback(k) => MonitorAt(s, k, Finishing)
    case DetachedCallback(k) => k in s.ledger.pending
  }

  /** Whether the goroutine concerned can take the step. */
  predicate Enabled(c: Settings, s: System, step: Step) {
    !s.callers.crashed &&
    match step
    case Client(x) => ClientEnabled(s, x)
    case Launch(x) => LaunchEnabled(c, s, x)
    case Finish(x) => FinishEnabled(s, x)
    case Settle(x) => SettleEnabled(c, s, x)
    case Wait(x) => WaitEnabled(s, x)
    case Watch(x) => WatchEnabled(s, x)
  }

  /** finishCbWrapper (process/process.go:764-766): finishCb behind a sync.Once. */
  function CallOnce(g: Ledger, r: nat): Ledger {
    if r in g.once then g
    else g.(once := g.once + {r}, calls := g.calls + multiset{r})
  }

  /** The run loop goes on at pc. */
  function Goto(s: System, pc: RunPc): System {
    s.(loop := s.loop.(pc := pc))
  }

  /** failToStartProgram followed by leaving `run` (process/process.go:716-720). */
  function Fail(s: System): System {
    var g := CallOnce(s.ledger, s.loop.runs);
    Goto(s, Returned).(state := Fatal, lock := Free, ledger := g.(fatal := g.fatal + {s.loop.runs}))
  }

  function SetWaiter(s: System, k: nat, w: WaiterPc): System {
    s.(children := s.children.(waiters := s.children.waiters[k := w]))
  }

  function SetMonitor(s: System, k: nat, pc: MonitorPc): System {
    if k in s.monitors.at
    then s.(monitors := s.monitors.(at := s.monitors.at[k := s.monitors.at[k].(pc := pc)]))
    else s
  }

  /** The call of `run` that attempt k belongs to. */
  function RunOf(l: Loop, k: nat): nat {
    if k < |l.runOf| then l.runOf[k] else 0
  }

  function SetStop(s: System, t: nat, pc: StopPc): System {
    s.(callers := s.callers.(stops := s.callers.stops[t := pc]))
  }

  function SetSignaller(s: System, t: nat, pc: SignalPc): System {
    s.(callers := s.callers.(signallers := s.callers.signallers[t := pc]))
  }

  function EndSignaller(s: System, t: nat): System {
    s.(callers := s.callers.(signallers := s.callers.signallers - {t}))
  }

  /** A nil dereference that nobody recovers. */
  function Crash(s: System): System {
    s.(callers := s.callers.(crashed := true))
  }

  /** The effect of a client step. */
  function ClientDo(c: Settings, s: System, step: ClientStep): System {
    match step
    case StartCall => s.(loop := s.loop.(inStart := true, pc := Launched), stopByUser := false)
    case StopFlag(t, wait) => SetStop(s, t, Flagged(wait)).(stopByUser := true)
    case StopTest(t) =>
      SetStop(s, t, if t in s.callers.stops && s.callers.stops[t].Flagged? && IsRunning(s.state)
                    then Committed(s.callers.stops[t].wait) else Done)
    case StopEvent(t, recovers) =>
      if c.isProgram && !s.loop.hasProcess
      then (if recovers then SetStop(s, t, Aborted) else Crash(s))
      else SetStop(s, t, Storing(StopAt(s, t, Committed(true))))
    case StopStore(t) =>
      SetSignaller(SetStop(s, t, if StopAt(s, t, Storing(true)) then Waiting else Detached), t, SendStop).(state := Stopping)
    case StopReturn(t) => SetStop(s, t, Done)
    case Signal(t) =>
      if !s.loop.hasProcess then Crash(s)
      else if t in s.callers.signallers && s.callers.signallers[t] == SendStop then SetSignaller(s, t, Check)
      else EndSignaller(s, t)
    case SignalCheck(t) => if IsRunning(s.state) then SetSignaller(s, t, SendKill) else EndSignaller(s, t)
  }

  /** The effect of a run-loop step up to the spawn. */
  function LaunchDo(c: Settings, s: System, step: LaunchStep): System {
    match step
    case Enter => s.(lock := HeldByRun, loop := s.loop.(pc := Entry, runs := s.loop.runs + 1))
    case Refuse =>
      Goto(s, Returned).(lock := Free,
         ledger := s.ledger.(refused := s.ledger.refused + {s.loop.runs}, calls := s.ledger.calls + multiset{s.loop.runs}))
    case Begin => s.(loop := s.loop.(pc := LoopTop, retryTimes := 0))
    case LoopStop => Goto(s, Returned).(lock := Free)
    case LoopPause => Goto(s, Pausing).(lock := Free)
    case LoopGo => Goto(s, PreStart(false))
    case Resume => Goto(s, PreStart(true)).(lock := HeldByRun)
    case Prepare =>
      s.(state := Starting,
         loop := s.loop.(pc := Spawning(s.loop.pc == PreStart(true), false), retryTimes := s.loop.retryTimes + 1,
                         runOf := s.loop.runOf + [s.loop.runs], endTime := s.now + c.startSecs))
    case Create =>
      if s.loop.pc.Spawning?
      then s.(loop := s.loop.(pc := Spawning(s.loop.pc.paused, true), cmd := Last(s.loop), hasProcess := false))
      else s
    case CreateFails => Fail(s)
    case SpawnFailsFinally => Fail(s)
    case SpawnFailsRetry => s.(state := Backoff, loop := s.loop.(pc := LoopTop))
    case SpawnOk =>
      s.(loop := s.loop.(pc := Spawned, hasProcess := true),
         children := s.children.(live := s.children.live + {Last(s.loop)}, spawned := s.children.spawned + {Last(s.loop)}))
  }

  /** The current attempt as a natural number. */
  function Last(l: Loop): nat {
    if l.runOf == [] then 0 else |l.runOf| - 1
  }

  /** The effect of a run-loop step while the child is watched. */
  function FinishDo(c: Settings, s: System, step: FinishStep): System {
    match step
    case LaunchGoroutines =>
      var k := Last(s.loop);
      var t := SetWaiter(Goto(s, Looping).(lock := Free), k, Fresh);
      if c.startSecs <= 0
      then t.(state := Running,
              monitors := s.monitors.(monitorExited := s.monitors.monitorExited + {k}),
              ledger := s.ledger.(pending := s.ledger.pending + {k}))
      else t.(monitors := s.monitors.(at := s.monitors.at[k := Monitor(Timing, s.loop.endTime)]))
    case SeeClosed => Goto(s, LoopDone)
    case SeeNotRunning => Goto(s, LoopDone)
    case MarkExited =>
      Goto(s, AwaitMonitor).(monitors := s.monitors.(programExited := s.monitors.programExited + {Last(s.loop)}))
    case TakeLock => Goto(s, Accounting).(lock := HeldByRun)
  }

  /** The effect of a run-loop step that settles an attempt. */
  function SettleDo(s: System, step: SettleStep): System {
    match step
    case Account =>
      if s.state == Running || s.state == Stopping
      then Goto(s, Ending(if s.stopByUser then Stopped else Exited))
      else Goto(s, BackingOff)
    case End => if s.loop.pc.Ending? then Goto(s, Returned).(state := s.loop.pc.last, lock := Free) else s
    case StoreBackoff => Goto(s, RetryCheck).(state := Backoff)
    case GiveUp => Fail(s)
    case TryAgain => Goto(s, LoopTop)
    case Rerun => Goto(s, Launched)
    case Quit => Goto(s, Leaving)
    case Leave => s.(loop := s.loop.(pc := Idle, inStart := false))
  }

  /** The effect of a step of a waiter or of the environment. */
  function WaitDo(s: System, step: WaitStep): System {
    match step
    case WaiterBind(k) => SetWaiter(s, k, Bound(s.loop.cmd))
    case WaiterStore(k) => SetWaiter(s, k, Stored).(state := Stopped)
    case WaiterClose(k) => SetWaiter(s, k, Closed)
    case ChildExits(k) => s.(children := s.children.(live := s.children.live - {k}))
    case Tick(d) => s.(now := s.now + d)
  }

  /** The effect of a step of a monitor or of a detached callback. */
  function WatchDo(s: System, step: MonitorStep): System {
    match step
    case MonitorTimeout(k) =>
      var t := SetMonitor(s, k, TimedOut);
      t.(monitors := t.monitors.(monitorExited := s.monitors.monitorExited + {k}))
    case MonitorLock(k) => SetMonitor(s, k, Locked).(lock := HeldByMonitor(k))
    case MonitorLate(k) => SetMonitor(s, k, Finishing).(lock := Free)
    case MonitorCheck(k) => SetMonitor(s, k, Checked)
    case MonitorSkip(k) => SetMonitor(s, k, Finishing).(lock := Free)
    case MonitorDecide(k) => SetMonitor(s, k, Promoting)
    case MonitorPromote(k) => SetMonitor(s, k, Finishing).(state := Running, lock := Free)
    case MonitorCallback(k) =>
      s.(monitors := s.monitors.(at := s.monitors.at - {k}), ledger := CallOnce(s.ledger, RunOf(s.loop, k)))
    case DetachedCallback(k) =>
      s.(ledger := CallOnce(s.ledger.(pending := s.ledger.pending - {k}), RunOf(s.loop, k)))
  }

  function Do(c: Settings, s: System, step: Step): System {
    match step
    case Client(x) => ClientDo(c, s, x)
    case Launch(x) => LaunchDo(c, s, x)
    case Finish(x) => FinishDo(c, s, x)
    case Settle(x) => SettleDo(s, x)
    case Wait(x) => WaitDo(s, x)
    case Watch(x) => WatchDo(s, x)
  }

  /** The steps lead from s to t, each enabled where it is taken. */
  ghost predicate Runs(c: Settings, s: System, steps: seq<Step>, t: System)
    decreases |steps|
  {
    if steps == [] then s == t
    else Enabled(c, s, steps[0]) && Runs(c, Do(c, s, steps[0]), steps[1..], t)
  }

  ghost predicate CanReach(c: Settings, s: System, t: System) {
    exists steps :: Runs(c, s, steps, t)
  }

  ghost predicate Reachable(c: Settings, s: System) {
    CanReach(c, Initial(), s)
  }

  lemma {:induction false} RunsAppend(c: Settings, s: System, steps: seq<Step>, t: System, step: Step)
    requires Runs(c, s, steps, t) && Enabled(c, t, step)
    ensures Runs(c, s, steps + [step], Do(c, t, step))
    decreases |steps|
  {
    if steps == [] {
      assert (steps + [step])[1..] == [];
    } else {
      RunsAppend(c, Do(c, s, steps[0]), steps[1..], t, step);
      assert (steps + [step])[1..] == steps[1..] + [step];
    }
  }

  lemma ReachSelf(c: Settings, s: System)
    ensures CanReach(c, s, s)
  {
    assert Runs(c, s, [], s);
  }

  /** One more step extends what can be reached. */
  lemma ReachStep(c: Settings, s: System, t: System, step: Step)
    requires CanReach(c, s, t) && Enabled(c, t, step)
    ensures CanReach(c, s, Do(c, t, step))
  {
    var steps :| Runs(c, s, steps, t);
    RunsAppend(c, s, steps, t, step);
  }

  lemma {:induction false} RunsConcat(c: Settings, s: System, p: seq<Step>, t: System, q: seq<Step>, u: System)
    requires Runs(c, s, p, t) && Runs(c, t, q, u)
    ensures Runs(c, s, p + q, u)
    decreases |p|
  {
    if p == [] {
      assert p + q == q;
    } else {
      RunsConcat(c, Do(c, s, p[0]), p[1..], t, q, u);
      assert (p + q)[1..] == p[1..] + q;
    }
  }

  lemma ReachTrans(c: Settings, s: System, t: System, u: System)
    requires CanReach(c, s, t) && CanReach(c, t, u)
    ensures CanReach(c, s, u)
  {
    var p :| Runs(c, s, p, t);
    var q :| Runs(c, t, q, u);
    RunsConcat(c, s, p, t, q, u);
  }
}
