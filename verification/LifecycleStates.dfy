/**
  What the state of a process says about it, in every interleaving: which states can be stored where
  the run loop is, when Running is reported, and by what an attempt is judged.
 */
module LifecycleStates {
  import opened LifecycleModel
  import opened LifecycleInvariant
  import opened LifecycleTheorems
  import opened LifecycleDiscipline
  import opened LifecycleRecovery

  // ---------------------------------------------------------------- which states can be stored

  /** The waiter of the current attempt has not stored Stopped yet. */
  predicate Unwaited(s: System) {
    Current(s.loop) in s.children.waiters && PreStore(s.children.waiters[Current(s.loop)])
  }

  /** The child has gone and its waiter has stored Stopped; a Stop or a late monitor may have stored something since. */
  predicate FitsGone(c: Settings, p: ProcState) {
    p == Stopped || p == Stopping || (p == Running && c.startSecs > 0)
  }

  predicate FitsBetween(p: ProcState) {
    p == Backoff || p == Stopping
  }

  predicate FitsQuiet(s: System) {
    && s.state != Starting && s.state != Running
    && (s.loop.runs in s.ledger.fatal && !s.loop.pc.Launched? ==> s.state == Fatal || s.state == Stopping)
  }

  /** The states that can be stored where the run loop is. */
  predicate StateFits(c: Settings, s: System) {
    match s.loop.pc
    case Spawning(_, _) => s.state == Starting || s.state == Stopping
    case Spawned => s.state == Starting || s.state == Stopping
    case Looping =>
      if Unwaited(s) then s.state == Running || s.state == Stopping || (s.state == Starting && c.startSecs > 0)
      else FitsGone(c, s.state)
    case LoopDone => FitsGone(c, s.state)
    case AwaitMonitor => FitsGone(c, s.state)
    case Accounting => FitsGone(c, s.state)
    case Ending(last) => (s.state == Running || s.state == Stopping) && (last == Exited || (last == Stopped && s.stopByUser))
    case BackingOff => s.state == Stopped || s.state == Stopping
    case RetryCheck => FitsBetween(s.state)
    case Pausing => FitsBetween(s.state)
    case LoopTop => if s.loop.retryTimes > 0 then FitsBetween(s.state) else FitsQuiet(s)
    case PreStart(_) => if s.loop.retryTimes > 0 then FitsBetween(s.state) else FitsQuiet(s)
    case _ => FitsQuiet(s)
  }

  /** Only a call of `run` that has failed counts as failed. */
  predicate FailedLast(s: System) {
    s.loop.pc == Entry || BeforeAttempt(s.loop.pc) || InAttempt(s.loop.pc) ==> s.loop.runs !in s.ledger.fatal
  }

  /** Running is stored only when the time of the current attempt is up. */
  predicate RunningIsDue(c: Settings, s: System) {
    && (s.state == Running ==> s.now >= s.loop.endTime)
    && (s.loop.runOf != [] ==> s.loop.endTime <= s.now + c.startSecs)
  }

  /** There are monitors only where startsecs is positive. */
  predicate MonitorsTimed(c: Settings, s: System) {
    s.monitors.at != map[] ==> c.startSecs > 0
  }

  /** The current attempt is marked as exited only once the run loop has seen its child exit. */
  predicate NotYetExited(s: System) {
    s.loop.pc.Spawning? || s.loop.pc == Spawned || s.loop.pc == Looping || s.loop.pc == LoopDone ==>
      Last(s.loop) !in s.monitors.programExited
  }

  /** An attempt is settled only when its monitor has come to its end. */
  predicate MonitorDone(s: System) {
    s.loop.pc == Accounting || s.loop.pc.Ending? || s.loop.pc == BackingOff || s.loop.pc == RetryCheck ==>
      Last(s.loop) in s.monitors.monitorExited
  }

  /** As long as a child that is watched counts as starting, its monitor has not made up its mind against it. */
  predicate StillToPromote(s: System) {
    s.loop.pc == Looping && s.state == Starting ==>
      Last(s.loop) in s.monitors.at && s.monitors.at[Last(s.loop)].pc != Finishing
  }

  predicate MonitorsReport(c: Settings, s: System) {
    MonitorsTimed(c, s) && NotYetExited(s) && MonitorDone(s) && StillToPromote(s)
  }

  ghost predicate ReportInv(c: Settings, s: System) {
    StateFits(c, s) && FailedLast(s) && RunningIsDue(c, s) && MonitorsReport(c, s)
  }

  lemma ClientKeepsReport(c: Settings, s: System, step: ClientStep)
    requires LockInv(s) && ReportInv(c, s) && ClientEnabled(s, step)
    requires StateInv(s) && ChildInv(s)
    ensures ReportInv(c, ClientDo(c, s, step))
  {
    ClientLeaves(c, s, step);
  }

  lemma LaunchKeepsReport(c: Settings, s: System, step: LaunchStep)
    requires FreshInv(s) && CalledInv(s) && ScopeInv(s) && RetryInv(c, s.loop) && ReportInv(c, s) && LaunchEnabled(c, s, step)
    ensures ReportInv(c, LaunchDo(c, s, step))
  {
    LaunchLeaves(c, s, step);
  }

  lemma FinishKeepsMonitors(c: Settings, s: System, step: FinishStep)
    requires ScopeInv(s) && StateFits(c, s) && MonitorsReport(c, s) && FinishEnabled(s, step)
    ensures MonitorsReport(c, FinishDo(c, s, step))
  {
  }

  lemma FinishKeepsReport(c: Settings, s: System, step: FinishStep)
    requires ScopeInv(s) && ChildInv(s) && StateInv(s) && ReportInv(c, s) && FinishEnabled(s, step)
    ensures ReportInv(c, FinishDo(c, s, step))
  {
    FinishKeepsMonitors(c, s, step);
  }

  lemma SettleKeepsMonitors(c: Settings, s: System, step: SettleStep)
    requires MonitorsReport(c, s) && SettleEnabled(c, s, step)
    ensures MonitorsReport(c, SettleDo(s, step))
  {
    SettleLeaves(c, s, step);
  }

  lemma SettleKeepsReport(c: Settings, s: System, step: SettleStep)
    requires ScopeInv(s) && RetryInv(c, s.loop) && ReportInv(c, s) && SettleEnabled(c, s, step)
    ensures ReportInv(c, SettleDo(s, step))
  {
    SettleLeaves(c, s, step);
    SettleKeepsMonitors(c, s, step);
  }

  lemma WaitKeepsReport(c: Settings, s: System, step: WaitStep)
    requires ChildInv(s) && ReportInv(c, s) && WaitEnabled(s, step)
    ensures ReportInv(c, WaitDo(s, step))
  {
  }

  lemma WatchKeepsReport(c: Settings, s: System, step: MonitorStep)
    requires MonitorInv(s) && ReportInv(c, s) && WatchEnabled(s, step)
    ensures ReportInv(c, WatchDo(s, step))
  {
  }

  lemma StepKeepsReport(c: Settings, s: System, step: Step)
    requires Inv(c, s) && ReportInv(c, s) && Enabled(c, s, step)
    ensures ReportInv(c, Do(c, s, step))
  {
    match step {
      case Client(x) => ClientKeepsReport(c, s, x);
      case Launch(x) => LaunchKeepsReport(c, s, x);
      case Finish(x) => FinishKeepsReport(c, s, x);
      case Settle(x) => SettleKeepsReport(c, s, x);
      case Wait(x) => WaitKeepsReport(c, s, x);
      case Watch(x) => WatchKeepsReport(c, s, x);
    }
  }

  lemma {:induction false} RunsKeepReport(c: Settings, s: System, steps: seq<Step>, t: System)
    requires Inv(c, s) && ReportInv(c, s) && Runs(c, s, steps, t)
    ensures ReportInv(c, t)
    decreases |steps|
  {
    if steps != [] {
      StepKeepsReport(c, s, steps[0]);
      StepInv(c, s, steps[0]);
      RunsKeepReport(c, Do(c, s, steps[0]), steps[1..], t);
    }
  }

  lemma ReachableReport(c: Settings, s: System)
    requires Reachable(c, s)
    ensures Inv(c, s) && ReportInv(c, s)
  {
    ReachableInv(c, s);
    InitialInv(c);
    var steps :| Runs(c, Initial(), steps, s);
    RunsKeepReport(c, Initial(), steps, s);
  }

  /**
    Starting and Running are never left over: they are stored only while an attempt is under way. So a
    state that claims to be running without one is Stopping.
   */
  lemma NeverStale(c: Settings, s: System)
    requires Reachable(c, s) && (s.state == Starting || s.state == Running)
    ensures InAttempt(s.loop.pc) && s.loop.pc != BackingOff && s.loop.pc != RetryCheck
  {
    ReachableReport(c, s);
  }

  /** Between two attempts of a call of `run` the state is Backoff, unless a Stop has stored Stopping. */
  lemma BackoffBetween(c: Settings, s: System)
    requires Reachable(c, s) && s.loop.retryTimes > 0 && (s.loop.pc == RetryCheck || BeforeAttempt(s.loop.pc))
    ensures s.state == Backoff || s.state == Stopping
  {
    ReachableReport(c, s);
  }

  /** After a call of `run` that has failed the state is Fatal until the next one, unless a Stop has stored Stopping. */
  lemma FatalStays(c: Settings, s: System)
    requires Reachable(c, s) && s.loop.runs in s.ledger.fatal && !s.loop.pc.Launched?
    ensures s.state == Fatal || s.state == Stopping
  {
    ReachableReport(c, s);
  }

  /** An attempt ends as Stopped only if Stop was called, and else as Exited. */
  lemma EndsAs(c: Settings, s: System)
    requires Reachable(c, s) && s.loop.pc.Ending?
    ensures s.loop.pc.last == Exited || (s.loop.pc.last == Stopped && s.stopByUser)
  {
    ReachableReport(c, s);
  }

  // ---------------------------------------------------------------- when Running is reported

  predicate WithoutPrepare(steps: seq<Step>) {
    forall i | 0 <= i < |steps| :: steps[i] != Launch(Prepare)
  }

  lemma {:induction false} SameAttempt(c: Settings, s: System, steps: seq<Step>, t: System)
    requires Runs(c, s, steps, t) && WithoutPrepare(steps)
    ensures t.loop.endTime == s.loop.endTime && t.loop.runOf == s.loop.runOf
    decreases |steps|
  {
    if steps != [] {
      assert steps[0] != Launch(Prepare) && forall i | 0 <= i < |steps[1..]| :: steps[1..][i] == steps[i + 1];
      StepsInAttempt(c, s, steps[0]);
      SameAttempt(c, Do(c, s, steps[0]), steps[1..], t);
    }
  }

  lemma StepsInAttempt(c: Settings, s: System, step: Step)
    requires Enabled(c, s, step) && step != Launch(Prepare)
    ensures Do(c, s, step).loop.endTime == s.loop.endTime && Do(c, s, step).loop.runOf == s.loop.runOf
  {
    match step {
      case Client(x) => ClientLeaves(c, s, x);
      case Launch(x) => LaunchLeaves(c, s, x);
      case Settle(x) => SettleLeaves(c, s, x);
      case Finish(_) =>
      case Wait(_) =>
      case Watch(_) =>
    }
  }

  /**
    From when an attempt is prepared until the next one is, a monitor promotes no earlier than startsecs
    later, and Running is not reported earlier either.
   */
  lemma RunningAfterStartSecs(c: Settings, s: System, steps: seq<Step>, t: System)
    requires Reachable(c, s) && Enabled(c, s, Launch(Prepare))
    requires Runs(c, Do(c, s, Launch(Prepare)), steps, t) && WithoutPrepare(steps)
    ensures forall k :: WatchEnabled(t, MonitorPromote(k)) ==> k == |s.loop.runOf| && t.now >= s.now + c.startSecs
    ensures t.state == Running ==> t.now >= s.now + c.startSecs
  {
    var u := Do(c, s, Launch(Prepare));
    ReachSelf(c, u);
    ReachStep(c, Initial(), s, Launch(Prepare));
    assert CanReach(c, u, t);
    ReachTrans(c, Initial(), u, t);
    SameAttempt(c, u, steps, t);
    forall k | WatchEnabled(t, MonitorPromote(k))
      ensures k == |s.loop.runOf| && t.now >= s.now + c.startSecs
    {
      PromotionIsTimely(c, t, k);
    }
    ReachableReport(c, t);
  }

  /** Without a start time the state is Running, or Stopping after a Stop, as long as the child is waited for. */
  lemma RunningAtOnce(c: Settings, s: System)
    requires Reachable(c, s) && c.startSecs <= 0 && s.loop.pc == Looping && s.children.live != {}
    ensures s.state == Running || s.state == Stopping
  {
    ReachableReport(c, s);
  }

  predicate NoClients(steps: seq<Step>) {
    forall i | 0 <= i < |steps| :: !steps[i].Client?
  }

  /** The process goes on from s to t while nobody calls. */
  ghost predicate GoesOn(c: Settings, s: System, t: System) {
    exists steps :: Runs(c, s, steps, t) && NoClients(steps)
  }

  lemma Goes(c: Settings, s: System, t: System, step: Step) returns (u: System)
    requires GoesOn(c, s, t) && Enabled(c, t, step) && !step.Client?
    ensures u == Do(c, t, step) && GoesOn(c, s, u)
  {
    u := Do(c, t, step);
    var steps :| Runs(c, s, steps, t) && NoClients(steps);
    RunsAppend(c, s, steps, t, step);
    assert NoClients(steps + [step]);
  }

  lemma GoesFrom(c: Settings, s: System)
    ensures GoesOn(c, s, s)
  {
    assert Runs(c, s, [], s);
  }

  /** Nothing but the state, the clock and the monitors has changed. */
  predicate OnlyWatched(s: System, t: System) {
    t.children == s.children && t.loop == s.loop && t.callers == s.callers && t.stopByUser == s.stopByUser && t.lock == s.lock
  }

  /**
    With one, a child that lives on until then is promoted: as long as the state is Starting its monitor is
    at work, and when nobody holds the lock it can come to report Running without anybody's doing.
   */
  lemma PromotionHappens(c: Settings, s: System) returns (t: System)
    requires Reachable(c, s) && !s.callers.crashed && s.loop.pc == Looping && s.state == Starting && s.lock == Free
    ensures GoesOn(c, s, t) && t.state == Running && OnlyWatched(s, t) && Last(s.loop) in t.monitors.monitorExited
  {
    var k := Last(s.loop);
    ReachableReport(c, s);
    GoesFrom(c, s);
    if MonitorAt(s, k, Timing) {
      t := TimeUp(c, s, k);
      t := Promoted(c, s, t, k);
    } else {
      TimedOutMonitor(c, s, k);
      t := Promoted(c, s, s, k);
    }
  }

  /** Outside its critical section a monitor that still has to decide waits for the time or for the lock. */
  lemma TimedOutMonitor(c: Settings, s: System, k: nat)
    requires LockInv(s) && MonitorInv(s) && ReportInv(c, s) && s.loop.pc == Looping && s.state == Starting && s.lock == Free
    requires k == Last(s.loop) && !MonitorAt(s, k, Timing) && ScopeInv(s)
    ensures MonitorAt(s, k, TimedOut) && k in s.monitors.monitorExited && k !in s.monitors.programExited
  {
  }

  lemma TimeUp(c: Settings, s: System, k: nat) returns (t: System)
    requires GoesOn(c, s, s) && !s.callers.crashed && MonitorAt(s, k, Timing) && k !in s.monitors.programExited && s.lock == Free
    ensures GoesOn(c, s, t) && t.state == s.state && OnlyWatched(s, t) && k in t.monitors.monitorExited
    ensures MonitorAt(t, k, TimedOut) && k !in t.monitors.programExited
  {
    var wait: nat := Max(0, s.monitors.at[k].endTime - s.now);
    t := Goes(c, s, s, Wait(Tick(wait)));
    t := Goes(c, s, t, Watch(MonitorTimeout(k)));
  }

  lemma Promoted(c: Settings, s: System, t: System, k: nat) returns (u: System)
    requires GoesOn(c, s, t) && !t.callers.crashed && t.state == Starting && t.lock == Free
    requires MonitorAt(t, k, TimedOut) && k !in t.monitors.programExited && k in t.monitors.monitorExited
    ensures GoesOn(c, s, u) && u.state == Running && OnlyWatched(t, u) && k in u.monitors.monitorExited
  {
    u := Goes(c, s, t, Watch(MonitorLock(k)));
    u := Goes(c, s, u, Watch(MonitorCheck(k)));
    u := Goes(c, s, u, Watch(MonitorDecide(k)));
    u := Goes(c, s, u, Watch(MonitorPromote(k)));
  }

  /** Neither is the state Starting or Running, nor has a monitor made up its mind to report Running. */
  predicate NotToRun(s: System) {
    s.state != Starting && s.state != Running && forall k | k in s.monitors.at :: s.monitors.at[k].pc != Promoting
  }

  lemma LoopStaysNotToRun(c: Settings, s: System, step: Step)
    requires c.startSecs > 0 && StateInv(s) && NotToRun(s) && Enabled(c, s, step) && step != Launch(Prepare)
    requires step.Launch? || step.Finish? || step.Settle?
    ensures NotToRun(Do(c, s, step))
  {
  }

  lemma OthersStayNotToRun(c: Settings, s: System, step: Step)
    requires NotToRun(s) && Enabled(c, s, step) && (step.Client? || step.Wait? || step.Watch?)
    ensures NotToRun(Do(c, s, step))
  {
  }

  lemma StaysNotToRun(c: Settings, s: System, step: Step)
    requires c.startSecs > 0 && StateInv(s) && NotToRun(s) && Enabled(c, s, step) && step != Launch(Prepare)
    ensures NotToRun(Do(c, s, step))
  {
    if step.Launch? || step.Finish? || step.Settle? {
      LoopStaysNotToRun(c, s, step);
    } else {
      OthersStayNotToRun(c, s, step);
    }
  }

  lemma {:induction false} RunsNotToRun(c: Settings, s: System, steps: seq<Step>, t: System)
    requires c.startSecs > 0 && Inv(c, s) && NotToRun(s) && Runs(c, s, steps, t) && WithoutPrepare(steps)
    ensures NotToRun(t)
    decreases |steps|
  {
    if steps != [] {
      assert steps[0] != Launch(Prepare) && forall i | 0 <= i < |steps[1..]| :: steps[1..][i] == steps[i + 1];
      StaysNotToRun(c, s, steps[0]);
      StepInv(c, s, steps[0]);
      RunsNotToRun(c, Do(c, s, steps[0]), steps[1..], t);
    }
  }

  /**
    Once a Stop has stored Stopping, a monitor reports Running before the next attempt only if it had made
    up its mind already.
   */
  lemma StoppingIsKept(c: Settings, s: System, call: nat, steps: seq<Step>, t: System)
    requires c.startSecs > 0 && Reachable(c, s) && Enabled(c, s, Client(StopStore(call)))
    requires forall k | k in s.monitors.at :: s.monitors.at[k].pc != Promoting
    requires Runs(c, Do(c, s, Client(StopStore(call))), steps, t) && WithoutPrepare(steps)
    ensures t.state != Starting && t.state != Running
  {
    ReachableInv(c, s);
    StepInv(c, s, Client(StopStore(call)));
    RunsNotToRun(c, Do(c, s, Client(StopStore(call))), steps, t);
  }

  /** When an attempt is settled its monitor has seen the time run out or the child exit. */
  lemma SettledAfterMonitor(c: Settings, s: System)
    requires Reachable(c, s) && (s.loop.pc == Accounting || s.loop.pc.Ending? || s.loop.pc == BackingOff || s.loop.pc == RetryCheck)
    ensures Current(s.loop) in s.monitors.monitorExited
  {
    ReachableReport(c, s);
  }

  // ---------------------------------------------------------------- by what an attempt is judged

  /** What a Stop or a monitor stores in this step; q if it stores nothing. */
  function StoredBy(q: ProcState, step: Step): ProcState {
    match step
    case Client(StopStore(_)) => Stopping
    case Watch(MonitorPromote(_)) => Running
    case _ => q
  }

  /** The last of such stores. */
  function LastStored(q: ProcState, steps: seq<Step>): ProcState
    decreases |steps|
  {
    if steps == [] then q else LastStored(StoredBy(q, steps[0]), steps[1..])
  }

  /** The child of the current attempt has gone, its waiter has stored Stopped, and the attempt is not settled. */
  predicate Gone(s: System) {
    (s.loop.pc == Looping && !Unwaited(s)) || s.loop.pc == LoopDone || s.loop.pc == AwaitMonitor || s.loop.pc == Accounting
  }

  predicate BeforeSettling(steps: seq<Step>) {
    forall i | 0 <= i < |steps| :: !steps[i].Settle?
  }

  lemma LoopWhileGone(c: Settings, s: System, step: Step)
    requires Gone(s) && Enabled(c, s, step) && (step.Launch? || step.Finish?)
    ensures Gone(Do(c, s, step)) && Do(c, s, step).state == s.state
  {
  }

  lemma ClientWhileGone(c: Settings, s: System, step: Step)
    requires LockInv(s) && Gone(s) && Enabled(c, s, step) && step.Client?
    ensures Gone(Do(c, s, step)) && Do(c, s, step).state == StoredBy(s.state, step)
  {
  }

  lemma OthersWhileGone(c: Settings, s: System, step: Step)
    requires ChildInv(s) && Gone(s) && Enabled(c, s, step) && (step.Wait? || step.Watch?)
    ensures Gone(Do(c, s, step)) && Do(c, s, step).state == StoredBy(s.state, step)
  {
  }

  lemma StepWhileGone(c: Settings, s: System, step: Step)
    requires Inv(c, s) && Gone(s) && Enabled(c, s, step) && !step.Settle?
    ensures Gone(Do(c, s, step)) && Do(c, s, step).state == StoredBy(s.state, step) && Inv(c, Do(c, s, step))
  {
    if step.Launch? || step.Finish? {
      LoopWhileGone(c, s, step);
    } else if step.Client? {
      ClientWhileGone(c, s, step);
    } else {
      OthersWhileGone(c, s, step);
    }
    StepInv(c, s, step);
  }

  lemma RestSettling(q: ProcState, steps: seq<Step>)
    requires steps != [] && BeforeSettling(steps)
    ensures !steps[0].Settle? && BeforeSettling(steps[1..]) && LastStored(q, steps) == LastStored(StoredBy(q, steps[0]), steps[1..])
  {
  }

  lemma {:induction false} StoredWhileGone(c: Settings, s: System, steps: seq<Step>, t: System)
    requires Inv(c, s) && Gone(s) && Runs(c, s, steps, t) && BeforeSettling(steps)
    ensures t.state == LastStored(s.state, steps)
    decreases |steps|
  {
    if steps != [] {
      RestSettling(s.state, steps);
      StepWhileGone(c, s, steps[0]);
      StoredWhileGone(c, Do(c, s, steps[0]), steps[1..], t);
    }
  }

  /** Neither a Stop nor a monitor stores anything. */
  predicate StoresNothing(steps: seq<Step>) {
    forall step | step in steps :: StoredBy(Stopped, step) == Stopped
  }

  lemma {:induction false} NothingStored(steps: seq<Step>)
    requires StoresNothing(steps)
    ensures LastStored(Stopped, steps) == Stopped
    decreases |steps|
  {
    if steps != [] {
      assert steps[0] in steps && forall step | step in steps[1..] :: step in steps;
      NothingStored(steps[1..]);
    }
  }

  lemma WaiterStoreGone(c: Settings, s: System, k: nat)
    requires Reachable(c, s) && Enabled(c, s, Wait(WaiterStore(k)))
    ensures var u := Do(c, s, Wait(WaiterStore(k))); Reachable(c, u) && Inv(c, u) && Gone(u) && u.state == Stopped
  {
    ReachableInv(c, s);
    StepInv(c, s, Wait(WaiterStore(k)));
    ReachStep(c, Initial(), s, Wait(WaiterStore(k)));
  }

  lemma AccountJudges(c: Settings, t: System)
    requires SettleEnabled(c, t, Account)
    ensures Do(c, t, Settle(Account)).loop.pc == BackingOff <==> !(t.state == Running || t.state == Stopping)
  {
  }

  /**
    The waiter stores Stopped before the run loop looks, so that a child that has exited counts as a
    failed start, however long it ran, unless a Stop or a late monitor has stored something since.
   */
  lemma ExitCountsAsFailure(c: Settings, s: System, k: nat, steps: seq<Step>, t: System)
    requires Reachable(c, s) && Enabled(c, s, Wait(WaiterStore(k)))
    requires Runs(c, Do(c, s, Wait(WaiterStore(k))), steps, t) && BeforeSettling(steps) && SettleEnabled(c, t, Account)
    ensures Do(c, t, Settle(Account)).loop.pc == BackingOff <==> LastStored(Stopped, steps) == Stopped
    ensures StoresNothing(steps) ==> Do(c, t, Settle(Account)).loop.pc == BackingOff
  {
    WaiterStoreGone(c, s, k);
    StoredWhileGone(c, Do(c, s, Wait(WaiterStore(k))), steps, t);
    AccountJudges(c, t);
    StoredStates(steps);
    if StoresNothing(steps) {
      NothingStored(steps);
    }
  }

  lemma {:induction false} StoredStates(steps: seq<Step>, q: ProcState := Stopped)
    requires q == Stopped || q == Running || q == Stopping
    ensures var p := LastStored(q, steps); p == Stopped || p == Running || p == Stopping
    decreases |steps|
  {
    if steps != [] {
      StoredStates(steps[1..], StoredBy(q, steps[0]));
    }
  }

  // ---------------------------------------------------------------- started again in spite of autorestart

  /** A first child is reported as Running. */
  predicate FirstRuns(s: System) {
    && s.state == Running && s.loop.pc == Looping && s.lock == Free && s.loop.retryTimes == 1 && s.loop.runOf == [1] && s.loop.cmd == 0
    && s.children.live == {0} && WaiterAt(s, 0, Fresh) && 0 in s.monitors.monitorExited
    && s.callers == Initial().callers && !s.stopByUser
  }

  lemma FirstChildRuns(c: Settings) returns (s: System)
    ensures Reachable(c, s) && FirstRuns(s)
  {
    var d := Discipline(BeforeStops, true);
    s := FirstChild(c, d);
    DisciplinedReachable(c, d, s);
    if c.startSecs > 0 {
      var t := PromotionHappens(c, s);
      var steps :| Runs(c, s, steps, t) && NoClients(steps);
      assert CanReach(c, s, t);
      ReachTrans(c, Initial(), s, t);
      s := t;
    }
  }

  /** The child exits, and the run loop settles the attempt. */
  lemma RunningChildGone(c: Settings, s0: System) returns (s: System)
    requires FirstRuns(s0)
    ensures GoesOn(c, s0, s) && s.loop == s0.loop.(pc := AwaitMonitor) && s.state == Stopped && s.lock == Free
    ensures s.callers == s0.callers && !s.stopByUser && 0 in s.monitors.monitorExited && s.children.live == {}
  {
    GoesFrom(c, s0);
    s := Goes(c, s0, s0, Wait(WaiterBind(0)));
    s := Goes(c, s0, s, Wait(ChildExits(0)));
    s := Goes(c, s0, s, Wait(WaiterStore(0)));
    s := Goes(c, s0, s, Finish(SeeNotRunning));
    s := Goes(c, s0, s, Finish(MarkExited));
  }

  lemma TriesAgain(c: Settings, s0: System, s1: System) returns (s: System)
    requires GoesOn(c, s0, s1) && s1.loop.pc == AwaitMonitor && s1.loop.runOf == [1] && s1.loop.retryTimes == 1 && s1.state == Stopped
    requires s1.lock == Free && !s1.callers.crashed && !s1.stopByUser && 0 in s1.monitors.monitorExited && c.startRetries > 1
    ensures GoesOn(c, s0, s) && s.loop == s1.loop.(pc := LoopTop) && !s.callers.crashed && !s.stopByUser
    ensures s.lock == HeldByRun && s.children == s1.children
  {
    s := Goes(c, s0, s1, Finish(TakeLock));
    s := Goes(c, s0, s, Settle(Account));
    s := Goes(c, s0, s, Settle(StoreBackoff));
    s := Goes(c, s0, s, Settle(TryAgain));
  }

  lemma SpawnsAgain(c: Settings, s0: System, s1: System) returns (s: System)
    requires GoesOn(c, s0, s1) && s1.loop.pc == LoopTop && !s1.callers.crashed && !s1.stopByUser && s1.lock == HeldByRun
    ensures GoesOn(c, s0, s) && s.children.live == s1.children.live + {|s1.loop.runOf|} && s.loop.runs == s1.loop.runs
  {
    if MustPause(c, s1.loop) {
      s := Goes(c, s0, s1, Launch(LoopPause));
      s := Goes(c, s0, s, Launch(Resume));
    } else {
      s := Goes(c, s0, s1, Launch(LoopGo));
    }
    s := Goes(c, s0, s, Launch(Prepare));
    s := PreparedSpawns(c, s0, s);
  }

  lemma PreparedSpawns(c: Settings, s0: System, s1: System) returns (s: System)
    requires GoesOn(c, s0, s1) && s1.loop.pc.Spawning? && !s1.loop.pc.created && !s1.callers.crashed
    ensures GoesOn(c, s0, s) && s.children.live == s1.children.live + {Last(s1.loop)} && s.loop.runs == s1.loop.runs
  {
    s := Goes(c, s0, s1, Launch(Create));
    s := Goes(c, s0, s, Launch(SpawnOk));
  }

  /**
    Whatever autorestart says: if startretries is more than 1, a child that has been reported as Running
    and exits can be followed by another one in the same call of `run`, without a call of anybody.
   */
  lemma RestartedAnyway(c: Settings) returns (s: System, t: System)
    requires c.startRetries > 1
    ensures Reachable(c, s) && s.state == Running && s.children.live == {0} && !s.stopByUser
    ensures GoesOn(c, s, t) && t.children.live == {1} && t.loop.runs == s.loop.runs
  {
    s := FirstChildRuns(c);
    t := RunningChildGone(c, s);
    t := TriesAgain(c, s, t);
    t := SpawnsAgain(c, s, t);
  }
}
