/**
  Which states of a process can still lead to a running child.

  `Stop` tests the state and stores Stopping in two steps. When the store lands after the run loop
  has finished with an attempt, the process claims to be running although nothing runs, and every
  later `run` refuses to start it. `Doomed` describes these states; a reachable state can lead to a
  live child exactly when it is not doomed.
 */
module LifecycleRecovery {
  import opened LifecycleModel
  import opened LifecycleInvariant
  import opened LifecycleDiscipline

  /** No attempt is under way, and `run` will test IsRunning before it makes one. */
  predicate Quiet(pc: RunPc) {
    pc.Idle? || pc.Launched? || pc.Entry? || pc.Returned? || pc.Leaving?
  }

  /** The state claims that the process runs, and the run loop is bound to return or has returned. */
  predicate Doomed(c: Settings, s: System) {
    && IsRunning(s.state)
    && (|| Quiet(s.loop.pc)
        || (s.stopByUser && s.loop.pc == LoopTop)
        || (s.stopByUser && s.loop.pc == RetryCheck && s.loop.retryTimes < c.startRetries))
  }

  ghost predicate CanRunChild(c: Settings, s: System) {
    exists t :: CanReach(c, s, t) && t.children.live != {}
  }

  // ---------------------------------------------------------------- doomed for ever

  lemma DoomedLoopStep(c: Settings, s: System, step: Step)
    requires Doomed(c, s) && Enabled(c, s, step) && (step.Launch? || step.Finish? || step.Settle?)
    ensures Doomed(c, Do(c, s, step))
  {
  }

  lemma DoomedClientStep(c: Settings, s: System, step: Step)
    requires LockInv(s) && Doomed(c, s) && Enabled(c, s, step) && step.Client?
    ensures Doomed(c, Do(c, s, step))
  {
  }

  lemma DoomedOtherStep(c: Settings, s: System, step: Step)
    requires LockInv(s) && ChildInv(s) && MonitorInv(s)
    requires Doomed(c, s) && Enabled(c, s, step) && (step.Wait? || step.Watch?)
    ensures Doomed(c, Do(c, s, step))
  {
  }

  /** No child ever lives again, and no waiting call of Stop returns. */
  lemma {:induction false} DoomedForever(c: Settings, s: System, steps: seq<Step>, t: System)
    requires Inv(c, s) && Doomed(c, s) && Runs(c, s, steps, t)
    ensures Doomed(c, t) && t.children.live == {}
    ensures forall call :: !ClientEnabled(t, StopReturn(call))
    decreases |steps|
  {
    if steps != [] {
      if steps[0].Launch? || steps[0].Finish? || steps[0].Settle? {
        DoomedLoopStep(c, s, steps[0]);
      } else if steps[0].Client? {
        DoomedClientStep(c, s, steps[0]);
      } else {
        DoomedOtherStep(c, s, steps[0]);
      }
      StepInv(c, s, steps[0]);
      DoomedForever(c, Do(c, s, steps[0]), steps[1..], t);
    }
  }

  // ---------------------------------------------------------------- a way out of every other state

  /** How far the monitor holding the lock is from releasing it. */
  function LockRank(s: System): nat {
    if s.lock.HeldByMonitor? && s.lock.attempt in s.monitors.at then
      match s.monitors.at[s.lock.attempt].pc
      case Locked => 3
      case Checked => 2
      case _ => 1
    else 0
  }

  function WaiterRank(s: System): nat {
    var k := Current(s.loop);
    if k in s.children.waiters then
      match s.children.waiters[k]
      case Fresh => 3
      case Bound(_) => 2
      case Stored => 1
      case Closed => 0
    else 0
  }

  /** How many moves separate the run loop from a spawn. */
  function LoopRank(s: System): nat {
    match s.loop.pc
    case Spawning(_, created) => if created then 1 else 2
    case PreStart(_) => 3
    case Pausing => 4
    case LoopTop => if s.stopByUser then 11 else 5
    case Entry => if s.stopByUser then 12 else 6
    case Launched => if s.stopByUser then 13 else 7
    case Idle => 8
    case Leaving => 9
    case Returned => 10
    case RetryCheck => 14
    case Ending(_) => 14
    case BackingOff => 15
    case Accounting => 16
    case AwaitMonitor => if Current(s.loop) in s.monitors.monitorExited then 17 else 18
    case LoopDone => 19
    case Looping => 20 + WaiterRank(s)
    case Spawned => 24
  }

  function Rank(s: System): nat {
    4 * LoopRank(s) + LockRank(s)
  }

  /** The step that brings a state without a live child closer to a spawn. */
  function Move(c: Settings, s: System): Step {
    if s.lock.HeldByMonitor? then MonitorMove(s)
    else
      match s.loop.pc
      case Looping => WaiterMove(s)
      case AwaitMonitor =>
        if Current(s.loop) in s.monitors.monitorExited then Finish(TakeLock) else Watch(MonitorTimeout(Last(s.loop)))
      case Spawned => Finish(LaunchGoroutines)
      case LoopDone => Finish(MarkExited)
      case Accounting => Settle(Account)
      case Ending(_) => Settle(End)
      case BackingOff => Settle(StoreBackoff)
      case RetryCheck => if s.loop.retryTimes >= c.startRetries then Settle(GiveUp) else Settle(TryAgain)
      case Returned => Settle(if s.stopByUser || c.autoRestart != Always then Quit else Rerun)
      case Leaving => Settle(Leave)
      case Idle => Client(StartCall)
      case Launched => Launch(Enter)
      case Entry => Launch(Begin)
      case LoopTop => Launch(if s.stopByUser then LoopStop else if MustPause(c, s.loop) then LoopPause else LoopGo)
      case Pausing => Launch(Resume)
      case PreStart(_) => Launch(Prepare)
      case Spawning(_, created) => Launch(if created then SpawnOk else Create)
  }

  function MonitorMove(s: System): Step {
    if s.lock.HeldByMonitor? && s.lock.attempt in s.monitors.at then
      var k := s.lock.attempt;
      match s.monitors.at[k].pc
      case Locked => Watch(if k in s.monitors.programExited then MonitorLate(k) else MonitorCheck(k))
      case Checked => Watch(if s.state == Starting then MonitorDecide(k) else MonitorSkip(k))
      case _ => Watch(MonitorPromote(k))
    else Wait(Tick(0))
  }

  function WaiterMove(s: System): Step {
    var k := Last(s.loop);
    if k in s.children.waiters then
      match s.children.waiters[k]
      case Fresh => Wait(WaiterBind(k))
      case Bound(_) => Wait(WaiterStore(k))
      case Stored => Wait(WaiterClose(k))
      case Closed => Finish(SeeClosed)
    else Wait(Tick(0))
  }

  /** The move is possible, avoids doom and brings the spawn closer. */
  ghost predicate GoodMove(c: Settings, s: System) {
    && Enabled(c, s, Move(c, s))
    && var t := Do(c, s, Move(c, s));
       !t.callers.crashed && !Doomed(c, t) && Rank(t) < Rank(s)
  }

  lemma LockedMoveGood(c: Settings, s: System, k: nat)
    requires LockInv(s) && MonitorInv(s) && s.lock == HeldByMonitor(k) && !s.callers.crashed && !Doomed(c, s)
    requires MonitorAt(s, k, Locked)
    ensures GoodMove(c, s)
  {
  }

  lemma CheckedMoveGood(c: Settings, s: System, k: nat)
    requires LockInv(s) && MonitorInv(s) && s.lock == HeldByMonitor(k) && !s.callers.crashed && !Doomed(c, s)
    requires MonitorAt(s, k, Checked)
    ensures GoodMove(c, s)
  {
  }

  lemma PromotingMoveGood(c: Settings, s: System, k: nat)
    requires LockInv(s) && MonitorInv(s) && s.lock == HeldByMonitor(k) && !s.callers.crashed && !Doomed(c, s)
    requires MonitorAt(s, k, Promoting)
    ensures GoodMove(c, s)
  {
  }

  lemma MonitorMoveGood(c: Settings, s: System)
    requires LockInv(s) && MonitorInv(s) && s.lock.HeldByMonitor? && !s.callers.crashed && !Doomed(c, s)
    ensures GoodMove(c, s)
  {
    var k := s.lock.attempt;
    assert InLock(s.monitors.at[k].pc);
    match s.monitors.at[k].pc {
      case Locked => LockedMoveGood(c, s, k);
      case Checked => CheckedMoveGood(c, s, k);
      case Promoting => PromotingMoveGood(c, s, k);
    }
  }

  lemma QuietMoveGood(c: Settings, s: System)
    requires LockInv(s) && !s.lock.HeldByMonitor? && !s.callers.crashed && !Doomed(c, s) && Quiet(s.loop.pc)
    ensures GoodMove(c, s)
  {
  }

  lemma LaunchMoveGood(c: Settings, s: System)
    requires LockInv(s) && !s.lock.HeldByMonitor? && !s.callers.crashed && !Doomed(c, s) && BeforeAttempt(s.loop.pc)
    ensures GoodMove(c, s)
  {
  }

  lemma WaiterMoveGood(c: Settings, s: System)
    requires LockInv(s) && ChildInv(s) && !s.lock.HeldByMonitor? && !s.callers.crashed && s.children.live == {}
    requires s.loop.pc == Looping
    ensures GoodMove(c, s)
  {
  }

  lemma SpawnedMoveGood(c: Settings, s: System)
    requires LockInv(s) && ScopeInv(s) && !s.lock.HeldByMonitor? && !s.callers.crashed && s.loop.pc == Spawned
    ensures GoodMove(c, s)
  {
  }

  lemma LoopDoneMoveGood(c: Settings, s: System)
    requires LockInv(s) && ScopeInv(s) && !s.lock.HeldByMonitor? && !s.callers.crashed && s.loop.pc == LoopDone
    ensures GoodMove(c, s)
  {
  }

  lemma AwaitMoveGood(c: Settings, s: System)
    requires LockInv(s) && ScopeInv(s) && MonitorInv(s) && !s.lock.HeldByMonitor? && !s.callers.crashed && s.loop.pc == AwaitMonitor
    ensures GoodMove(c, s)
  {
  }

  lemma WatchMoveGood(c: Settings, s: System)
    requires LockInv(s) && ScopeInv(s) && MonitorInv(s) && !s.lock.HeldByMonitor? && !s.callers.crashed
    requires s.loop.pc == Spawned || s.loop.pc == LoopDone || s.loop.pc == AwaitMonitor
    ensures GoodMove(c, s)
  {
    if s.loop.pc == Spawned {
      SpawnedMoveGood(c, s);
    } else if s.loop.pc == LoopDone {
      LoopDoneMoveGood(c, s);
    } else {
      AwaitMoveGood(c, s);
    }
  }

  lemma CreateMoveGood(c: Settings, s: System)
    requires LockInv(s) && !s.lock.HeldByMonitor? && !s.callers.crashed && s.loop.pc.Spawning? && !s.loop.pc.created
    ensures GoodMove(c, s)
  {
  }

  lemma AccountMoveGood(c: Settings, s: System)
    requires StateInv(s) && !s.lock.HeldByMonitor? && !s.callers.crashed && s.loop.pc == Accounting
    ensures GoodMove(c, s)
  {
  }

  lemma EndMoveGood(c: Settings, s: System)
    requires StateInv(s) && !s.lock.HeldByMonitor? && !s.callers.crashed && !Doomed(c, s)
    requires s.loop.pc.Ending? || s.loop.pc == BackingOff || s.loop.pc == RetryCheck
    ensures GoodMove(c, s)
  {
  }

  lemma SettleMoveGood(c: Settings, s: System)
    requires StateInv(s) && !s.lock.HeldByMonitor? && !s.callers.crashed && !Doomed(c, s)
    requires InAttempt(s.loop.pc) && !Watching(s.loop.pc) && s.loop.pc != Spawned && !s.loop.pc.Spawning?
    ensures GoodMove(c, s)
  {
    if s.loop.pc == Accounting {
      AccountMoveGood(c, s);
    } else {
      EndMoveGood(c, s);
    }
  }

  lemma StepToChild(c: Settings, s: System, step: Step)
    requires Enabled(c, s, step) && CanRunChild(c, Do(c, s, step))
    ensures CanRunChild(c, s)
  {
    var t :| CanReach(c, Do(c, s, step), t) && t.children.live != {};
    ReachSelf(c, s);
    ReachStep(c, s, s, step);
    ReachTrans(c, s, Do(c, s, step), t);
  }

  lemma {:induction false} WayOut(c: Settings, s: System)
    requires Inv(c, s) && !s.callers.crashed && !Doomed(c, s)
    ensures CanRunChild(c, s)
    decreases Rank(s)
  {
    if s.children.live != {} {
      ReachSelf(c, s);
    } else if s.loop.pc.Spawning? && s.loop.pc.created && !s.lock.HeldByMonitor? {
      var t := Do(c, s, Launch(SpawnOk));
      assert Last(s.loop) in t.children.live;
      ReachSelf(c, t);
      StepToChild(c, s, Launch(SpawnOk));
    } else {
      if s.lock.HeldByMonitor? {
        MonitorMoveGood(c, s);
      } else if Quiet(s.loop.pc) {
        QuietMoveGood(c, s);
      } else if BeforeAttempt(s.loop.pc) {
        LaunchMoveGood(c, s);
      } else if s.loop.pc.Spawning? {
        CreateMoveGood(c, s);
      } else if s.loop.pc == Looping {
        WaiterMoveGood(c, s);
      } else if Watching(s.loop.pc) || s.loop.pc == Spawned {
        WatchMoveGood(c, s);
      } else {
        SettleMoveGood(c, s);
      }
      StepInv(c, s, Move(c, s));
      WayOut(c, Do(c, s, Move(c, s)));
      StepToChild(c, s, Move(c, s));
    }
  }

  lemma {:induction false} CrashedForever(c: Settings, s: System, steps: seq<Step>, t: System)
    requires s.callers.crashed && Runs(c, s, steps, t)
    ensures t == s
  {
    assert steps == [];
  }

  /**
    A reachable process has a live child or can still get one exactly when it has one, or is not
    doomed and the supervisor has not crashed.
   */
  lemma RecoverableIff(c: Settings, s: System)
    requires Reachable(c, s)
    ensures CanRunChild(c, s) <==> s.children.live != {} || !(s.callers.crashed || Doomed(c, s))
    ensures Doomed(c, s) ==> s.children.live == {}
  {
    ReachableInv(c, s);
    if s.children.live != {} {
      ReachSelf(c, s);
    } else if s.callers.crashed || Doomed(c, s) {
      forall t | CanReach(c, s, t)
        ensures t.children.live == {}
      {
        var steps :| Runs(c, s, steps, t);
        if s.callers.crashed {
          CrashedForever(c, s, steps, t);
        } else {
          DoomedForever(c, s, steps, t);
        }
      }
    } else {
      WayOut(c, s);
    }
    if Doomed(c, s) {
      DoomedForever(c, s, [], s);
    }
  }

  // ---------------------------------------------------------------- doom can be reached

  lemma FirstLoop(c: Settings, d: Discipline) returns (s: System)
    ensures ReachableUnder(c, d, s) && s == Initial().(lock := HeldByRun, loop := Initial().loop.(pc := LoopTop, inStart := true, runs := 1))
  {
    StartUnder(c, d);
    s := Further(c, d, Initial(), Client(StartCall));
    s := Further(c, d, s, Launch(Enter));
    s := Further(c, d, s, Launch(Begin));
  }

  lemma FirstAttempt(c: Settings, d: Discipline) returns (s: System)
    ensures ReachableUnder(c, d, s) && s.loop.pc == Spawning(false, false) && s.state == Starting && s.callers == Initial().callers
    ensures s.loop.retryTimes == 1 && s.loop.runOf == [1] && s.lock == HeldByRun && s.children == Initial().children
    ensures s.monitors == Initial().monitors && !s.loop.hasProcess && !s.stopByUser
  {
    s := FirstLoop(c, d);
    s := Further(c, d, s, Launch(LoopGo));
    s := Further(c, d, s, Launch(Prepare));
  }

  /** The run loop watches its first child. */
  predicate FirstLives(c: Settings, s: System) {
    && s.loop.pc == Looping && s.lock == Free && s.loop.retryTimes == 1 && s.loop.runOf == [1] && s.loop.hasProcess && s.loop.cmd == 0
    && s.children.live == {0} && WaiterAt(s, 0, Fresh)
    && (if c.startSecs <= 0 then 0 in s.monitors.monitorExited else MonitorAt(s, 0, Timing))
  }

  lemma FirstSpawn(c: Settings, d: Discipline) returns (s: System)
    ensures ReachableUnder(c, d, s) && s.loop.pc == Spawned && s.state == Starting && s.callers == Initial().callers
    ensures s.loop.retryTimes == 1 && s.loop.runOf == [1] && s.lock == HeldByRun && s.children == Children({0}, {0}, map[])
    ensures s.monitors == Initial().monitors && s.loop.hasProcess && s.loop.cmd == 0 && !s.stopByUser
  {
    s := FirstAttempt(c, d);
    s := Further(c, d, s, Launch(Create));
    s := Further(c, d, s, Launch(SpawnOk));
  }

  lemma FirstChild(c: Settings, d: Discipline) returns (s: System)
    ensures ReachableUnder(c, d, s) && FirstLives(c, s) && s.callers == Initial().callers && !s.stopByUser
    ensures s.state == if c.startSecs <= 0 then Running else Starting
  {
    s := FirstSpawn(c, d);
    s := Further(c, d, s, Finish(LaunchGoroutines));
  }

  /** A first child runs, and a call of Stop is about to store Stopping. */
  lemma StoppingFirstChild(c: Settings, d: Discipline) returns (s: System)
    ensures ReachableUnder(c, d, s) && FirstLives(c, s) && s.stopByUser
    ensures s.callers == Callers(map[0 := Storing(true)], map[], false)
  {
    s := FirstChild(c, d);
    s := Further(c, d, s, Client(StopFlag(0, true)));
    s := Further(c, d, s, Client(StopTest(0)));
    s := Further(c, d, s, Client(StopEvent(0, true)));
  }

  /** The child exits, and the run loop sees it. */
  lemma ChildGone(c: Settings, d: Discipline, s0: System) returns (s: System)
    requires ReachableUnder(c, d, s0) && FirstLives(c, s0) && !s0.callers.crashed
    ensures ReachableUnder(c, d, s) && s.lock == Free && s.state == Stopped && s.loop == s0.loop.(pc := LoopDone)
    ensures s.monitors == s0.monitors && s.stopByUser == s0.stopByUser && s.callers == s0.callers
  {
    s := Further(c, d, s0, Wait(WaiterBind(0)));
    s := Further(c, d, s, Wait(ChildExits(0)));
    s := Further(c, d, s, Wait(WaiterStore(0)));
    s := Further(c, d, s, Finish(SeeNotRunning));
  }

  /** The run loop accounts for the attempt. */
  lemma Accounted(c: Settings, d: Discipline, s0: System) returns (s: System)
    requires ReachableUnder(c, d, s0) && s0.loop.pc == LoopDone && s0.lock == Free && s0.state == Stopped && !s0.callers.crashed
    requires s0.loop.runOf == [1] && if c.startSecs <= 0 then 0 in s0.monitors.monitorExited else MonitorAt(s0, 0, Timing)
    ensures ReachableUnder(c, d, s) && s.lock == HeldByRun && s.state == Backoff && s.loop == s0.loop.(pc := RetryCheck)
    ensures s.stopByUser == s0.stopByUser && s.callers == s0.callers
  {
    s := Further(c, d, s0, Finish(MarkExited));
    if c.startSecs > 0 {
      s := Further(c, d, s, Watch(MonitorTimeout(0)));
    }
    s := Further(c, d, s, Finish(TakeLock));
    s := Further(c, d, s, Settle(Account));
    s := Further(c, d, s, Settle(StoreBackoff));
  }

  /** A child has lived and gone, and the run loop is about to give up or to try again. */
  lemma FirstSettled(c: Settings, d: Discipline, s0: System) returns (s: System)
    requires ReachableUnder(c, d, s0) && FirstLives(c, s0) && !s0.callers.crashed
    ensures ReachableUnder(c, d, s) && s.lock == HeldByRun && s.state == Backoff && s.loop == s0.loop.(pc := RetryCheck)
    ensures s.stopByUser == s0.stopByUser && s.callers == s0.callers
  {
    s := ChildGone(c, d, s0);
    s := Accounted(c, d, s);
  }

  /**
    Under every setting and whatever the callers agree on, a doomed state can be reached: the child
    exits while Stop is between its test and its store.
   */
  lemma DoomIsReachable(c: Settings, d: Discipline)
    ensures exists s :: ReachableUnder(c, d, s) && Doomed(c, s) && !s.callers.crashed
  {
    var s := StoppingFirstChild(c, d);
    s := FirstSettled(c, d, s);
    s := Further(c, d, s, Settle(if s.loop.retryTimes >= c.startRetries then GiveUp else TryAgain));
    s := Further(c, d, s, Client(StopStore(0)));
    assert Doomed(c, s);
  }
}
