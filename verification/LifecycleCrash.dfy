/**
  When `Stop` brings the supervisor down. p.cmd.Process is nil while the run loop has a command that is
  not started, or could not be. `Stop` uses it without the lock when it announces Stopping
  (process/process.go:903-934, 1266), in the goroutine of its caller, and under the read lock in the
  goroutine that sends its signals (process/process.go:950-957, 1278), which may outlive the call.
 */
module LifecycleCrash {
  import opened LifecycleModel
  import opened LifecycleInvariant
  import opened LifecycleTheorems
  import opened LifecycleDiscipline
  import opened LifecycleRecovery

  // ---------------------------------------------------------------- only Stop is in danger

  /** From the spawn of a child until the attempt is settled its process is at hand. */
  predicate ProcessInv(l: Loop) {
    InAttempt(l.pc) && !l.pc.Spawning? ==> l.hasProcess
  }

  lemma LaunchKeepsProcess(c: Settings, s: System, step: LaunchStep)
    requires LaunchEnabled(c, s, step) && ProcessInv(s.loop)
    ensures ProcessInv(LaunchDo(c, s, step).loop)
  {
  }

  lemma OtherKeepsProcess(c: Settings, s: System, step: Step)
    requires Enabled(c, s, step) && !step.Launch? && ProcessInv(s.loop)
    ensures ProcessInv(Do(c, s, step).loop)
  {
  }

  lemma StepKeepsProcess(c: Settings, s: System, step: Step)
    requires Enabled(c, s, step) && ProcessInv(s.loop)
    ensures ProcessInv(Do(c, s, step).loop)
  {
    if step.Launch? {
      LaunchKeepsProcess(c, s, step.launch);
    } else {
      OtherKeepsProcess(c, s, step);
    }
  }

  lemma {:induction false} RunsKeepProcess(c: Settings, s: System, steps: seq<Step>, t: System)
    requires ProcessInv(s.loop) && Runs(c, s, steps, t)
    ensures ProcessInv(t.loop)
    decreases |steps|
  {
    if steps != [] {
      StepKeepsProcess(c, s, steps[0]);
      RunsKeepProcess(c, Do(c, s, steps[0]), steps[1..], t);
    }
  }

  lemma MonitorHasProcess(s: System, k: nat)
    requires MonitorInv(s) && ProcessInv(s.loop) && WatchEnabled(s, MonitorPromote(k))
    ensures s.loop.hasProcess
  {
  }

  lemma WaiterHasProcess(s: System, k: nat)
    requires ChildInv(s) && ProcessInv(s.loop) && WaitEnabled(s, WaiterBind(k))
    ensures s.loop.hasProcess
  {
  }

  /** Wherever the run loop, a waiter or a monitor uses p.cmd.Process, it is not nil. */
  lemma OthersHaveProcess(c: Settings, s: System)
    requires Reachable(c, s)
    ensures s.loop.pc == Spawned || s.loop.pc.Ending? ==> s.loop.hasProcess
    ensures forall k :: WatchEnabled(s, MonitorPromote(k)) ==> s.loop.hasProcess
    ensures forall k :: WaitEnabled(s, WaiterBind(k)) ==> s.loop.hasProcess
  {
    ReachableInv(c, s);
    var steps :| Runs(c, Initial(), steps, s);
    RunsKeepProcess(c, Initial(), steps, s);
    forall k | WatchEnabled(s, MonitorPromote(k))
      ensures s.loop.hasProcess
    {
      MonitorHasProcess(s, k);
    }
    forall k | WaitEnabled(s, WaiterBind(k))
      ensures s.loop.hasProcess
    {
      WaiterHasProcess(s, k);
    }
  }

  // ---------------------------------------------------------------- runs in which Start waits

  /** Start is called only while no Stop is under way and none of its signals is left. */
  predicate Orderly(d: Discipline) {
    d.start.AfterSignals? || d.start.BeforeStops?
  }

  /** Stop does not bring the supervisor down while the callers keep to d. */
  ghost predicate NeverCrashes(c: Settings, d: Discipline) {
    forall s :: ReachableUnder(c, d, s) ==> !s.callers.crashed
  }

  /** A call of Stop that has passed its test, or its signals, will use the process. */
  predicate Uses(s: System) {
    (exists t :: t in s.callers.stops && (s.callers.stops[t].Committed? || s.callers.stops[t].Storing?))
    || s.callers.signallers != map[]
  }

  ghost predicate SafeInv(s: System) {
    && !s.callers.crashed
    && (StopUnderWay(s) ==> s.stopByUser)
    && (IsRunning(s.state) ==> s.loop.hasProcess || Window(s.loop.pc))
    && (Uses(s) ==> s.loop.hasProcess)
    && s.callers.signallers.Keys <= s.callers.stops.Keys
  }

  lemma ClientKeepsSafe(c: Settings, s: System, step: ClientStep)
    requires StopInv(c, s) && LockInv(s) && NeverPauses(c) && SafeInv(s) && ClientEnabled(s, step)
    requires step == StartCall ==> !StopUnderWay(s) || s.callers.stops == map[]
    ensures SafeInv(ClientDo(c, s, step))
  {
    var t := ClientDo(c, s, step);
    assert Uses(s) ==> StopUnderWay(s);
  }

  lemma LaunchKeepsSafe(c: Settings, s: System, step: LaunchStep)
    requires StopInv(c, s) && NeverPauses(c) && SafeInv(s) && LaunchEnabled(c, s, step)
    ensures SafeInv(LaunchDo(c, s, step))
  {
    assert Uses(s) ==> StopUnderWay(s);
    assert LaunchDo(c, s, step).callers == s.callers && LaunchDo(c, s, step).stopByUser == s.stopByUser;
  }

  lemma FinishKeepsSafe(c: Settings, s: System, step: FinishStep)
    requires ProcessInv(s.loop) && SafeInv(s) && FinishEnabled(s, step)
    ensures SafeInv(FinishDo(c, s, step))
  {
    assert FinishDo(c, s, step).callers == s.callers && FinishDo(c, s, step).stopByUser == s.stopByUser;
  }

  lemma SettleKeepsSafe(c: Settings, s: System, step: SettleStep)
    requires ProcessInv(s.loop) && StateInv(s) && SafeInv(s) && SettleEnabled(c, s, step)
    ensures SafeInv(SettleDo(s, step))
  {
    assert SettleDo(s, step).callers == s.callers && SettleDo(s, step).stopByUser == s.stopByUser;
  }

  lemma OtherKeepsSafe(c: Settings, s: System, step: Step)
    requires ProcessInv(s.loop) && MonitorInv(s) && SafeInv(s) && Enabled(c, s, step) && (step.Wait? || step.Watch?)
    ensures SafeInv(Do(c, s, step))
  {
    assert Do(c, s, step).callers == s.callers && Do(c, s, step).stopByUser == s.stopByUser;
  }

  lemma StepKeepsSafe(c: Settings, d: Discipline, s: System, step: Step)
    requires NeverPauses(c) && Orderly(d) && Inv(c, s) && ProcessInv(s.loop) && SafeInv(s)
    requires Enabled(c, s, step) && Allowed(d, s, step)
    ensures SafeInv(Do(c, s, step))
  {
    match step {
      case Client(x) => ClientKeepsSafe(c, s, x);
      case Launch(x) => LaunchKeepsSafe(c, s, x);
      case Finish(x) => FinishKeepsSafe(c, s, x);
      case Settle(x) => SettleKeepsSafe(c, s, x);
      case _ => OtherKeepsSafe(c, s, step);
    }
  }

  lemma {:induction false} OrderlyRunIsSafe(c: Settings, d: Discipline, s: System, steps: seq<Step>, t: System)
    requires NeverPauses(c) && Orderly(d) && Inv(c, s) && ProcessInv(s.loop) && SafeInv(s)
    requires RunsUnder(c, d, s, steps, t)
    ensures SafeInv(t)
    decreases |steps|
  {
    if steps != [] {
      StepKeepsSafe(c, d, s, steps[0]);
      StepInv(c, s, steps[0]);
      StepKeepsProcess(c, s, steps[0]);
      OrderlyRunIsSafe(c, d, Do(c, s, steps[0]), steps[1..], t);
    }
  }

  // ---------------------------------------------------------------- a pause is enough

  /** After a first child the loop pauses, with the process of that child still at hand. */
  lemma PausedAfterChild(c: Settings, d: Discipline) returns (s: System)
    requires !NeverPauses(c)
    ensures ReachableUnder(c, d, s) && s.loop.pc == Pausing && s.lock == Free && s.loop.hasProcess
    ensures s.callers == Initial().callers
  {
    s := FirstChild(c, d);
    s := FirstSettled(c, d, s);
    s := Further(c, d, s, Settle(TryAgain));
    s := Further(c, d, s, Launch(LoopPause));
  }

  /** Stop sets its flag during the pause, and the second attempt begins. */
  lemma FlaggedInPause(c: Settings, d: Discipline) returns (s: System)
    requires !NeverPauses(c)
    ensures ReachableUnder(c, d, s) && s.loop.pc == Spawning(true, false) && s.lock == HeldByRun && s.state == Starting
    ensures s.loop.hasProcess && s.callers == Callers(map[0 := Flagged(true)], map[], false)
  {
    s := PausedAfterChild(c, d);
    s := Further(c, d, s, Client(StopFlag(0, true)));
    s := Further(c, d, s, Launch(Resume));
    s := Further(c, d, s, Launch(Prepare));
  }

  /** The test and the store of Stop fall into that attempt. */
  lemma StoppedInAttempt(c: Settings, d: Discipline) returns (s: System)
    requires !NeverPauses(c)
    ensures ReachableUnder(c, d, s) && s.loop.pc == Spawning(true, false) && s.lock == HeldByRun
    ensures s.callers == Callers(map[0 := Waiting], map[0 := SendStop], false)
  {
    s := FlaggedInPause(c, d);
    s := Further(c, d, s, Client(StopTest(0)));
    s := Further(c, d, s, Client(StopEvent(0, true)));
    s := Further(c, d, s, Client(StopStore(0)));
  }

  /** The attempt has replaced the command and cannot start it when the signal comes. */
  lemma LateSignalCrashes(c: Settings, d: Discipline, s0: System) returns (s: System)
    requires ReachableUnder(c, d, s0) && s0.loop.pc.Spawning? && !s0.loop.pc.created && s0.lock == HeldByRun
    requires s0.callers.signallers == map[0 := SendStop] && !s0.callers.crashed
    ensures ReachableUnder(c, d, s) && s.callers.crashed
  {
    s := Further(c, d, s0, Launch(Create));
    s := Further(c, d, s, Launch(CreateFails));
    s := Further(c, d, s, Client(Signal(0)));
  }

  // ---------------------------------------------------------------- so is a signal left over

  /** A call of Stop has returned after the child was gone, and has yet to send its signal. */
  lemma ReturnedWithSignal(c: Settings, d: Discipline) returns (s: System)
    ensures ReachableUnder(c, d, s) && s.loop.pc == RetryCheck && s.lock == HeldByRun && s.stopByUser && s.state == Backoff
    ensures s.callers == Callers(map[0 := Done], map[0 := SendStop], false)
  {
    s := StoppingFirstChild(c, d);
    s := Further(c, d, s, Client(StopStore(0)));
    s := FirstSettled(c, d, s);
    s := Further(c, d, s, Client(StopReturn(0)));
  }

  /** The run loop ends. */
  lemma LoopEnds(c: Settings, d: Discipline, s0: System) returns (s: System)
    requires ReachableUnder(c, d, s0) && s0.loop.pc == RetryCheck && s0.lock == HeldByRun && s0.stopByUser && s0.state == Backoff
    requires !s0.callers.crashed
    ensures ReachableUnder(c, d, s) && s.loop.pc == Idle && s.lock == Free && !s.loop.inStart && !IsRunning(s.state)
    ensures s.callers == s0.callers
  {
    if s0.loop.retryTimes >= c.startRetries {
      s := Further(c, d, s0, Settle(GiveUp));
    } else {
      s := Further(c, d, s0, Settle(TryAgain));
      s := Further(c, d, s, Launch(LoopStop));
    }
    s := Further(c, d, s, Settle(Quit));
    s := Further(c, d, s, Settle(Leave));
  }

  /** Start is called again. */
  lemma SecondStart(c: Settings, d: Discipline, s0: System) returns (s: System)
    requires ReachableUnder(c, d, s0) && s0.lock == Free && !s0.loop.inStart && !IsRunning(s0.state)
    requires MayStart(d.start, s0) && !s0.callers.crashed
    ensures ReachableUnder(c, d, s) && s.loop.pc == Spawning(false, false) && s.lock == HeldByRun && s.callers == s0.callers
  {
    s := Further(c, d, s0, Client(StartCall));
    s := Further(c, d, s, Launch(Enter));
    s := Further(c, d, s, Launch(Begin));
    s := Further(c, d, s, Launch(LoopGo));
    s := Further(c, d, s, Launch(Prepare));
  }

  /**
    Under every setting, even if Start is called only when all calls of Stop have returned and all
    their callers recover, the signal of a call that has returned can bring the supervisor down.
   */
  lemma SequentialStartCrashes(c: Settings, d: Discipline)
    requires !Orderly(d)
    ensures exists s :: ReachableUnder(c, d, s) && s.callers.crashed
  {
    var s := ReturnedWithSignal(c, d);
    s := LoopEnds(c, d, s);
    s := SecondStart(c, d, s);
    s := LateSignalCrashes(c, d, s);
  }

  /**
    Stop cannot bring the supervisor down if and only if the run loop never pauses between attempts
    and Start is called only while no Stop is under way and none of its signals is left.
   */
  lemma NeverCrashesIff(c: Settings, d: Discipline)
    ensures NeverCrashes(c, d) <==> NeverPauses(c) && Orderly(d)
  {
    if !Orderly(d) {
      SequentialStartCrashes(c, d);
    } else if !NeverPauses(c) {
      var s := StoppedInAttempt(c, d);
      s := LateSignalCrashes(c, d, s);
    } else {
      InitialInv(c);
      forall s | ReachableUnder(c, d, s)
        ensures !s.callers.crashed
      {
        var steps :| RunsUnder(c, d, Initial(), steps, s);
        OrderlyRunIsSafe(c, d, Initial(), steps, s);
      }
    }
  }

  // ---------------------------------------------------------------- and a Start in between

  /** Stop sets its flag, Start clears it, and the test of Stop falls into the first attempt. */
  lemma StartInBetween(c: Settings) returns (s: System)
    ensures ReachableUnder(c, Discipline(AnyTime, false), s) && s.loop.pc.Spawning? && !s.loop.hasProcess && s.lock == HeldByRun
    ensures s.callers == Callers(map[0 := Committed(true)], map[], false)
  {
    var d := Discipline(AnyTime, false);
    StartUnder(c, d);
    s := Further(c, d, Initial(), Client(StopFlag(0, true)));
    s := Further(c, d, s, Client(StartCall));
    s := AttemptAfterFlag(c, d, s);
    s := Further(c, d, s, Client(StopTest(0)));
  }

  lemma AttemptAfterFlag(c: Settings, d: Discipline, s0: System) returns (s: System)
    requires ReachableUnder(c, d, s0) && s0.loop == Initial().loop.(inStart := true, pc := Launched) && s0.lock == Free
    requires s0.state == Stopped && !s0.stopByUser && s0.callers == Callers(map[0 := Flagged(true)], map[], false)
    ensures ReachableUnder(c, d, s) && s.loop.pc.Spawning? && !s.loop.hasProcess && s.lock == HeldByRun && s.state == Starting
    ensures s.callers == s0.callers
  {
    s := Further(c, d, s0, Launch(Enter));
    s := Further(c, d, s, Launch(Begin));
    s := Further(c, d, s, Launch(LoopGo));
    s := Further(c, d, s, Launch(Prepare));
  }

  /** Under every setting a single call of Stop can crash before it returns. */
  lemma CrashIsReachable(c: Settings)
    ensures exists s :: Reachable(c, s) && s.callers.crashed && s.callers.stops.Keys == {0} && !s.callers.stops[0].Done?
  {
    var d := Discipline(AnyTime, false);
    var s := StartInBetween(c);
    s := Further(c, d, s, Client(StopEvent(0, false)));
    if !c.isProgram {
      s := Further(c, d, s, Client(StopStore(0)));
      s := Further(c, d, s, Launch(CreateFails));
      s := Further(c, d, s, Client(Signal(0)));
    }
    DisciplinedReachable(c, d, s);
  }
}
