/**
  What the process lifecycle guarantees in every interleaving, and exactly where it does not.
 */
module LifecycleTheorems {
  import opened LifecycleModel
  import opened LifecycleInvariant

  /**
    In every reachable state there is at most one live child, a live child implies IsRunning, its
    waiter watches that very child, and Start can launch a run loop only when none exists.
   */
  lemma OneChild(c: Settings, s: System)
    requires Reachable(c, s)
    ensures |s.children.live| <= 1
    ensures s.children.live != {} ==> IsRunning(s.state)
    ensures forall k :: k in s.children.waiters && s.children.waiters[k].Bound? ==> s.children.waiters[k].cmd == k
    ensures ClientEnabled(s, StartCall) ==> s.loop.pc == Idle
  {
    ReachableInv(c, s);
    if s.children.live != {} {
      var k :| k in s.children.live;
      assert s.children.live == {k};
    }
  }

  /**
    A monitor promotes only its own, current attempt, after startsecs have elapsed, and before the
    run loop accounts for the attempt.
   */
  lemma PromotionIsTimely(c: Settings, s: System, k: nat)
    requires Reachable(c, s) && WatchEnabled(s, MonitorPromote(k))
    ensures k == Current(s.loop)
    ensures s.now >= s.loop.endTime == s.monitors.at[k].endTime
    ensures Watching(s.loop.pc)
  {
    ReachableInv(c, s);
  }

  /** No call of `run` makes more than max(1, startretries) attempts. */
  lemma AttemptsBounded(c: Settings, s: System, r: nat)
    requires Reachable(c, s)
    ensures CountOf(s.loop.runOf, r) <= Max(1, c.startRetries)
  {
    ReachableInv(c, s);
  }

  /** A retry check that gives up does so at exactly max(1, startretries) attempts of that call. */
  lemma GivesUpAtLimit(c: Settings, s: System)
    requires Reachable(c, s)
    requires SettleEnabled(c, s, GiveUp) || LaunchEnabled(c, s, SpawnFailsFinally)
    ensures CountOf(s.loop.runOf, s.loop.runs) == Max(1, c.startRetries)
  {
    ReachableInv(c, s);
  }

  /** No goroutine that could still call back exists. */
  predicate CallbacksSettled(s: System) {
    s.monitors.at == map[] && s.ledger.pending == {} && s.loop.pc != Spawned
  }

  /**
    finishCb is never invoked twice for a call of `run`; once its goroutines are done it has been
    invoked exactly when the call was refused, had a child or ended Fatal.
   */
  lemma CallbackExactlyOnce(c: Settings, s: System, r: nat)
    requires Reachable(c, s)
    ensures s.ledger.calls[r] <= 1
    ensures CallbacksSettled(s) ==>
              (s.ledger.calls[r] == 1 <==> r in s.ledger.refused || r in s.ledger.fatal || HadChild(s, r))
  {
    ReachableInv(c, s);
  }

  /** A call of `run` that finds the stop flag set returns without any callback, whatever the settings. */
  lemma CallbackCanBeMissed(c: Settings)
    ensures exists s :: Reachable(c, s) && s.loop.pc == Returned && s.loop.runs == 1 && CallbacksSettled(s) && s.ledger.calls[1] == 0
  {
    var s0 := Initial();
    ReachSelf(c, s0);
    ReachStep(c, s0, s0, Client(StartCall));
    var s1 := Do(c, s0, Client(StartCall));
    ReachStep(c, s0, s1, Client(StopFlag(0, true)));
    var s2 := Do(c, s1, Client(StopFlag(0, true)));
    ReachStep(c, s0, s2, Launch(Enter));
    var s3 := Do(c, s2, Launch(Enter));
    ReachStep(c, s0, s3, Launch(Begin));
    var s4 := Do(c, s3, Launch(Begin));
    ReachStep(c, s0, s4, Launch(LoopStop));
    var s5 := Do(c, s4, Launch(LoopStop));
    assert s5.ledger.calls[1] == 0;
  }

  // ---------------------------------------------------------------- the stop guarantee

  predicate StartFree(steps: seq<Step>) {
    forall i :: 0 <= i < |steps| ==> steps[i] != Client(StartCall)
  }

  function Spawns(steps: seq<Step>): nat {
    if steps == [] then 0
    else (if steps[0] == Launch(SpawnOk) then 1 else 0) + Spawns(steps[1..])
  }

  /** A spawn that the run loop may still make although the stop flag is set. */
  function PendingSpawn(pc: RunPc): nat {
    if pc == Pausing || (Window(pc) && pc.paused) then 1 else 0
  }

  lemma LaunchSpendsSpawn(c: Settings, s: System, x: LaunchStep)
    requires LockInv(s) && StopInv(c, s) && s.stopByUser && LaunchEnabled(c, s, x)
    ensures LaunchDo(c, s, x).stopByUser
    ensures PendingSpawn(LaunchDo(c, s, x).loop.pc) + (if x == SpawnOk then 1 else 0) <= PendingSpawn(s.loop.pc)
  {
  }

  lemma LaterStepSpendsNothing(c: Settings, s: System, step: Step)
    requires s.stopByUser && Enabled(c, s, step) && (step.Finish? || step.Settle?)
    ensures Do(c, s, step).stopByUser && PendingSpawn(Do(c, s, step).loop.pc) <= PendingSpawn(s.loop.pc)
  {
  }

  lemma OtherStepSpendsNothing(c: Settings, s: System, step: Step)
    requires s.stopByUser && Enabled(c, s, step) && step != Client(StartCall)
    requires step.Client? || step.Wait? || step.Watch?
    ensures Do(c, s, step).stopByUser && PendingSpawn(Do(c, s, step).loop.pc) <= PendingSpawn(s.loop.pc)
  {
  }

  lemma StepSpendsSpawn(c: Settings, s: System, step: Step)
    requires Inv(c, s) && s.stopByUser && Enabled(c, s, step) && step != Client(StartCall)
    ensures Do(c, s, step).stopByUser
    ensures PendingSpawn(Do(c, s, step).loop.pc) + (if step == Launch(SpawnOk) then 1 else 0) <= PendingSpawn(s.loop.pc)
  {
    if step.Launch? {
      LaunchSpendsSpawn(c, s, step.launch);
    } else if step.Finish? || step.Settle? {
      LaterStepSpendsNothing(c, s, step);
    } else {
      OtherStepSpendsNothing(c, s, step);
    }
  }

  /** After the stop flag is set and until Start clears it, at most one more child is spawned. */
  lemma {:induction false} AtMostOneSpawnAfterStop(c: Settings, s: System, steps: seq<Step>, t: System)
    requires Inv(c, s) && s.stopByUser && Runs(c, s, steps, t) && StartFree(steps)
    ensures t.stopByUser
    ensures Spawns(steps) + PendingSpawn(t.loop.pc) <= PendingSpawn(s.loop.pc)
    decreases |steps|
  {
    if steps != [] {
      StepSpendsSpawn(c, s, steps[0]);
      StepInv(c, s, steps[0]);
      assert StartFree(steps[1..]);
      AtMostOneSpawnAfterStop(c, Do(c, s, steps[0]), steps[1..], t);
    }
  }

  /** What the stop flag leaves possible until Start clears it: one child at most, none without a pause. */
  lemma SpawnsAfterStop(c: Settings, s: System, steps: seq<Step>, t: System)
    requires Reachable(c, s) && s.stopByUser && Runs(c, s, steps, t) && StartFree(steps)
    ensures Spawns(steps) <= 1
    ensures NeverPauses(c) ==> Spawns(steps) == 0
  {
    ReachableInv(c, s);
    AtMostOneSpawnAfterStop(c, s, steps, t);
  }

  /** A setting under which the run loop never pauses between the stop test and the spawn. */
  predicate NeverPauses(c: Settings) {
    c.restartPause <= 0 || c.startRetries <= 1
  }

  /** Some run without a successful Start leads from s to t. */
  ghost predicate ReachesWithoutStart(c: Settings, s: System, t: System) {
    exists steps :: Runs(c, s, steps, t) && StartFree(steps)
  }

  /**
    Once a Stop call that was under way in s has seen the process not running, no child is alive
    until a later Start.
   */
  ghost predicate StopIsFinal(c: Settings) {
    forall s, t, call |
      Reachable(c, s) && s.stopByUser && call in s.callers.stops && !s.callers.stops[call].Done? &&
      ReachesWithoutStart(c, s, t) && StopAt(t, call, Done) ::
      t.children.live == {}
  }

  lemma ExtendWithoutStart(c: Settings, s: System, t: System, step: Step) returns (u: System)
    requires ReachesWithoutStart(c, s, t) && Enabled(c, t, step) && step != Client(StartCall)
    ensures u == Do(c, t, step) && ReachesWithoutStart(c, s, u)
  {
    u := Do(c, t, step);
    var steps :| Runs(c, s, steps, t) && StartFree(steps);
    RunsAppend(c, s, steps, t, step);
    assert StartFree(steps + [step]);
  }

  /** A call of Stop that is done has left no child alive. */
  predicate NothingLeft(s: System, call: nat) {
    call in s.callers.stops && (s.callers.stops[call].Done? ==> s.children.live == {})
  }

  lemma ClientLeavesNothing(c: Settings, s: System, step: ClientStep, call: nat)
    requires ChildInv(s) && StateInv(s) && ClientEnabled(s, step) && NothingLeft(s, call)
    ensures NothingLeft(ClientDo(c, s, step), call)
  {
  }

  lemma LaunchLeavesNothing(c: Settings, s: System, step: LaunchStep, call: nat)
    requires NeverPauses(c) && StopInv(c, s) && s.stopByUser && LaunchEnabled(c, s, step) && NothingLeft(s, call)
    ensures NothingLeft(LaunchDo(c, s, step), call)
  {
  }

  lemma LaterStepLeavesNothing(c: Settings, s: System, step: Step, call: nat)
    requires Enabled(c, s, step) && (step.Finish? || step.Settle?) && NothingLeft(s, call)
    ensures NothingLeft(Do(c, s, step), call)
  {
  }

  lemma OtherStepLeavesNothing(c: Settings, s: System, step: Step, call: nat)
    requires Enabled(c, s, step) && (step.Wait? || step.Watch?) && NothingLeft(s, call)
    ensures NothingLeft(Do(c, s, step), call)
  {
  }

  lemma StopStepKeeps(c: Settings, s: System, step: Step, call: nat)
    requires NeverPauses(c) && Inv(c, s) && s.stopByUser && Enabled(c, s, step) && NothingLeft(s, call)
    ensures NothingLeft(Do(c, s, step), call)
  {
    if step.Client? {
      ClientLeavesNothing(c, s, step.client, call);
    } else if step.Launch? {
      LaunchLeavesNothing(c, s, step.launch, call);
    } else if step.Finish? || step.Settle? {
      LaterStepLeavesNothing(c, s, step, call);
    } else {
      OtherStepLeavesNothing(c, s, step, call);
    }
  }

  lemma {:induction false} StopRunKeeps(c: Settings, s: System, steps: seq<Step>, t: System, call: nat)
    requires NeverPauses(c) && Inv(c, s) && s.stopByUser && Runs(c, s, steps, t) && StartFree(steps)
    requires NothingLeft(s, call)
    ensures NothingLeft(t, call)
    decreases |steps|
  {
    if steps != [] {
      var u := Do(c, s, steps[0]);
      StopStepKeeps(c, s, steps[0], call);
      StepSpendsSpawn(c, s, steps[0]);
      StepInv(c, s, steps[0]);
      assert StartFree(steps[1..]);
      StopRunKeeps(c, u, steps[1..], t, call);
    }
  }

  /** The run in which restartpause lets a child start after Stop(true) has returned. */
  lemma StopOvertaken(c: Settings)
    requires !NeverPauses(c)
    ensures !StopIsFinal(c)
  {
    var s0 := Initial();
    ReachSelf(c, s0);
    var s1 := Do(c, s0, Client(StartCall));
    ReachStep(c, s0, s0, Client(StartCall));
    var s2 := Do(c, s1, Launch(Enter));
    ReachStep(c, s0, s1, Launch(Enter));
    var s3 := Do(c, s2, Launch(Begin));
    ReachStep(c, s0, s2, Launch(Begin));
    var s4 := Do(c, s3, Launch(LoopGo));
    ReachStep(c, s0, s3, Launch(LoopGo));
    var s5 := Do(c, s4, Launch(Prepare));
    ReachStep(c, s0, s4, Launch(Prepare));
    var s5b := Do(c, s5, Launch(Create));
    ReachStep(c, s0, s5, Launch(Create));
    var s6 := Do(c, s5b, Launch(SpawnFailsRetry));
    ReachStep(c, s0, s5b, Launch(SpawnFailsRetry));
    var s7 := Do(c, s6, Launch(LoopPause));
    ReachStep(c, s0, s6, Launch(LoopPause));
    var s8 := Do(c, s7, Client(StopFlag(0, true)));
    ReachStep(c, s0, s7, Client(StopFlag(0, true)));
    PausedSpawnOvertakes(c, s8);
  }

  lemma PausedSpawnOvertakes(c: Settings, s: System)
    requires Reachable(c, s) && s.stopByUser && StopAt(s, 0, Flagged(true))
    requires s.state == Backoff && s.lock == Free && s.loop.pc == Pausing && !s.callers.crashed
    ensures !StopIsFinal(c)
  {
    assert Runs(c, s, [], s) && StartFree([]);
    var t := ExtendWithoutStart(c, s, s, Client(StopTest(0)));
    t := PausedLoopSpawns(c, s, t);
  }

  lemma PausedLoopCreates(c: Settings, s: System, t: System) returns (u: System)
    requires ReachesWithoutStart(c, s, t) && t.lock == Free && t.loop.pc == Pausing && !t.callers.crashed
    ensures ReachesWithoutStart(c, s, u) && u.callers == t.callers && u.loop.pc == Spawning(true, true)
  {
    u := ExtendWithoutStart(c, s, t, Launch(Resume));
    u := ExtendWithoutStart(c, s, u, Launch(Prepare));
    u := ExtendWithoutStart(c, s, u, Launch(Create));
  }

  lemma PausedLoopSpawns(c: Settings, s: System, t: System) returns (u: System)
    requires ReachesWithoutStart(c, s, t) && t.lock == Free && t.loop.pc == Pausing && !t.callers.crashed
    ensures ReachesWithoutStart(c, s, u) && u.callers.stops == t.callers.stops && u.children.live != {}
  {
    u := PausedLoopCreates(c, s, t);
    u := ExtendWithoutStart(c, s, u, Launch(SpawnOk));
    assert Last(u.loop) in u.children.live;
  }

  /** Stop is final exactly when the loop never pauses: restartpause <= 0 or startretries <= 1. */
  lemma StopFinalIff(c: Settings)
    ensures StopIsFinal(c) <==> NeverPauses(c)
  {
    if NeverPauses(c) {
      forall s, t, call |
        Reachable(c, s) && s.stopByUser && call in s.callers.stops && !s.callers.stops[call].Done? &&
        ReachesWithoutStart(c, s, t) && StopAt(t, call, Done)
        ensures t.children.live == {}
      {
        ReachableInv(c, s);
        var steps :| Runs(c, s, steps, t) && StartFree(steps);
        StopRunKeeps(c, s, steps, t, call);
      }
    } else {
      StopOvertaken(c);
    }
  }
}
