/**
  How often `run` is called for a call of `Start`, as autorestart has it, and which signals a call of
  `Stop` sends.
 */
module LifecycleRestart {
  import opened LifecycleModel
  import opened LifecycleInvariant
  import opened LifecycleTheorems
  import opened LifecycleDiscipline
  import opened LifecycleRecovery
  import opened LifecycleStates

  // ---------------------------------------------------------------- calls of run

  /** How often the steps contain the step. */
  function Times(steps: seq<Step>, step: Step): nat {
    if steps == [] then 0 else (if steps[0] == step then 1 else 0) + Times(steps[1..], step)
  }

  /** A call of `run` that is launched and has not begun. */
  function AboutToRun(s: System): nat {
    if s.loop.pc == Launched then 1 else 0
  }

  /** A process without a child so far has no process at hand. */
  predicate ProcessHadChild(s: System) {
    s.loop.hasProcess ==> s.children.spawned != {}
  }

  lemma StepSpawned(c: Settings, s: System, step: Step)
    requires ProcessHadChild(s) && Enabled(c, s, step)
    ensures ProcessHadChild(Do(c, s, step)) && s.children.spawned <= Do(c, s, step).children.spawned
  {
  }

  lemma StepRuns(c: Settings, s: System, step: Step)
    requires LockInv(s) && ProcessHadChild(s) && Enabled(c, s, step)
    ensures ProcessHadChild(Do(c, s, step)) && s.children.spawned <= Do(c, s, step).children.spawned
    ensures step == Settle(Rerun) ==> c.autoRestart == Always || (c.autoRestart == Unexpected && s.children.spawned != {})
    ensures step != Settle(Rerun) ==>
              (if step == Launch(Enter) then 1 else 0) + AboutToRun(Do(c, s, step))
              == (if step == Client(StartCall) then 1 else 0) + AboutToRun(s)
  {
    StepSpawned(c, s, step);
  }

  lemma {:induction false} SpawnedGrows(c: Settings, s: System, steps: seq<Step>, t: System)
    requires Inv(c, s) && ProcessHadChild(s) && Runs(c, s, steps, t)
    ensures s.children.spawned <= t.children.spawned
    decreases |steps|
  {
    if steps != [] {
      StepRuns(c, s, steps[0]);
      StepInv(c, s, steps[0]);
      SpawnedGrows(c, Do(c, s, steps[0]), steps[1..], t);
    }
  }

  lemma {:induction false} CallsOfRun(c: Settings, s: System, steps: seq<Step>, t: System)
    requires Inv(c, s) && ProcessHadChild(s) && Runs(c, s, steps, t)
    requires c.autoRestart == Never || (c.autoRestart == Unexpected && t.children.spawned == {})
    ensures Times(steps, Launch(Enter)) + AboutToRun(t) == Times(steps, Client(StartCall)) + AboutToRun(s)
    decreases |steps|
  {
    if steps != [] {
      var u := Do(c, s, steps[0]);
      StepRuns(c, s, steps[0]);
      StepInv(c, s, steps[0]);
      SpawnedGrows(c, u, steps[1..], t);
      CallsOfRun(c, u, steps[1..], t);
    }
  }

  /**
    With autorestart switched off `run` is called exactly once for each call of Start that launches it;
    with the default this holds as long as no child has ever been spawned.
   */
  lemma OneRunPerStart(c: Settings, steps: seq<Step>, t: System)
    requires Runs(c, Initial(), steps, t)
    requires c.autoRestart == Never || (c.autoRestart == Unexpected && t.children.spawned == {})
    ensures Times(steps, Launch(Enter)) + AboutToRun(t) == Times(steps, Client(StartCall))
  {
    InitialInv(c);
    CallsOfRun(c, Initial(), steps, t);
  }

  /** The run loop is being left. */
  predicate LeftOnlyByStop(c: Settings, s: System) {
    c.autoRestart == Always && s.loop.pc == Leaving ==> s.stopByUser
  }

  lemma StepLeaves(c: Settings, s: System, step: Step)
    requires LockInv(s) && LeftOnlyByStop(c, s) && Enabled(c, s, step)
    ensures LeftOnlyByStop(c, Do(c, s, step))
  {
  }

  lemma {:induction false} RunsLeave(c: Settings, s: System, steps: seq<Step>, t: System)
    requires Inv(c, s) && LeftOnlyByStop(c, s) && Runs(c, s, steps, t)
    ensures LeftOnlyByStop(c, t)
    decreases |steps|
  {
    if steps != [] {
      StepLeaves(c, s, steps[0]);
      StepInv(c, s, steps[0]);
      RunsLeave(c, Do(c, s, steps[0]), steps[1..], t);
    }
  }

  /** With autorestart set to true the run loop is left only with the stop flag set. */
  lemma AlwaysRunsOn(c: Settings, s: System)
    requires Reachable(c, s) && c.autoRestart == Always && s.loop.pc == Leaving
    ensures s.stopByUser
  {
    InitialInv(c);
    var steps :| Runs(c, Initial(), steps, s);
    RunsLeave(c, Initial(), steps, s);
  }

  /** A call of `run` whose child has exited returns, and nobody has called Stop. */
  lemma FirstRunReturns(c: Settings, d: Discipline) returns (s: System)
    ensures ReachableUnder(c, d, s) && s.loop.pc == Returned && s.loop.hasProcess && s.callers == Initial().callers && !s.stopByUser
    ensures s.lock == Free
  {
    s := FirstChild(c, d);
    s := FirstSettled(c, d, s);
    if s.loop.retryTimes >= c.startRetries {
      s := Further(c, d, s, Settle(GiveUp));
    } else {
      s := Further(c, d, s, Settle(TryAgain));
      s := SecondAttemptFails(c, d, s);
    }
  }

  lemma SecondAttemptFails(c: Settings, d: Discipline, s0: System) returns (s: System)
    requires ReachableUnder(c, d, s0) && s0.loop.pc == LoopTop && !s0.callers.crashed && !s0.stopByUser && s0.lock == HeldByRun
    ensures ReachableUnder(c, d, s) && s.loop.pc == Returned && s.loop.hasProcess == s0.loop.hasProcess
    ensures s.callers == s0.callers && !s.stopByUser && s.lock == Free
  {
    if MustPause(c, s0.loop) {
      s := Further(c, d, s0, Launch(LoopPause));
      s := Further(c, d, s, Launch(Resume));
    } else {
      s := Further(c, d, s0, Launch(LoopGo));
    }
    s := Further(c, d, s, Launch(Prepare));
    s := Further(c, d, s, Launch(CreateFails));
  }

  lemma StepCounts(c: Settings, s: System, step: Step)
    requires Enabled(c, s, step)
    ensures Do(c, s, step).loop.runs == s.loop.runs + if step == Launch(Enter) then 1 else 0
  {
  }

  lemma {:induction false} RunsCounted(c: Settings, s: System, steps: seq<Step>, t: System)
    requires Runs(c, s, steps, t)
    ensures t.loop.runs == s.loop.runs + Times(steps, Launch(Enter))
    decreases |steps|
  {
    if steps != [] {
      StepCounts(c, s, steps[0]);
      RunsCounted(c, Do(c, s, steps[0]), steps[1..], t);
    }
  }

  lemma {:induction false} NoStartCalls(steps: seq<Step>)
    requires NoClients(steps)
    ensures Times(steps, Client(StartCall)) == 0
    decreases |steps|
  {
    if steps != [] {
      assert !steps[0].Client? && forall i | 0 <= i < |steps[1..]| :: steps[1..][i] == steps[i + 1];
      NoStartCalls(steps[1..]);
    }
  }

  lemma {:induction false} RunsKeepHadChild(c: Settings, s: System, steps: seq<Step>, t: System)
    requires Inv(c, s) && ProcessHadChild(s) && Runs(c, s, steps, t)
    ensures ProcessHadChild(t)
    decreases |steps|
  {
    if steps != [] {
      StepRuns(c, s, steps[0]);
      StepInv(c, s, steps[0]);
      RunsKeepHadChild(c, Do(c, s, steps[0]), steps[1..], t);
    }
  }

  lemma ReachableHadChild(c: Settings, s: System)
    requires Reachable(c, s)
    ensures Inv(c, s) && ProcessHadChild(s)
  {
    ReachableInv(c, s);
    InitialInv(c);
    var steps :| Runs(c, Initial(), steps, s);
    RunsKeepHadChild(c, Initial(), steps, s);
  }

  lemma NeverRunsAgain(c: Settings, s: System, t: System)
    requires c.autoRestart == Never && Reachable(c, s) && s.loop.pc == Returned && GoesOn(c, s, t)
    ensures t.loop.runs == s.loop.runs
  {
    ReachableHadChild(c, s);
    var steps :| Runs(c, s, steps, t) && NoClients(steps);
    NoStartCalls(steps);
    CallsOfRun(c, s, steps, t);
    RunsCounted(c, s, steps, t);
  }

  lemma SecondRun(c: Settings) returns (s: System, t: System)
    requires c.autoRestart != Never
    ensures Reachable(c, s) && s.loop.pc == Returned && GoesOn(c, s, t) && t.loop.runs > s.loop.runs
  {
    var d := Discipline(BeforeStops, true);
    s := FirstRunReturns(c, d);
    DisciplinedReachable(c, d, s);
    t := RunAgain(c, s);
  }

  lemma RunAgain(c: Settings, s: System) returns (t: System)
    requires c.autoRestart != Never && s.loop.pc == Returned && s.loop.hasProcess && !s.callers.crashed && !s.stopByUser
    requires s.lock == Free
    ensures GoesOn(c, s, t) && t.loop.runs > s.loop.runs
  {
    GoesFrom(c, s);
    t := Goes(c, s, s, Settle(Rerun));
    t := Goes(c, s, t, Launch(Enter));
  }

  /** Without a call of anybody `run` can be called again after it has returned, if and only if autorestart is not switched off. */
  lemma RunsAgainIff(c: Settings)
    ensures (exists s, t :: Reachable(c, s) && s.loop.pc == Returned && GoesOn(c, s, t) && t.loop.runs > s.loop.runs)
            <==> c.autoRestart != Never
  {
    if c.autoRestart == Never {
      forall s, t | Reachable(c, s) && s.loop.pc == Returned && GoesOn(c, s, t)
        ensures t.loop.runs == s.loop.runs
      {
        NeverRunsAgain(c, s, t);
      }
    } else {
      var s, t := SecondRun(c);
    }
  }

  // ---------------------------------------------------------------- the signals of a call of Stop

  /** How often SIGKILL became due: the check after the stop signal found the process running. */
  function KillsDue(c: Settings, s: System, steps: seq<Step>, call: nat): nat
    decreases |steps|
  {
    if steps == [] then 0
    else (if steps[0] == Client(SignalCheck(call)) && IsRunning(s.state) then 1 else 0)
         + KillsDue(c, Do(c, s, steps[0]), steps[1..], call)
  }

  /** The signals that the goroutine of a call still has to send for certain. */
  function SignalsLeft(s: System, call: nat): nat {
    if call in s.callers.signallers && !s.callers.signallers[call].Check? then 1 else 0
  }

  /** The call has launched the goroutine that sends its signals. */
  predicate Signalling(s: System, call: nat) {
    call in s.callers.stops && (s.callers.stops[call] == Waiting || s.callers.stops[call] == Detached || s.callers.stops[call] == Done)
  }

  lemma ClientSignals(c: Settings, s: System, step: ClientStep, call: nat)
    requires ClientEnabled(s, step) && Signalling(s, call) && !ClientDo(c, s, step).callers.crashed
    ensures Signalling(ClientDo(c, s, step), call)
    ensures (if step == Signal(call) then 1 else 0) + SignalsLeft(ClientDo(c, s, step), call)
            == SignalsLeft(s, call) + if step == SignalCheck(call) && IsRunning(s.state) then 1 else 0
  {
  }

  /** Only clients touch the calls of Stop. */
  lemma CallersLeft(c: Settings, s: System, step: Step)
    requires Enabled(c, s, step) && !step.Client?
    ensures Do(c, s, step).callers == s.callers
  {
  }

  lemma StepSignals(c: Settings, s: System, step: Step, call: nat)
    requires Enabled(c, s, step) && Signalling(s, call) && !Do(c, s, step).callers.crashed
    ensures Signalling(Do(c, s, step), call)
    ensures (if step == Client(Signal(call)) then 1 else 0) + SignalsLeft(Do(c, s, step), call)
            == SignalsLeft(s, call) + if step == Client(SignalCheck(call)) && IsRunning(s.state) then 1 else 0
  {
    if step.Client? {
      ClientSignals(c, s, step.client, call);
    } else {
      CallersLeft(c, s, step);
    }
  }

  lemma {:induction false} SignalsCounted(c: Settings, s: System, steps: seq<Step>, t: System, call: nat)
    requires Signalling(s, call) && Runs(c, s, steps, t) && !t.callers.crashed
    ensures Times(steps, Client(Signal(call))) + SignalsLeft(t, call) == SignalsLeft(s, call) + KillsDue(c, s, steps, call)
    decreases |steps|
  {
    if steps != [] {
      var u := Do(c, s, steps[0]);
      if u.callers.crashed {
        CrashedForever(c, u, steps[1..], t);
      }
      StepSignals(c, s, steps[0], call);
      SignalsCounted(c, u, steps[1..], t, call);
    }
  }

  /**
    A call of Stop that has stored Stopping sends its stop signal, and SIGKILL if and only if the check in
    between finds the process running: when its goroutine has ended these are the signals it has sent.
   */
  lemma SignalsOfStop(c: Settings, s: System, call: nat, steps: seq<Step>, t: System)
    requires Enabled(c, s, Client(StopStore(call))) && Runs(c, Do(c, s, Client(StopStore(call))), steps, t)
    requires !t.callers.crashed && call !in t.callers.signallers
    ensures Times(steps, Client(Signal(call))) == 1 + KillsDue(c, Do(c, s, Client(StopStore(call))), steps, call)
  {
    SignalsCounted(c, Do(c, s, Client(StopStore(call))), steps, t, call);
  }

  /** Where a call of Stop can be that was made with this value of wait. */
  predicate AsAsked(pc: StopPc, wait: bool) {
    match pc
    case Flagged(w) => w == wait
    case Committed(w) => w == wait
    case Storing(w) => w == wait
    case Waiting => wait
    case Detached => !wait
    case _ => true
  }

  lemma ClientAsAsked(c: Settings, s: System, step: ClientStep, call: nat, wait: bool)
    requires ClientEnabled(s, step) && call in s.callers.stops && AsAsked(s.callers.stops[call], wait)
    ensures call in ClientDo(c, s, step).callers.stops && AsAsked(ClientDo(c, s, step).callers.stops[call], wait)
  {
  }

  lemma {:induction false} RunsAsAsked(c: Settings, s: System, steps: seq<Step>, t: System, call: nat, wait: bool)
    requires call in s.callers.stops && AsAsked(s.callers.stops[call], wait) && Runs(c, s, steps, t)
    ensures call in t.callers.stops && AsAsked(t.callers.stops[call], wait)
    decreases |steps|
  {
    if steps != [] {
      if steps[0].Client? {
        ClientAsAsked(c, s, steps[0].client, call, wait);
      } else {
        CallersLeft(c, s, steps[0]);
      }
      RunsAsAsked(c, Do(c, s, steps[0]), steps[1..], t, call, wait);
    }
  }

  /** A call of Stop waits for the process only if it was asked to, and returns at once only if it was not. */
  lemma WaitsAsAsked(c: Settings, s: System, call: nat, wait: bool, steps: seq<Step>, t: System)
    requires Enabled(c, s, Client(StopFlag(call, wait))) && Runs(c, Do(c, s, Client(StopFlag(call, wait))), steps, t)
    ensures StopAt(t, call, Waiting) ==> wait
    ensures StopAt(t, call, Detached) ==> !wait
  {
    RunsAsAsked(c, Do(c, s, Client(StopFlag(call, wait))), steps, t, call, wait);
  }
}
