/**
  The inductive invariant of the process lifecycle and the proof that every step keeps it.
 */
module LifecycleInvariant {
  import opened LifecycleModel

  predicate Window(pc: RunPc) {
    pc.PreStart? || pc.Spawning?
  }

  /** The run loop is between making an attempt and accounting for it. */
  predicate InAttempt(pc: RunPc) {
    pc.Spawning? || pc.Spawned? || pc.Looping? || pc.LoopDone? || pc.AwaitMonitor? || pc.Accounting?
    || pc.Ending? || pc.BackingOff? || pc.RetryCheck?
  }

  /** The run loop is between the start of the retry loop and the next attempt. */
  predicate BeforeAttempt(pc: RunPc) {
    pc.LoopTop? || pc.Pausing? || pc.PreStart?
  }

  predicate Watching(pc: RunPc) {
    pc.Looping? || pc.LoopDone? || pc.AwaitMonitor?
  }

  predicate PreStore(w: WaiterPc) {
    w.Fresh? || w.Bound?
  }

  predicate InLock(m: MonitorPc) {
    m.Locked? || m.Checked? || m.Promoting?
  }

  function Max(a: int, b: int): int {
    if a < b then b else a
  }

  function CountOf(q: seq<nat>, r: nat): nat {
    if q == [] then 0 else CountOf(q[..|q| - 1], r) + (if q[|q| - 1] == r then 1 else 0)
  }

  /** One run loop, and the lock has exactly the owner the program counters say. */
  ghost predicate LockInv(s: System) {
    && (s.loop.inStart <==> s.loop.pc != Idle)
    && (s.lock == HeldByRun <==> Holds(s.loop.pc))
    && (s.lock.HeldByMonitor? ==> s.lock.attempt in s.monitors.at)
    && (forall k :: k in s.monitors.at ==> (InLock(s.monitors.at[k].pc) <==> s.lock == HeldByMonitor(k)))
  }

  /** Everything that belongs to an attempt belongs to one that was made. */
  ghost predicate ScopeInv(s: System) {
    && (InAttempt(s.loop.pc) ==> s.loop.runOf != [] && s.loop.runOf[Current(s.loop)] == s.loop.runs)
    && (forall k :: k in s.children.spawned ==> k < |s.loop.runOf|)
    && (forall k :: k in s.children.waiters ==> k < |s.loop.runOf|)
    && (forall k :: k in s.monitors.at ==> k < |s.loop.runOf|)
    && (forall k :: k in s.monitors.programExited ==> k < |s.loop.runOf|)
    && (forall k :: k in s.monitors.monitorExited ==> k < |s.loop.runOf|)
    && (forall k :: k in s.ledger.pending ==> k < |s.loop.runOf|)
  }

  /** At most one child, watched by its own waiter; older waiters have stored already. */
  ghost predicate ChildInv(s: System) {
    && (s.loop.pc == Looping ==> Current(s.loop) in s.children.waiters)
    && (s.loop.pc == Spawned || s.loop.pc == Looping || (s.loop.pc.Spawning? && s.loop.pc.created) ==> s.loop.cmd == Current(s.loop))
    && (forall k :: k in s.children.live ==>
          k == Current(s.loop)
          && (s.loop.pc == Spawned || (s.loop.pc == Looping && k in s.children.waiters && PreStore(s.children.waiters[k]))))
    && (forall k :: k in s.children.waiters && PreStore(s.children.waiters[k]) ==>
          k == Current(s.loop) && s.loop.pc == Looping)
    && (forall k :: k in s.children.waiters && s.children.waiters[k].Bound? ==> s.children.waiters[k].cmd == k)
  }

  /** While a child can be alive the state says so. */
  ghost predicate StateInv(s: System) {
    && (s.loop.pc.Spawning? || s.loop.pc == Spawned ==> IsRunning(s.state))
    && (forall k :: k in s.children.waiters && PreStore(s.children.waiters[k]) ==> IsRunning(s.state))
    && (s.loop.pc.Ending? ==> !IsRunning(s.loop.pc.last))
  }

  /** Between the stop test and the spawn the flag is clear, unless the loop paused in between. */
  ghost predicate StopInv(c: Settings, s: System) {
    && (Window(s.loop.pc) && !s.loop.pc.paused ==> !s.stopByUser)
    && (s.loop.pc == Pausing || (Window(s.loop.pc) && s.loop.pc.paused) ==> c.restartPause > 0 && c.startRetries > 1)
  }

  /** A monitor that may still promote belongs to the current attempt, whose time is up. */
  ghost predicate MonitorInv(s: System) {
    && (forall k :: k in s.monitors.at && k !in s.monitors.programExited ==>
          k == Current(s.loop) && (s.loop.pc == Looping || s.loop.pc == LoopDone))
    && (forall k :: k in s.monitors.at && (s.monitors.at[k].pc.Checked? || s.monitors.at[k].pc.Promoting?) ==>
          k == Current(s.loop) && Watching(s.loop.pc) && s.now >= s.monitors.at[k].endTime)
    && (forall k :: k in s.monitors.at && !s.monitors.at[k].pc.Timing? && k !in s.monitors.programExited ==>
          s.now >= s.monitors.at[k].endTime)
    && (forall k :: k in s.monitors.at && k == Current(s.loop) ==> s.monitors.at[k].endTime == s.loop.endTime)
    && (Watching(s.loop.pc) ==> Current(s.loop) in s.monitors.monitorExited || MonitorAt(s, Current(s.loop), Timing))
    && (s.loop.pc == AwaitMonitor ==> Current(s.loop) in s.monitors.programExited)
  }

  /** retryTimes counts the attempts of the current run, and never exceeds the limit. */
  ghost predicate RetryInv(c: Settings, l: Loop) {
    && (forall k :: 0 <= k < |l.runOf| ==> l.runOf[k] <= l.runs)
    && (l.pc == Entry ==> forall k :: 0 <= k < |l.runOf| ==> l.runOf[k] < l.runs)
    && (BeforeAttempt(l.pc) ==> l.retryTimes == 0 || l.retryTimes < c.startRetries)
    && (InAttempt(l.pc) ==> 1 <= l.retryTimes <= Max(1, c.startRetries))
    && (l.pc.Pausing? || l.pc == PreStart(true) ==> l.retryTimes != 0)
    && (BeforeAttempt(l.pc) || InAttempt(l.pc) ==> CountOf(l.runOf, l.runs) == l.retryTimes)
  }

  ghost predicate LimitInv(c: Settings, l: Loop) {
    forall r: nat :: CountOf(l.runOf, r) <= Max(1, c.startRetries)
  }

  /** No callback fires twice, and each one has a cause. */
  ghost predicate CalledInv(s: System) {
    && (forall r :: s.ledger.calls[r] <= 1)
    && (forall r :: r in s.ledger.calls <==> r in s.ledger.once || r in s.ledger.refused)
    && s.ledger.once !! s.ledger.refused
    && s.ledger.fatal <= s.ledger.once
    && (forall r :: r in s.ledger.once ==> r in s.ledger.fatal || HadChild(s, r))
  }

  /** Call r of `run` spawned a child. */
  ghost predicate HadChild(s: System, r: nat) {
    exists k :: k in s.children.spawned && RunOf(s.loop, k) == r
  }

  /** The current call of `run` has not been refused. */
  ghost predicate FreshInv(s: System) {
    && (forall r :: r in s.ledger.once || r in s.ledger.refused ==> r <= s.loop.runs)
    && (s.loop.pc == Entry ==> s.loop.runs !in s.ledger.once && s.loop.runs !in s.ledger.refused)
    && (BeforeAttempt(s.loop.pc) || InAttempt(s.loop.pc) ==> s.loop.runs !in s.ledger.refused)
    && (forall k :: k in s.children.spawned ==> RunOf(s.loop, k) !in s.ledger.refused)
  }

  /** A call of `run` that had a child has been called back or still owes the callback. */
  ghost predicate OwedInv(s: System) {
    && (forall k :: k in s.monitors.at ==> k in s.children.spawned)
    && (forall k :: k in s.ledger.pending ==> k in s.children.spawned)
    && (s.loop.pc == Spawned ==> Last(s.loop) in s.children.spawned)
    && (forall k :: k in s.children.spawned ==>
          || RunOf(s.loop, k) in s.ledger.once
          || k in s.monitors.at
          || k in s.ledger.pending
          || (s.loop.pc == Spawned && k == Last(s.loop)))
  }

  ghost predicate Inv(c: Settings, s: System) {
    && LockInv(s)
    && ScopeInv(s)
    && ChildInv(s)
    && StateInv(s)
    && StopInv(c, s)
    && MonitorInv(s)
    && RetryInv(c, s.loop)
    && LimitInv(c, s.loop)
    && CalledInv(s)
    && FreshInv(s)
    && OwedInv(s)
  }

  lemma InitialInv(c: Settings)
    ensures Inv(c, Initial())
  {
  }

  lemma {:induction false} CountAbsent(q: seq<nat>, r: nat)
    requires forall k :: 0 <= k < |q| ==> q[k] != r
    ensures CountOf(q, r) == 0
    decreases |q|
  {
    if q != [] {
      CountAbsent(q[..|q| - 1], r);
    }
  }

  lemma CountPush(q: seq<nat>, x: nat)
    ensures forall r: nat :: CountOf(q + [x], r) == CountOf(q, r) + (if r == x then 1 else 0)
  {
    assert (q + [x])[..|q|] == q;
  }

  lemma ClientKeepsControl(c: Settings, s: System, step: ClientStep)
    requires ClientEnabled(s, step)
    requires LockInv(s) && ScopeInv(s) && StopInv(c, s) && RetryInv(c, s.loop) && LimitInv(c, s.loop)
    ensures LockInv(ClientDo(c, s, step))
    ensures ScopeInv(ClientDo(c, s, step))
    ensures StopInv(c, ClientDo(c, s, step))
    ensures RetryInv(c, ClientDo(c, s, step).loop)
    ensures LimitInv(c, ClientDo(c, s, step).loop)
  {
    ClientLeaves(c, s, step);
  }

  /** A client leaves alone what belongs to attempts; only Start touches the run loop, when there is none. */
  lemma ClientLeaves(c: Settings, s: System, step: ClientStep)
    requires ClientEnabled(s, step)
    ensures var t := ClientDo(c, s, step);
            && t.children == s.children && t.monitors == s.monitors && t.ledger == s.ledger && t.lock == s.lock && t.now == s.now
            && t.loop == if step.StartCall? then s.loop.(inStart := true, pc := Launched) else s.loop
  {
  }

  lemma ClientKeepsChild(c: Settings, s: System, step: ClientStep)
    requires ClientEnabled(s, step)
    requires LockInv(s) && ScopeInv(s) && ChildInv(s) && StateInv(s)
    ensures ChildInv(ClientDo(c, s, step))
    ensures StateInv(ClientDo(c, s, step))
  {
  }

  lemma ClientKeepsMonitor(c: Settings, s: System, step: ClientStep)
    requires ClientEnabled(s, step)
    requires LockInv(s) && ScopeInv(s) && MonitorInv(s)
    ensures MonitorInv(ClientDo(c, s, step))
  {
    ClientLeaves(c, s, step);
  }

  lemma ClientKeepsCalled(c: Settings, s: System, step: ClientStep)
    requires ClientEnabled(s, step)
    requires ScopeInv(s) && CalledInv(s) && FreshInv(s) && OwedInv(s)
    ensures CalledInv(ClientDo(c, s, step))
  {
  }

  lemma ClientKeepsFresh(c: Settings, s: System, step: ClientStep)
    requires ClientEnabled(s, step)
    requires ScopeInv(s) && RetryInv(c, s.loop) && FreshInv(s) && OwedInv(s)
    ensures FreshInv(ClientDo(c, s, step))
  {
  }

  lemma ClientKeepsOwed(c: Settings, s: System, step: ClientStep)
    requires ClientEnabled(s, step)
    requires LockInv(s) && ScopeInv(s) && OwedInv(s)
    ensures OwedInv(ClientDo(c, s, step))
  {
  }

  lemma ClientKeepsInv(c: Settings, s: System, step: ClientStep)
    requires Inv(c, s) && ClientEnabled(s, step)
    ensures Inv(c, ClientDo(c, s, step))
  {
    ClientKeepsControl(c, s, step);
    ClientKeepsChild(c, s, step);
    ClientKeepsMonitor(c, s, step);
    ClientKeepsCalled(c, s, step);
    ClientKeepsFresh(c, s, step);
    ClientKeepsOwed(c, s, step);
  }

  lemma LaunchKeepsLock(c: Settings, s: System, step: LaunchStep)
    requires LaunchEnabled(c, s, step)
    requires LockInv(s)
    ensures LockInv(LaunchDo(c, s, step))
  {
  }

  lemma LaunchKeepsScope(c: Settings, s: System, step: LaunchStep)
    requires LaunchEnabled(c, s, step)
    requires LockInv(s) && ScopeInv(s) && StopInv(c, s) && RetryInv(c, s.loop)
    ensures ScopeInv(LaunchDo(c, s, step))
    ensures StopInv(c, LaunchDo(c, s, step))
  {
    LaunchLeaves(c, s, step);
  }

  lemma LaunchKeepsChild(c: Settings, s: System, step: LaunchStep)
    requires LaunchEnabled(c, s, step)
    requires LockInv(s) && ScopeInv(s) && ChildInv(s) && StateInv(s)
    ensures ChildInv(LaunchDo(c, s, step))
    ensures StateInv(LaunchDo(c, s, step))
  {
  }

  lemma LaunchKeepsMonitor(c: Settings, s: System, step: LaunchStep)
    requires LaunchEnabled(c, s, step)
    requires LockInv(s) && ScopeInv(s) && MonitorInv(s)
    ensures MonitorInv(LaunchDo(c, s, step))
  {
    LaunchLeaves(c, s, step);
  }

  /** Up to the spawn the run loop leaves the monitors alone, and only a new attempt changes the list of attempts. */
  lemma LaunchLeaves(c: Settings, s: System, step: LaunchStep)
    requires LaunchEnabled(c, s, step)
    ensures var t := LaunchDo(c, s, step);
            && t.monitors == s.monitors && t.now == s.now
            && !Watching(t.loop.pc) && !Watching(s.loop.pc)
            && (!step.Refuse? && !step.CreateFails? && !step.SpawnFailsFinally? ==> t.ledger == s.ledger)
            && (!step.Prepare? ==> t.loop.runOf == s.loop.runOf && t.loop.endTime == s.loop.endTime)
            && (step.Prepare? ==> t.loop.runOf == s.loop.runOf + [s.loop.runs])
  {
  }

  lemma PrepareKeepsRetry(c: Settings, l: Loop, m: Loop)
    requires RetryInv(c, l) && l.pc.PreStart?
    requires m.pc.Spawning? && m.runs == l.runs && m.runOf == l.runOf + [l.runs] && m.retryTimes == l.retryTimes + 1
    ensures RetryInv(c, m)
  {
    CountPush(l.runOf, l.runs);
  }

  lemma BeginKeepsRetry(c: Settings, l: Loop, m: Loop)
    requires RetryInv(c, l) && l.pc == Entry
    requires m.pc == LoopTop && m.runs == l.runs && m.runOf == l.runOf && m.retryTimes == 0
    ensures RetryInv(c, m)
  {
    CountAbsent(l.runOf, l.runs);
  }

  lemma LaunchKeepsRetry(c: Settings, s: System, step: LaunchStep)
    requires LaunchEnabled(c, s, step)
    requires RetryInv(c, s.loop)
    ensures RetryInv(c, LaunchDo(c, s, step).loop)
  {
    if step.Begin? {
      BeginKeepsRetry(c, s.loop, LaunchDo(c, s, step).loop);
    } else if step.Prepare? {
      PrepareKeepsRetry(c, s.loop, LaunchDo(c, s, step).loop);
    }
  }

  lemma LaunchKeepsLimit(c: Settings, s: System, step: LaunchStep)
    requires LaunchEnabled(c, s, step)
    requires RetryInv(c, s.loop) && LimitInv(c, s.loop)
    ensures LimitInv(c, LaunchDo(c, s, step).loop)
  {
    if step.Prepare? {
      CountPush(s.loop.runOf, s.loop.runs);
      forall r: nat
        ensures CountOf(s.loop.runOf + [s.loop.runs], r) <= Max(1, c.startRetries)
      {
        assert CountOf(s.loop.runOf, r) <= Max(1, c.startRetries);
      }
    } else {
      assert LaunchDo(c, s, step).loop.runOf == s.loop.runOf;
    }
  }

  lemma LaunchKeepsCalled(c: Settings, s: System, step: LaunchStep)
    requires LaunchEnabled(c, s, step)
    requires ScopeInv(s) && CalledInv(s) && FreshInv(s) && OwedInv(s)
    ensures CalledInv(LaunchDo(c, s, step))
  {
    LaunchLeaves(c, s, step);
  }

  lemma LaunchKeepsFresh(c: Settings, s: System, step: LaunchStep)
    requires LaunchEnabled(c, s, step)
    requires ScopeInv(s) && RetryInv(c, s.loop) && FreshInv(s) && OwedInv(s)
    ensures FreshInv(LaunchDo(c, s, step))
  {
    LaunchLeaves(c, s, step);
  }

  lemma LaunchKeepsOwed(c: Settings, s: System, step: LaunchStep)
    requires LaunchEnabled(c, s, step)
    requires LockInv(s) && ScopeInv(s) && OwedInv(s)
    ensures OwedInv(LaunchDo(c, s, step))
  {
    LaunchLeaves(c, s, step);
  }

  lemma LaunchKeepsInv(c: Settings, s: System, step: LaunchStep)
    requires Inv(c, s) && LaunchEnabled(c, s, step)
    ensures Inv(c, LaunchDo(c, s, step))
  {
    LaunchKeepsLock(c, s, step);
    LaunchKeepsScope(c, s, step);
    LaunchKeepsChild(c, s, step);
    LaunchKeepsMonitor(c, s, step);
    LaunchKeepsRetry(c, s, step);
    LaunchKeepsLimit(c, s, step);
    LaunchKeepsCalled(c, s, step);
    LaunchKeepsFresh(c, s, step);
    LaunchKeepsOwed(c, s, step);
  }

  lemma FinishKeepsLock(c: Settings, s: System, step: FinishStep)
    requires FinishEnabled(s, step)
    requires LockInv(s)
    ensures LockInv(FinishDo(c, s, step))
  {
  }

  lemma LaunchedKeepsScope(c: Settings, s: System)
    requires FinishEnabled(s, LaunchGoroutines)
    requires LockInv(s) && ScopeInv(s) && StopInv(c, s) && RetryInv(c, s.loop)
    ensures ScopeInv(FinishDo(c, s, LaunchGoroutines))
    ensures StopInv(c, FinishDo(c, s, LaunchGoroutines))
  {
  }

  lemma FinishKeepsScope(c: Settings, s: System, step: FinishStep)
    requires FinishEnabled(s, step)
    requires LockInv(s) && ScopeInv(s) && StopInv(c, s) && RetryInv(c, s.loop)
    ensures ScopeInv(FinishDo(c, s, step))
    ensures StopInv(c, FinishDo(c, s, step))
  {
    if step == LaunchGoroutines {
      LaunchedKeepsScope(c, s);
    }
  }

  lemma FinishKeepsChild(c: Settings, s: System, step: FinishStep)
    requires FinishEnabled(s, step)
    requires LockInv(s) && ScopeInv(s) && ChildInv(s) && StateInv(s)
    ensures ChildInv(FinishDo(c, s, step))
    ensures StateInv(FinishDo(c, s, step))
  {
  }

  lemma FinishKeepsMonitor(c: Settings, s: System, step: FinishStep)
    requires FinishEnabled(s, step)
    requires LockInv(s) && ScopeInv(s) && MonitorInv(s)
    ensures MonitorInv(FinishDo(c, s, step))
  {
  }

  lemma FinishKeepsRetry(c: Settings, s: System, step: FinishStep)
    requires FinishEnabled(s, step)
    requires RetryInv(c, s.loop) && LimitInv(c, s.loop)
    ensures RetryInv(c, FinishDo(c, s, step).loop)
    ensures LimitInv(c, FinishDo(c, s, step).loop)
  {
  }

  lemma FinishKeepsCalled(c: Settings, s: System, step: FinishStep)
    requires FinishEnabled(s, step)
    requires ScopeInv(s) && CalledInv(s) && FreshInv(s) && OwedInv(s)
    ensures CalledInv(FinishDo(c, s, step))
  {
  }

  lemma FinishKeepsFresh(c: Settings, s: System, step: FinishStep)
    requires FinishEnabled(s, step)
    requires ScopeInv(s) && RetryInv(c, s.loop) && FreshInv(s) && OwedInv(s)
    ensures FreshInv(FinishDo(c, s, step))
  {
  }

  lemma FinishKeepsOwed(c: Settings, s: System, step: FinishStep)
    requires FinishEnabled(s, step)
    requires LockInv(s) && ScopeInv(s) && OwedInv(s)
    ensures OwedInv(FinishDo(c, s, step))
  {
  }

  lemma FinishKeepsInv(c: Settings, s: System, step: FinishStep)
    requires Inv(c, s) && FinishEnabled(s, step)
    ensures Inv(c, FinishDo(c, s, step))
  {
    FinishKeepsLock(c, s, step);
    FinishKeepsScope(c, s, step);
    FinishKeepsChild(c, s, step);
    FinishKeepsMonitor(c, s, step);
    FinishKeepsRetry(c, s, step);
    FinishKeepsCalled(c, s, step);
    FinishKeepsFresh(c, s, step);
    FinishKeepsOwed(c, s, step);
  }

  /** Settling an attempt leaves its child, its monitor and the list of attempts alone. */
  lemma SettleLeaves(c: Settings, s: System, step: SettleStep)
    requires SettleEnabled(c, s, step)
    ensures var t := SettleDo(s, step);
            && t.children == s.children && t.monitors == s.monitors && t.now == s.now && t.ledger.pending == s.ledger.pending
            && t.loop.runOf == s.loop.runOf && t.loop.runs == s.loop.runs && t.loop.retryTimes == s.loop.retryTimes
            && t.loop.endTime == s.loop.endTime && !Watching(t.loop.pc) && !Watching(s.loop.pc)
            && (!step.GiveUp? ==> t.ledger == s.ledger)
  {
  }

  lemma SettleKeepsLock(c: Settings, s: System, step: SettleStep)
    requires SettleEnabled(c, s, step)
    requires LockInv(s)
    ensures LockInv(SettleDo(s, step))
  {
  }

  lemma SettleKeepsScope(c: Settings, s: System, step: SettleStep)
    requires SettleEnabled(c, s, step)
    requires LockInv(s) && ScopeInv(s) && StopInv(c, s) && RetryInv(c, s.loop)
    ensures ScopeInv(SettleDo(s, step))
    ensures StopInv(c, SettleDo(s, step))
  {
    SettleLeaves(c, s, step);
  }

  lemma SettleKeepsChild(c: Settings, s: System, step: SettleStep)
    requires SettleEnabled(c, s, step)
    requires LockInv(s) && ScopeInv(s) && ChildInv(s) && StateInv(s)
    ensures ChildInv(SettleDo(s, step))
    ensures StateInv(SettleDo(s, step))
  {
  }

  lemma SettleKeepsMonitor(c: Settings, s: System, step: SettleStep)
    requires SettleEnabled(c, s, step)
    requires LockInv(s) && ScopeInv(s) && MonitorInv(s)
    ensures MonitorInv(SettleDo(s, step))
  {
    SettleLeaves(c, s, step);
  }

  lemma SettleKeepsRetry(c: Settings, s: System, step: SettleStep)
    requires SettleEnabled(c, s, step)
    requires RetryInv(c, s.loop) && LimitInv(c, s.loop)
    ensures RetryInv(c, SettleDo(s, step).loop)
    ensures LimitInv(c, SettleDo(s, step).loop)
  {
    SettleLeaves(c, s, step);
  }

  lemma SettleKeepsCalled(c: Settings, s: System, step: SettleStep)
    requires SettleEnabled(c, s, step)
    requires ScopeInv(s) && CalledInv(s) && FreshInv(s) && OwedInv(s)
    ensures CalledInv(SettleDo(s, step))
  {
    SettleLeaves(c, s, step);
  }

  lemma SettleKeepsFresh(c: Settings, s: System, step: SettleStep)
    requires SettleEnabled(c, s, step)
    requires ScopeInv(s) && RetryInv(c, s.loop) && FreshInv(s) && OwedInv(s)
    ensures FreshInv(SettleDo(s, step))
  {
    SettleLeaves(c, s, step);
  }

  lemma SettleKeepsOwed(c: Settings, s: System, step: SettleStep)
    requires SettleEnabled(c, s, step)
    requires LockInv(s) && ScopeInv(s) && OwedInv(s)
    ensures OwedInv(SettleDo(s, step))
  {
    SettleLeaves(c, s, step);
  }

  lemma SettleKeepsInv(c: Settings, s: System, step: SettleStep)
    requires Inv(c, s) && SettleEnabled(c, s, step)
    ensures Inv(c, SettleDo(s, step))
  {
    SettleKeepsLock(c, s, step);
    SettleKeepsScope(c, s, step);
    SettleKeepsChild(c, s, step);
    SettleKeepsMonitor(c, s, step);
    SettleKeepsRetry(c, s, step);
    SettleKeepsCalled(c, s, step);
    SettleKeepsFresh(c, s, step);
    SettleKeepsOwed(c, s, step);
  }

  lemma WaitKeepsControl(c: Settings, s: System, step: WaitStep)
    requires WaitEnabled(s, step)
    requires LockInv(s) && ScopeInv(s) && StopInv(c, s) && RetryInv(c, s.loop) && LimitInv(c, s.loop)
    ensures LockInv(WaitDo(s, step))
    ensures ScopeInv(WaitDo(s, step))
    ensures StopInv(c, WaitDo(s, step))
    ensures RetryInv(c, WaitDo(s, step).loop)
    ensures LimitInv(c, WaitDo(s, step).loop)
  {
  }

  lemma WaitKeepsChild(c: Settings, s: System, step: WaitStep)
    requires WaitEnabled(s, step)
    requires LockInv(s) && ScopeInv(s) && ChildInv(s) && StateInv(s)
    ensures ChildInv(WaitDo(s, step))
    ensures StateInv(WaitDo(s, step))
  {
  }

  lemma WaitKeepsMonitor(c: Settings, s: System, step: WaitStep)
    requires WaitEnabled(s, step)
    requires LockInv(s) && ScopeInv(s) && MonitorInv(s)
    ensures MonitorInv(WaitDo(s, step))
  {
  }

  lemma WaitKeepsCalled(c: Settings, s: System, step: WaitStep)
    requires WaitEnabled(s, step)
    requires ScopeInv(s) && CalledInv(s) && FreshInv(s) && OwedInv(s)
    ensures CalledInv(WaitDo(s, step))
  {
  }

  lemma WaitKeepsFresh(c: Settings, s: System, step: WaitStep)
    requires WaitEnabled(s, step)
    requires ScopeInv(s) && RetryInv(c, s.loop) && FreshInv(s) && OwedInv(s)
    ensures FreshInv(WaitDo(s, step))
  {
  }

  lemma WaitKeepsOwed(c: Settings, s: System, step: WaitStep)
    requires WaitEnabled(s, step)
    requires LockInv(s) && ScopeInv(s) && OwedInv(s)
    ensures OwedInv(WaitDo(s, step))
  {
  }

  lemma WaitKeepsInv(c: Settings, s: System, step: WaitStep)
    requires Inv(c, s) && WaitEnabled(s, step)
    ensures Inv(c, WaitDo(s, step))
  {
    WaitKeepsControl(c, s, step);
    WaitKeepsChild(c, s, step);
    WaitKeepsMonitor(c, s, step);
    WaitKeepsCalled(c, s, step);
    WaitKeepsFresh(c, s, step);
    WaitKeepsOwed(c, s, step);
  }

  lemma WatchKeepsLock(c: Settings, s: System, step: MonitorStep)
    requires WatchEnabled(s, step)
    requires LockInv(s)
    ensures LockInv(WatchDo(s, step))
  {
  }

  lemma WatchKeepsControl(c: Settings, s: System, step: MonitorStep)
    requires WatchEnabled(s, step)
    requires ScopeInv(s) && StopInv(c, s) && RetryInv(c, s.loop) && LimitInv(c, s.loop)
    ensures ScopeInv(WatchDo(s, step))
    ensures StopInv(c, WatchDo(s, step))
    ensures RetryInv(c, WatchDo(s, step).loop)
    ensures LimitInv(c, WatchDo(s, step).loop)
  {
  }

  lemma WatchKeepsChild(c: Settings, s: System, step: MonitorStep)
    requires WatchEnabled(s, step)
    requires LockInv(s) && ScopeInv(s) && ChildInv(s) && StateInv(s)
    ensures ChildInv(WatchDo(s, step))
    ensures StateInv(WatchDo(s, step))
  {
  }

  lemma WatchKeepsMonitor(c: Settings, s: System, step: MonitorStep)
    requires WatchEnabled(s, step)
    requires LockInv(s) && ScopeInv(s) && MonitorInv(s)
    ensures MonitorInv(WatchDo(s, step))
  {
  }

  lemma WatchKeepsCalled(c: Settings, s: System, step: MonitorStep)
    requires WatchEnabled(s, step)
    requires ScopeInv(s) && CalledInv(s) && FreshInv(s) && OwedInv(s)
    ensures CalledInv(WatchDo(s, step))
  {
  }

  lemma WatchKeepsFresh(c: Settings, s: System, step: MonitorStep)
    requires WatchEnabled(s, step)
    requires ScopeInv(s) && RetryInv(c, s.loop) && FreshInv(s) && OwedInv(s)
    ensures FreshInv(WatchDo(s, step))
  {
  }

  lemma WatchKeepsOwed(c: Settings, s: System, step: MonitorStep)
    requires WatchEnabled(s, step)
    requires LockInv(s) && ScopeInv(s) && OwedInv(s)
    ensures OwedInv(WatchDo(s, step))
  {
  }

  lemma WatchKeepsInv(c: Settings, s: System, step: MonitorStep)
    requires Inv(c, s) && WatchEnabled(s, step)
    ensures Inv(c, WatchDo(s, step))
  {
    WatchKeepsLock(c, s, step);
    WatchKeepsControl(c, s, step);
    WatchKeepsChild(c, s, step);
    WatchKeepsMonitor(c, s, step);
    WatchKeepsCalled(c, s, step);
    WatchKeepsFresh(c, s, step);
    WatchKeepsOwed(c, s, step);
  }

  /** Every step keeps the invariant. */
  lemma StepInv(c: Settings, s: System, step: Step)
    requires Inv(c, s) && Enabled(c, s, step)
    ensures Inv(c, Do(c, s, step))
  {
    match step
    case Client(x) => ClientKeepsInv(c, s, x);
    case Launch(x) => LaunchKeepsInv(c, s, x);
    case Finish(x) => FinishKeepsInv(c, s, x);
    case Settle(x) => SettleKeepsInv(c, s, x);
    case Wait(x) => WaitKeepsInv(c, s, x);
    case Watch(x) => WatchKeepsInv(c, s, x);
  }

  lemma {:induction false} RunsInv(c: Settings, s: System, steps: seq<Step>, t: System)
    requires Inv(c, s) && Runs(c, s, steps, t)
    ensures Inv(c, t)
    decreases |steps|
  {
    if steps != [] {
      StepInv(c, s, steps[0]);
      RunsInv(c, Do(c, s, steps[0]), steps[1..], t);
    }
  }

  lemma ReachableInv(c: Settings, s: System)
    requires Reachable(c, s)
    ensures Inv(c, s)
  {
    InitialInv(c);
    var steps :| Runs(c, Initial(), steps, s);
    RunsInv(c, Initial(), steps, s);
  }
}
