/**
  What the callers of `Start` and `Stop` may agree on, and the runs in which they keep to it.
 */
module LifecycleDiscipline {
  import opened LifecycleModel

  /** When `Start` may be called. */
  datatype StartRule =
    | AnyTime
    | AfterReturn     // once every call of Stop made so far has seen the process not running and returned
    | AfterSignals    // while no call of Stop is under way and none of their signals is still to be sent
    | BeforeStops     // before the first call of Stop

  /** A rule for Start, and whether every caller of Stop recovers a panic. */
  datatype Discipline = Discipline(start: StartRule, recovered: bool)

  predicate UnderWay(pc: StopPc) {
    pc.Flagged? || pc.Committed? || pc.Storing?
  }

  /** A call of Stop has set its flag and has not yet sent its last signal. */
  predicate StopUnderWay(s: System) {
    (exists t :: t in s.callers.stops && UnderWay(s.callers.stops[t])) || s.callers.signallers != map[]
  }

  predicate MayStart(rule: StartRule, s: System) {
    match rule
    case AnyTime => true
    case AfterReturn => forall t :: t in s.callers.stops ==> s.callers.stops[t] == Done
    case AfterSignals => !StopUnderWay(s)
    case BeforeStops => s.callers.stops == map[]
  }

  predicate Allowed(d: Discipline, s: System, step: Step) {
    match step
    case Client(StartCall) => MayStart(d.start, s)
    case Client(StopEvent(_, recovers)) => d.recovered ==> recovers
    case _ => true
  }

  /** The steps lead from s to t, each enabled and allowed where it is taken. */
  ghost predicate RunsUnder(c: Settings, d: Discipline, s: System, steps: seq<Step>, t: System)
    decreases |steps|
  {
    if steps == [] then s == t
    else Enabled(c, s, steps[0]) && Allowed(d, s, steps[0]) && RunsUnder(c, d, Do(c, s, steps[0]), steps[1..], t)
  }

  ghost predicate ReachableUnder(c: Settings, d: Discipline, s: System) {
    exists steps :: RunsUnder(c, d, Initial(), steps, s)
  }

  lemma {:induction false} DisciplinedRuns(c: Settings, d: Discipline, s: System, steps: seq<Step>, t: System)
    requires RunsUnder(c, d, s, steps, t)
    ensures Runs(c, s, steps, t)
    decreases |steps|
  {
    if steps != [] {
      DisciplinedRuns(c, d, Do(c, s, steps[0]), steps[1..], t);
    }
  }

  lemma DisciplinedReachable(c: Settings, d: Discipline, s: System)
    requires ReachableUnder(c, d, s)
    ensures Reachable(c, s)
  {
    var steps :| RunsUnder(c, d, Initial(), steps, s);
    DisciplinedRuns(c, d, Initial(), steps, s);
  }

  lemma {:induction false} RunsUnderAppend(c: Settings, d: Discipline, s: System, steps: seq<Step>, t: System, step: Step)
    requires RunsUnder(c, d, s, steps, t) && Enabled(c, t, step) && Allowed(d, t, step)
    ensures RunsUnder(c, d, s, steps + [step], Do(c, t, step))
    decreases |steps|
  {
    if steps == [] {
      assert (steps + [step])[1..] == [];
    } else {
      RunsUnderAppend(c, d, Do(c, s, steps[0]), steps[1..], t, step);
      assert (steps + [step])[1..] == steps[1..] + [step];
    }
  }

  lemma StartUnder(c: Settings, d: Discipline)
    ensures ReachableUnder(c, d, Initial())
  {
    assert RunsUnder(c, d, Initial(), [], Initial());
  }

  /** One more step. */
  lemma Further(c: Settings, d: Discipline, s: System, step: Step) returns (t: System)
    requires ReachableUnder(c, d, s) && Enabled(c, s, step) && Allowed(d, s, step)
    ensures t == Do(c, s, step) && ReachableUnder(c, d, t)
  {
    t := Do(c, s, step);
    var steps :| RunsUnder(c, d, Initial(), steps, s);
    RunsUnderAppend(c, d, Initial(), steps, s, step);
  }
}
