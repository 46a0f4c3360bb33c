/**
  Reloading (supervisor.go:453-496, 514-524). The
  configuration and the process manager both index programs by name, and a process shares the entry
  of its program with the configuration; a reload has to keep the two in agreement.
 */
module Supervisor {
  import opened ConfigEntry
  import opened Configuration
  import opened DependencyGraph
  import opened ProcessManager
  import opened ProcessSort
  import opened Util

  /** The programs that vanished from the files. */
  function Gone(snap: Snapshot, sections: seq<Section>): set<string> {
    ProgramsIn(snap) - ProgramNames(sections)
  }

  /** What is left of a loaded configuration once they are dropped. */
  function Reloaded(snap: Snapshot, sections: seq<Section>): Snapshot {
    Load(snap, sections) - Gone(snap, sections)
  }

  lemma ReloadedPrograms(snap: Snapshot, sections: seq<Section>)
    requires NamesMatch(snap) && NoCollision(snap, sections)
    ensures ProgramsIn(Reloaded(snap, sections)) == ProgramNames(sections)
    ensures ProgramsIn(Load(snap, sections)) - Gone(snap, sections) == ProgramNames(sections)
    ensures NamesMatch(Reloaded(snap, sections))
  {
    LoadPrograms(snap, sections);
    var t := Load(snap, sections);
    assert ProgramsIn(Reloaded(snap, sections)) == ProgramsIn(t) - Gone(snap, sections);
  }

  lemma ReloadedAcyclic(snap: Snapshot, sections: seq<Section>)
    requires Acyclic(SnapshotGraph(Load(snap, sections)))
    ensures Acyclic(SnapshotGraph(Reloaded(snap, sections)))
  {
    SubgraphAcyclic(SnapshotGraph(Load(snap, sections)), SnapshotGraph(Reloaded(snap, sections)));
  }

  /** What a sequence of reloads makes of a configuration. */
  function ReloadedAll(snap: Snapshot, history: seq<seq<Section>>): Snapshot
    decreases |history|
  {
    if history == [] then snap else ReloadedAll(Reloaded(snap, history[0]), history[1..])
  }

  /** Every one of the reloads finds what it needs. */
  ghost predicate Reloadable(snap: Snapshot, history: seq<seq<Section>>)
    decreases |history|
  {
    history == [] ||
    (&& NoCollision(snap, history[0]) && Acyclic(SnapshotGraph(Load(snap, history[0])))
     && Reloadable(Reloaded(snap, history[0]), history[1..]))
  }

  /** However often the configuration is loaded again, it then holds the programs of the last load and no other. */
  lemma {:induction false} AfterReloads(snap: Snapshot, history: seq<seq<Section>>)
    requires NamesMatch(snap) && Acyclic(SnapshotGraph(snap)) && Reloadable(snap, history)
    ensures NamesMatch(ReloadedAll(snap, history)) && Acyclic(SnapshotGraph(ReloadedAll(snap, history)))
    ensures history != [] ==> ProgramsIn(ReloadedAll(snap, history)) == ProgramNames(history[|history| - 1])
    decreases |history|
  {
    if history != [] {
      ReloadedPrograms(snap, history[0]);
      ReloadedAcyclic(snap, history[0]);
      AfterReloads(Reloaded(snap, history[0]), history[1..]);
    }
  }

  class Supervisor {
    const config: Config
    const procMgr: Manager

    constructor ()
      ensures fresh(config) && fresh(procMgr) && Consistent() && procMgr.procs == map[]
    {
      config := new Config();
      procMgr := new Manager();
    }

    /** Every process belongs to a program of the configuration and holds that program's own entry. */
    ghost predicate ShareEntries()
      reads config, procMgr, procMgr.procs.Values
    {
      forall n | n in procMgr.procs :: n in config.entries && procMgr.procs[n].config == config.entries[n]
    }

    /** The two indexes agree. */
    ghost predicate Consistent()
      reads config, config.entries.Values, procMgr, procMgr.procs.Values
    {
      && config.Valid() && Acyclic(SnapshotGraph(config.Snap()))
      && procMgr.procs.Keys == ProgramsIn(config.Snap())
      && ShareEntries()
    }

    /** All processes that were there stay as they are, and the new ones have not been stopped yet. */
    twostate predicate OnlyAdds()
      reads procMgr, procMgr.procs.Values
    {
      && (forall n | n in old(procMgr.procs) ::
          n in procMgr.procs && procMgr.procs[n] == old(procMgr.procs)[n] && procMgr.procs[n].stops == old(procMgr.procs[n].stops))
      && (forall n | n in procMgr.procs && n !in old(procMgr.procs) :: fresh(procMgr.procs[n]) && procMgr.procs[n].stops == 0)
    }

    /** The entries of the programs with the given names, each filed under its name. */
    ghost predicate Lists(programs: seq<Entry>, names: set<string>)
      reads config, programs
    {
      && (forall e | e in programs :: e.IsProgram() && e.GetProgramName() in names)
      && (forall n | n in names :: n in config.entries && config.entries[n] in programs && config.entries[n].GetProgramName() == n)
      && (forall e | e in programs :: e.GetProgramName() in config.entries && config.entries[e.GetProgramName()] == e)
    }

    /** While the indexes agree, the manager can list its processes in the order of starting. */
    lemma CanListProcesses()
      requires Consistent()
      ensures procMgr.OwnEntries() && procMgr.HasGraph(SnapshotGraph(config.Snap())) && Acyclic(SnapshotGraph(config.Snap()))
    {
      forall n | n in procMgr.procs
        ensures procMgr.procs[n].config.IsProgram()
      {
        assert n in ProgramsIn(config.Snap());
      }
      forall names: seq<string> | NoRepeats(names) && SetOf(names) == procMgr.procs.Keys
        ensures (forall n | n in names :: n in SetOf(names)) && GraphOf(procMgr.EntriesOf(names)) == SnapshotGraph(config.Snap())
      {
        EntriesEnumerate(names);
        config.EnumeratedGraph(procMgr.EntriesOf(names));
      }
    }

    lemma EntriesEnumerate(names: seq<string>)
      requires Consistent() && NoRepeats(names) && SetOf(names) == procMgr.procs.Keys
      ensures forall n | n in names :: n in procMgr.procs
      ensures config.Enumerates(procMgr.EntriesOf(names))
    {
      assert forall n | n in names :: n in SetOf(names);
      var r := procMgr.EntriesOf(names);
      forall e | e in r
        ensures exists n :: n in config.entries && config.entries[n] == e && e.IsProgram()
      {
        var i :| 0 <= i < |r| && r[i] == e;
        assert names[i] in ProgramsIn(config.Snap());
      }
      forall n | n in config.entries && config.entries[n].IsProgram()
        ensures config.entries[n] in r
      {
        assert n in ProgramsIn(config.Snap());
        assert n in SetOf(names);
        var i :| 0 <= i < |names| && names[i] == n;
        assert r[i] == config.entries[n];
      }
    }

    /** The loop of createPrograms over GetPrograms. */
    method CreateAll(programs: seq<Entry>, ghost names: set<string>)
      requires ShareEntries() && Lists(programs, names) && procMgr.procs.Keys <= names
      modifies procMgr
      ensures ShareEntries() && OnlyAdds()
      ensures procMgr.procs.Keys == names
    {
      var i := 0;
      while i < |programs|
        invariant 0 <= i <= |programs| && ShareEntries()
        invariant OnlyAdds() && procMgr.procs.Keys <= names
        invariant forall k | 0 <= k < i :: programs[k].GetProgramName() in procMgr.procs
      {
        var proc := procMgr.CreateProcess(programs[i]);
        i := i + 1;
      }
    }

    method ListPrograms() returns (programs: seq<Entry>)
      requires config.Valid() && Acyclic(SnapshotGraph(config.Snap()))
      ensures Lists(programs, ProgramsIn(config.Snap()))
    {
      programs := config.GetPrograms();
      config.Filed(programs);
      config.ProgramsListed(programs);
    }

    method CreateProcesses()
      requires config.Valid() && Acyclic(SnapshotGraph(config.Snap())) && ShareEntries()
      requires procMgr.procs.Keys <= ProgramsIn(config.Snap())
      modifies procMgr
      ensures ShareEntries() && OnlyAdds()
      ensures procMgr.procs.Keys == old(ProgramsIn(config.Snap()))
    {
      ghost var names := ProgramsIn(config.Snap());
      var programs := ListPrograms();
      assert ProgramsIn(config.Snap()) == names;
      CreateAll(programs, names);
    }

    /** createPrograms (supervisor.go:514-524): nothing is left for the removals at its end. */
    method CreatePrograms(prevPrograms: seq<string>)
      requires config.Valid() && Acyclic(SnapshotGraph(config.Snap())) && ShareEntries()
      requires procMgr.procs.Keys <= ProgramsIn(config.Snap()) && SetOf(prevPrograms) <= ProgramsIn(config.Snap())
      modifies procMgr
      ensures ShareEntries() && OnlyAdds()
      ensures procMgr.procs.Keys == old(ProgramsIn(config.Snap()))
    {
      ghost var snap := config.Snap();
      var programs := config.GetProgramNames();
      assert config.Snap() == snap;
      NothingToRemove(prevPrograms, programs);
      CreateProcesses();
      var removed := Sub(prevPrograms, programs);
      RemoveProcesses(removed);
    }

    method RemoveProcesses(names: seq<string>)
      modifies procMgr
      ensures procMgr.procs == old(procMgr.procs) - SetOf(names)
    {
      var i := 0;
      while i < |names|
        invariant 0 <= i <= |names| && procMgr.procs == old(procMgr.procs) - SetOf(names[..i])
      {
        SetOfPush(names, i);
        var _ := procMgr.Remove(names[i]);
        i := i + 1;
      }
      assert names[..i] == names;
    }

    method RemoveOne(name: string)
      requires name in procMgr.procs
      modifies config`entries, procMgr, procMgr.procs[name]
      ensures config.entries == old(config.entries) - {name}
      ensures procMgr.procs == old(procMgr.procs) - {name}
      ensures old(procMgr.procs[name]).stops == old(procMgr.procs[name].stops) + 1
    {
      config.RemoveProgram(name);
      var proc := procMgr.Remove(name);
      if proc != null {
        proc.Stop();
      }
    }

    /** The loop at the end of Reload (supervisor.go:485-493). */
    method RemoveAll(removed: seq<string>)
      requires NoRepeats(removed) && procMgr.Separate() && forall i | 0 <= i < |removed| :: removed[i] in procMgr.procs
      modifies config`entries, procMgr, procMgr.procs.Values
      ensures config.entries == old(config.entries) - SetOf(removed)
      ensures procMgr.procs == old(procMgr.procs) - SetOf(removed)
      ensures forall n | n in old(procMgr.procs) ::
                old(procMgr.procs)[n].stops == old(procMgr.procs[n].stops) + if n in removed then 1 else 0
    {
      var i := 0;
      ghost var procs := procMgr.procs;
      while i < |removed|
        invariant 0 <= i <= |removed|
        invariant config.entries == old(config.entries) - SetOf(removed[..i])
        invariant procMgr.procs == procs - SetOf(removed[..i])
        invariant forall n | n in procs :: procs[n].stops == old(procs[n].stops) + if n in removed[..i] then 1 else 0
      {
        SetOfPush(removed, i);
        RemoveOne(removed[i]);
        i := i + 1;
      }
      assert removed[..i] == removed;
    }

    /** The first part of Reload: what was configured before, and loading the files again. */
    method LoadAgain(sections: seq<Section>) returns (prevPrograms: seq<string>, loadedPrograms: seq<string>)
      requires Consistent() && NoCollision(config.Snap(), sections)
      modifies config, config.entries.Values
      ensures NoRepeats(prevPrograms) && SetOf(prevPrograms) == old(ProgramsIn(config.Snap()))
      ensures loadedPrograms == LoadedNames(sections)
      ensures config.Snap() == Load(old(config.Snap()), sections)
      ensures config.Valid()
      ensures forall n | n in old(config.entries) :: n in config.entries && config.entries[n] == old(config.entries)[n]
      ensures forall n | n in config.entries && n !in old(config.entries) :: fresh(config.entries[n])
    {
      ghost var snap := config.Snap();
      prevPrograms := config.GetProgramNames();
      assert config.Snap() == snap;
      loadedPrograms := config.LoadSections(sections);
      LoadPrograms(snap, sections);
    }

    /** The last part: whatever is no longer in the files is dropped from both indexes and stopped. */
    method DropRemoved(ghost snap: Snapshot, sections: seq<Section>, prevPrograms: seq<string>, loadedPrograms: seq<string>)
      requires NoCollision(snap, sections) && loadedPrograms == LoadedNames(sections)
      requires NoRepeats(prevPrograms) && SetOf(prevPrograms) == ProgramsIn(snap) <= procMgr.procs.Keys
      requires procMgr.Separate()
      modifies config`entries, procMgr, procMgr.procs.Values
      ensures config.entries == old(config.entries) - Gone(snap, sections)
      ensures config.Snap() == old(config.Snap()) - Gone(snap, sections)
      ensures procMgr.procs == old(procMgr.procs) - Gone(snap, sections)
      ensures forall n | n in old(procMgr.procs) ::
                old(procMgr.procs)[n].stops == old(procMgr.procs[n].stops) + if n in Gone(snap, sections) then 1 else 0
    {
      var removedPrograms := Sub(prevPrograms, loadedPrograms);
      Removals(snap, prevPrograms, sections);
      assert forall i | 0 <= i < |removedPrograms| :: removedPrograms[i] in Gone(snap, sections);
      RemoveAll(removedPrograms);
      config.SnapWithout(Gone(snap, sections));
    }

    /** What comes before the removals: afterwards the indexes agree on the programs of both loads. */
    method LoadAndCreate(sections: seq<Section>) returns (prevPrograms: seq<string>, loadedPrograms: seq<string>)
      requires Consistent() && NoCollision(config.Snap(), sections)
      requires Acyclic(SnapshotGraph(Load(config.Snap(), sections)))
      modifies config, config.entries.Values, procMgr
      ensures NoRepeats(prevPrograms) && SetOf(prevPrograms) == old(ProgramsIn(config.Snap()))
      ensures loadedPrograms == LoadedNames(sections)
      ensures config.Snap() == Load(old(config.Snap()), sections) && config.Separate()
      ensures ShareEntries() && OnlyAdds()
      ensures procMgr.procs.Keys == ProgramsIn(Load(old(config.Snap()), sections))
      ensures forall n | n in old(config.entries) :: n in config.entries && config.entries[n] == old(config.entries)[n]
      ensures forall n | n in config.entries && n !in old(config.entries) :: fresh(config.entries[n])
    {
      ghost var snap := config.Snap();
      prevPrograms, loadedPrograms := LoadAgain(sections);
      LoadPrograms(snap, sections);
      CreatePrograms(prevPrograms);
    }

    /**
      Reload. The precondition on the dependencies is needed: with a cycle among the programs that
      were there before and those of the files the source never gets past sorting them.
     */
    method Reload(sections: seq<Section>)
      requires Consistent() && NoCollision(config.Snap(), sections)
      requires Acyclic(SnapshotGraph(Load(config.Snap(), sections)))
      modifies config, config.entries.Values, procMgr, procMgr.procs.Values
      ensures Consistent()
      ensures config.Snap() == Reloaded(old(config.Snap()), sections)
      ensures procMgr.procs.Keys == ProgramNames(sections)
      ensures forall n | n in config.entries && n in old(config.entries) :: config.entries[n] == old(config.entries)[n]
      ensures forall n | n in config.entries && n !in old(config.entries) :: fresh(config.entries[n])
      ensures forall n | n in procMgr.procs && n in old(procMgr.procs) :: procMgr.procs[n] == old(procMgr.procs)[n]
      ensures forall n | n in procMgr.procs && n !in old(procMgr.procs) :: fresh(procMgr.procs[n]) && procMgr.procs[n].stops == 0
      ensures forall n | n in old(procMgr.procs) ::
                old(procMgr.procs)[n].stops == old(procMgr.procs[n].stops) + if n in ProgramNames(sections) then 0 else 1
    {
      ghost var snap := config.Snap();
      var prevPrograms, loadedPrograms := LoadAndCreate(sections);
      LoadPrograms(snap, sections);
      DropRemoved(snap, sections, prevPrograms, loadedPrograms);
      ReloadedPrograms(snap, sections);
      ReloadedAcyclic(snap, sections);
    }

    /**
      After the load every listing of the programs is sorted in the end, if and only if the programs
      known before and those of the files together have no cyclic dependencies.
     */
    lemma GetsPastSortingIff(snap: Snapshot, sections: seq<Section>, programs: seq<Entry>)
      requires config.Valid() && config.Snap() == Load(snap, sections) && config.Enumerates(programs)
      ensures (exists n: nat :: FinishesWithin(GraphOf(programs), n)) <==> Acyclic(SnapshotGraph(Load(snap, sections)))
    {
      config.SortingEndsIff(programs);
    }

    /** A reload, and that a process it drops is out of reach of all that follows. */
    method ReloadOnce(sections: seq<Section>)
      requires Consistent() && NoCollision(config.Snap(), sections)
      requires Acyclic(SnapshotGraph(Load(config.Snap(), sections)))
      modifies config, config.entries.Values, procMgr, procMgr.procs.Values
      ensures Consistent() && config.Snap() == Reloaded(old(config.Snap()), sections)
      ensures forall e | e in config.entries.Values :: e in old(config.entries.Values) || fresh(e)
      ensures forall p | p in procMgr.procs.Values :: p in old(procMgr.procs.Values) || fresh(p)
      ensures forall n | n in old(procMgr.procs) && n in ProgramNames(sections) ::
                && n in procMgr.procs && procMgr.procs[n] == old(procMgr.procs)[n]
                && old(procMgr.procs)[n].stops == old(procMgr.procs[n].stops)
      ensures forall n | n in old(procMgr.procs) && n !in ProgramNames(sections) ::
                old(procMgr.procs)[n] !in procMgr.procs.Values && old(procMgr.procs)[n].stops == old(procMgr.procs[n].stops) + 1
    {
      ProcessesDiffer();
      Reload(sections);
    }

    /** Processes with an entry each are different. */
    lemma ProcessesDiffer()
      requires Consistent()
      ensures procMgr.Separate()
    {
    }

    /** Reloads one after the other. */
    method ReloadEach(history: seq<seq<Section>>)
      requires Consistent() && Reloadable(config.Snap(), history)
      modifies config, config.entries.Values, procMgr, procMgr.procs.Values
      ensures Consistent() && config.Snap() == ReloadedAll(old(config.Snap()), history)
      ensures forall n | n in old(procMgr.procs) && AlwaysThere(n, history) ::
                n in procMgr.procs && procMgr.procs[n] == old(procMgr.procs)[n]
      ensures forall n | n in old(procMgr.procs) ::
                old(procMgr.procs)[n].stops == old(procMgr.procs[n].stops) + if AlwaysThere(n, history) then 0 else 1
      decreases |history|
    {
      if history != [] {
        AlwaysThereFirst(history);
        ReloadOnce(history[0]);
        ReloadEach(history[1..]);
      }
    }
  }

  lemma AlwaysThereFirst(history: seq<seq<Section>>)
    requires history != []
    ensures forall n :: AlwaysThere(n, history) <==> n in ProgramNames(history[0]) && AlwaysThere(n, history[1..])
  {
    forall n
      ensures AlwaysThere(n, history) <==> n in ProgramNames(history[0]) && AlwaysThere(n, history[1..])
    {
      if AlwaysThere(n, history[1..]) {
        forall i | 1 <= i < |history|
          ensures n in ProgramNames(history[i])
        {
          assert history[1..][i - 1] == history[i];
        }
      }
    }
  }

  /** The program is in the files at every one of the reloads. */
  predicate AlwaysThere(n: string, history: seq<seq<Section>>) {
    forall i | 0 <= i < |history| :: n in ProgramNames(history[i])
  }

  /** What Sub finds are exactly the programs gone from the files, each once. */
  lemma Removals(snap: Snapshot, prev: seq<string>, sections: seq<Section>)
    requires NoCollision(snap, sections) && SetOf(prev) == ProgramsIn(snap) && NoRepeats(prev)
    ensures SetOf(Without(prev, LoadedNames(sections))) == Gone(snap, sections)
    ensures NoRepeats(Without(prev, LoadedNames(sections)))
    ensures forall n :: n in Without(prev, LoadedNames(sections)) <==> n in Gone(snap, sections)
  {
    var removed := Without(prev, LoadedNames(sections));
    WithoutMembers(prev, LoadedNames(sections));
    forall n
      ensures n in removed <==> n in Gone(snap, sections)
    {
      assert n in prev <==> n in SetOf(prev);
      if n in ProgramsIn(snap) {
        StillLoaded(snap, sections, n);
      }
    }
  }

  lemma NothingToRemove(prev: seq<string>, programs: seq<string>)
    requires SetOf(prev) <= SetOf(programs)
    ensures Without(prev, programs) == []
  {
    WithoutMembers(prev, programs);
    forall s | s in prev
      ensures s in programs
    {
      assert s in SetOf(prev);
    }
    assert |Without(prev, programs)| > 0 ==> Without(prev, programs)[0] in Without(prev, programs);
  }
}
