/**
  The process manager (process/process_manager.go): processes by program name, and the order in
  which they are listed, started and stopped.
 */
module ProcessManager {
  import opened ConfigEntry
  import opened DependencyGraph
  import opened ProcessSort
  import opened Util

  /** A program under supervision. Of its life only the calls to Stop matter here. */
  class Process {
    const config: Entry
    var stops: nat

    constructor (config: Entry)
      ensures this.config == config && stops == 0
    {
      this.config := config;
      stops := 0;
    }

    method Stop()
      modifies this
      ensures stops == old(stops) + 1
    {
      stops := stops + 1;
    }
  }

  function Configs(procs: seq<Process>): (r: seq<Entry>)
    ensures |r| == |procs| && forall i | 0 <= i < |procs| :: r[i] == procs[i].config
  {
    seq(|procs|, i requires 0 <= i < |procs| => procs[i].config)
  }

  /** The entries of those processes that belong to programs. */
  function ProgramConfigs(procs: seq<Process>): seq<Entry>
    reads Configs(procs)
  {
    if procs == [] then []
    else
      var c := procs[|procs| - 1].config;
      ProgramConfigs(procs[..|procs| - 1]) + if c.IsProgram() then [c] else []
  }

  lemma {:induction false} ProgramConfigsMembers(procs: seq<Process>, e: Entry)
    ensures e in ProgramConfigs(procs) <==> e.IsProgram() && e in Configs(procs)
    decreases |procs|
  {
    if procs != [] {
      var init := procs[..|procs| - 1];
      ProgramConfigsMembers(init, e);
      assert Configs(procs) == Configs(init) + [procs[|procs| - 1].config];
    }
  }

  lemma {:induction false} AllProgramConfigs(procs: seq<Process>)
    requires forall p | p in procs :: p.config.IsProgram()
    ensures ProgramConfigs(procs) == Configs(procs)
    decreases |procs|
  {
    if procs != [] {
      var init := procs[..|procs| - 1];
      AllProgramConfigs(init);
      assert Configs(procs) == Configs(init) + [procs[|procs| - 1].config];
    }
  }

  /** The processes that hold one entry, in order. */
  method Holders(procs: seq<Process>, config: Entry) returns (result: seq<Process>)
    requires forall i, j | 0 <= i < j < |procs| :: procs[i].config != procs[j].config
    requires config in Configs(procs)
    ensures |result| == 1 && result[0] in procs && result[0].config == config
  {
    result := [];
    var k := 0;
    ghost var at :| 0 <= at < |procs| && procs[at].config == config;
    while k < |procs|
      invariant 0 <= k <= |procs|
      invariant result == if at < k then [procs[at]] else []
    {
      if procs[k].config == config {
        result := result + [procs[k]];
      }
      k := k + 1;
    }
  }

  method CollectConfigs(procs: seq<Process>, ghost configs: seq<Entry>) returns (progConfigs: seq<Entry>)
    requires configs == ProgramConfigs(procs)
    ensures progConfigs == configs
  {
    progConfigs := [];
    var i := 0;
    while i < |procs|
      invariant 0 <= i <= |procs| && progConfigs == ProgramConfigs(procs[..i])
    {
      assert procs[..i + 1][..i] == procs[..i];
      if procs[i].config.IsProgram() {
        progConfigs := progConfigs + [procs[i].config];
      }
      i := i + 1;
    }
    assert procs[..i] == procs;
  }

  /** The processes of the sorted entries, in their order. */
  method InOrder(procs: seq<Process>, sorted: seq<Entry>) returns (result: seq<Process>)
    requires forall i, j | 0 <= i < j < |procs| :: procs[i].config != procs[j].config
    requires forall e | e in sorted :: e in Configs(procs)
    ensures Configs(result) == sorted && forall p | p in result :: p in procs
  {
    result := [];
    var k := 0;
    while k < |sorted|
      invariant 0 <= k <= |sorted| && Configs(result) == sorted[..k]
      invariant forall p | p in result :: p in procs
    {
      assert sorted[k] in sorted;
      var one := Holders(procs, sorted[k]);
      assert Configs(result + one) == Configs(result) + [sorted[k]];
      result := result + one;
      k := k + 1;
    }
    assert sorted[..k] == sorted;
  }

  method SortConfigs(configs: seq<Entry>, ghost g: Graph) returns (sorted: seq<Entry>)
    requires GraphOf(configs) == g && Acyclic(g)
    ensures IsStartOrder(configs, g, sorted)
  {
    sorted := SortProgram(configs);
  }

  /** sortProcess (process/process_manager.go:241-260): the processes of programs, in the order of starting. */
  method SortProcess(procs: seq<Process>, ghost configs: seq<Entry>, ghost g: Graph) returns (result: seq<Process>)
    requires forall i, j | 0 <= i < j < |procs| :: procs[i].config != procs[j].config
    requires configs == ProgramConfigs(procs) && g == GraphOf(configs) && Acyclic(g)
    ensures forall p | p in result :: p in procs
    ensures IsStartOrder(configs, g, Configs(result))
  {
    forall e | e in configs
      ensures e in Configs(procs)
    {
      ProgramConfigsMembers(procs, e);
    }
    var progConfigs := CollectConfigs(procs, configs);
    var sorted := SortConfigs(progConfigs, g);
    result := InOrder(procs, sorted);
  }

  /** With an entry of its own each, the processes are permuted as their entries are. */
  lemma Permuted(list: seq<Process>, result: seq<Process>)
    requires forall i, j | 0 <= i < j < |list| :: list[i].config != list[j].config
    requires forall p | p in list :: p.config.IsProgram()
    requires forall p | p in result :: p in list
    requires IsPermutation(Configs(list), Configs(result))
    ensures forall p | p in list :: p in result
    ensures forall i, j | 0 <= i < j < |result| :: result[i] != result[j]
  {
    NoRepeatsOnce(Configs(list));
    forall p | p in list
      ensures p in result
    {
      var i :| 0 <= i < |list| && list[i] == p;
      assert Configs(list)[i] in Configs(list);
      assert p.config in multiset(Configs(list)) && p.config in multiset(Configs(result));
      var j :| 0 <= j < |result| && Configs(result)[j] == p.config;
      assert result[j] in result;
    }
    forall i, j | 0 <= i < j < |result|
      ensures result[i] != result[j]
    {
      if result[i] == result[j] {
        assert Configs(result)[i] in Configs(result);
        TwiceInMultiset(Configs(result), i, j);
      }
    }
  }

  /** Sorting processes that all belong to programs loses none and repeats none. */
  method SortAll(list: seq<Process>, ghost g: Graph) returns (result: seq<Process>)
    requires forall i, j | 0 <= i < j < |list| :: list[i].config != list[j].config
    requires forall p | p in list :: p.config.IsProgram()
    requires GraphOf(Configs(list)) == g && Acyclic(g)
    ensures forall p :: p in list <==> p in result
    ensures forall i, j | 0 <= i < j < |result| :: result[i] != result[j]
    ensures InStartOrder(g, Configs(result))
  {
    AllProgramConfigs(list);
    result := SortProcess(list, Configs(list), g);
    Permuted(list, result);
  }

  /** A rearrangement of the processes of a table, listed by name, holds all of them and no other. */
  lemma AllOfTable(table: map<string, Process>, list: seq<Process>, names: seq<string>, result: seq<Process>)
    requires SetOf(names) == table.Keys && |names| == |list|
    requires forall i | 0 <= i < |names| :: names[i] in table && table[names[i]] == list[i]
    requires forall p :: p in list <==> p in result
    ensures forall n | n in table :: table[n] in result
    ensures forall p | p in result :: exists n :: n in table && table[n] == p
  {
    assert forall n | n in table :: n in SetOf(names);
  }

  method StopEach(list: seq<Process>)
    requires forall i, j | 0 <= i < j < |list| :: list[i] != list[j]
    modifies list
    ensures forall p | p in list :: p.stops == old(p.stops) + 1
  {
    var i := 0;
    while i < |list|
      invariant 0 <= i <= |list|
      invariant forall k | 0 <= k < |list| :: list[k].stops == old(list[k].stops) + if k < i then 1 else 0
    {
      list[i].Stop();
      i := i + 1;
    }
  }

  class Manager {
    var procs: map<string, Process>
    var eventListeners: map<string, Process>

    constructor ()
      ensures procs == map[] && eventListeners == map[]
    {
      procs, eventListeners := map[], map[];
    }

    /** What createProgram and createEventListener do to their table: a process that exists is kept as it is. */
    twostate predicate Created(table: map<string, Process>, new next: map<string, Process>, name: string, config: Entry, new proc: Process?)
      reads proc
    {
      && proc != null && next == table[name := proc]
      && if name in table then proc == table[name] else fresh(proc) && proc.config == config && proc.stops == 0
    }

    method CreateProcess(config: Entry) returns (proc: Process?)
      modifies this
      ensures config.IsProgram() ==>
                Created(old(procs), procs, config.GetProgramName(), config, proc) && eventListeners == old(eventListeners)
      ensures !config.IsProgram() && config.IsEventListener() ==>
                Created(old(eventListeners), eventListeners, config.GetEventListenerName(), config, proc) && procs == old(procs)
      ensures !config.IsProgram() && !config.IsEventListener() ==>
                proc == null && procs == old(procs) && eventListeners == old(eventListeners)
    {
      if config.IsProgram() {
        proc := CreateProgram(config);
      } else if config.IsEventListener() {
        proc := CreateEventListener(config);
      } else {
        proc := null;
      }
    }

    method CreateProgram(config: Entry) returns (proc: Process)
      modifies `procs
      ensures Created(old(procs), procs, config.GetProgramName(), config, proc)
    {
      var procName := config.GetProgramName();
      if procName in procs {
        proc := procs[procName];
      } else {
        proc := new Process(config);
        procs := procs[procName := proc];
      }
    }

    method CreateEventListener(config: Entry) returns (proc: Process)
      modifies `eventListeners
      ensures Created(old(eventListeners), eventListeners, config.GetEventListenerName(), config, proc)
    {
      var eventListenerName := config.GetEventListenerName();
      if eventListenerName in eventListeners {
        proc := eventListeners[eventListenerName];
      } else {
        proc := new Process(config);
        eventListeners := eventListeners[eventListenerName := proc];
      }
    }

    method Remove(name: string) returns (proc: Process?)
      modifies `procs
      ensures procs == old(procs) - {name}
      ensures proc == if name in old(procs) then old(procs)[name] else null
    {
      proc := if name in procs then procs[name] else null;
      procs := procs - {name};
    }

    /** The entries of the processes with the given names. */
    function EntriesOf(names: seq<string>): (r: seq<Entry>)
      reads this
      requires forall n | n in names :: n in procs
      ensures |r| == |names| && forall i | 0 <= i < |names| :: r[i] == procs[names[i]].config
    {
      var m := procs;
      seq(|names|, i requires 0 <= i < |names| => m[names[i]].config)
    }

    /** Listed in any order, the entries of all processes give the graph g. */
    ghost predicate HasGraph(g: Graph)
      reads this, set n | n in procs :: procs[n].config
    {
      forall names: seq<string> | NoRepeats(names) && SetOf(names) == procs.Keys ::
        (forall n | n in names :: n in SetOf(names)) && GraphOf(EntriesOf(names)) == g
    }

    /** Every process is that of a program, and has its entry for itself. */
    ghost predicate OwnEntries()
      reads this, set n | n in procs :: procs[n].config
    {
      && (forall n | n in procs :: procs[n].config.IsProgram())
      && (forall a, b | a in procs && b in procs && a != b :: procs[a].config != procs[b].config)
    }

    /** The processes in any order, with their names. */
    method ListAll() returns (result: seq<Process>, ghost names: seq<string>)
      ensures NoRepeats(names) && SetOf(names) == procs.Keys && |names| == |result|
      ensures forall i | 0 <= i < |names| :: names[i] in procs && procs[names[i]] == result[i]
    {
      result, names := [], [];
      var unvisited := procs.Keys;
      while unvisited != {}
        invariant unvisited <= procs.Keys && SetOf(names) == procs.Keys - unvisited && NoRepeats(names)
        invariant |names| == |result| && forall i | 0 <= i < |names| :: names[i] in procs && procs[names[i]] == result[i]
        decreases unvisited
      {
        var name :| name in unvisited;
        assert name !in SetOf(names);
        assert SetOf(names + [name]) == SetOf(names) + {name};
        unvisited := unvisited - {name};
        result := result + [procs[name]];
        names := names + [name];
      }
      assert SetOf(names) == procs.Keys;
    }

    /** getAllProcess: the processes in the order of starting, each once. */
    method GetAllProcess(ghost g: Graph) returns (result: seq<Process>)
      requires OwnEntries() && HasGraph(g) && Acyclic(g)
      ensures forall n | n in procs :: procs[n] in result
      ensures forall p | p in result :: exists n :: n in procs && procs[n] == p
      ensures forall i, j | 0 <= i < j < |result| :: result[i] != result[j]
      ensures InStartOrder(g, Configs(result))
    {
      ghost var names: seq<string>;
      var tmpProcs: seq<Process>;
      tmpProcs, names := ListAll();
      ListedEntries(g, tmpProcs, names);
      result := SortAll(tmpProcs, g);
      AllOfTable(procs, tmpProcs, names, result);
    }

    lemma ListedEntries(g: Graph, list: seq<Process>, names: seq<string>)
      requires OwnEntries() && HasGraph(g)
      requires NoRepeats(names) && SetOf(names) == procs.Keys && |names| == |list|
      requires forall i | 0 <= i < |names| :: names[i] in procs && procs[names[i]] == list[i]
      ensures forall i, j | 0 <= i < j < |list| :: list[i].config != list[j].config
      ensures forall p | p in list :: p.config.IsProgram()
      ensures GraphOf(Configs(list)) == g
    {
      assert forall n | n in names :: n in SetOf(names);
      forall p | p in list
        ensures p.config.IsProgram()
      {
        var i :| 0 <= i < |list| && list[i] == p;
        assert names[i] in procs;
      }
      assert Configs(list) == EntriesOf(names);
    }

    /** StopAllProcesses; the source calls Stop on all of them at the same time and waits. */
    method StopAllProcesses(ghost g: Graph)
      requires OwnEntries() && HasGraph(g) && Acyclic(g)
      modifies procs.Values
      ensures forall n | n in procs :: procs[n].stops == old(procs[n].stops) + 1
    {
      var all := GetAllProcess(g);
      assert forall p | p in all :: p in procs.Values;
      StopEach(all);
    }

    /** No process runs under two names. */
    ghost predicate Separate()
      reads this
    {
      forall a, b | a in procs && b in procs && a != b :: procs[a] != procs[b]
    }
  }
}
