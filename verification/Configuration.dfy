/**
  The configuration (config/config.go): entries by section name, and what loading the files again
  does to them.
 */
module Configuration {
  import opened ConfigEntry
  import opened DependencyGraph
  import opened ProcessSort
  import Text
  import opened Util

  datatype Kind = Program | Listener | Other

  /** One program, event listener or other section of the configuration files, after numprocs is expanded. */
  datatype Section = Section(kind: Kind, name: string, values: map<string, string>)

  /** The Name its entry gets. */
  function FullName(s: Section): string {
    match s.kind
    case Program => PROGRAM_PREFIX + s.name
    case Listener => LISTENER_PREFIX + s.name
    case Other => s.name
  }

  /** The names of the sections of the kind that parseProgram handles, in order. */
  function LoadedNames(sections: seq<Section>): seq<string> {
    if sections == [] then []
    else LoadedNames(sections[..|sections| - 1]) +
         (if sections[|sections| - 1].kind == Other then [] else [sections[|sections| - 1].name])
  }

  /** The programs that the files define now. */
  function ProgramNames(sections: seq<Section>): set<string> {
    set i | 0 <= i < |sections| && sections[i].kind == Program :: sections[i].name
  }

  /** What the configuration knows about one name. */
  datatype Data = Data(name: string, values: map<string, string>)

  type Snapshot = map<string, Data>

  /** createEntry and Entry.parse: values are added to what an existing entry holds. */
  function Parse(snap: Snapshot, s: Section): Snapshot {
    snap[s.name := Data(FullName(s), (if s.name in snap then snap[s.name].values else map[]) + s.values)]
  }

  /** Sections of one group, in order: parseProgram takes programs and listeners, and then come the others. */
  function ParseAll(snap: Snapshot, sections: seq<Section>, others: bool): Snapshot {
    if sections == [] then snap
    else
      ParseNext(ParseAll(snap, sections[..|sections| - 1], others), sections[|sections| - 1], others)
  }

  function ParseNext(snap: Snapshot, s: Section, others: bool): Snapshot {
    if (s.kind == Other) == others then Parse(snap, s) else snap
  }

  lemma ParseAllNext(snap: Snapshot, sections: seq<Section>, i: nat, others: bool)
    requires i < |sections|
    ensures ParseAll(snap, sections[..i + 1], others) == ParseNext(ParseAll(snap, sections[..i], others), sections[i], others)
  {
    assert sections[..i + 1][..i] == sections[..i];
  }

  function Load(snap: Snapshot, sections: seq<Section>): Snapshot {
    ParseAll(ParseAll(snap, sections, false), sections, true)
  }

  /** No name is used both for a program and for something else, now or before. */
  predicate NoCollision(snap: Snapshot, sections: seq<Section>) {
    && (forall i | 0 <= i < |sections| && sections[i].kind == Other :: !IsProgramName(sections[i].name))
    && (forall i, j | 0 <= i < |sections| && 0 <= j < |sections| && sections[i].name == sections[j].name ::
          sections[i].kind == Program <==> sections[j].kind == Program)
    && (forall i | 0 <= i < |sections| && sections[i].name in snap ::
          sections[i].kind == Program <==> IsProgramName(snap[sections[i].name].name))
  }

  predicate NamesMatch(snap: Snapshot) {
    forall n | n in snap && IsProgramName(snap[n].name) :: snap[n].name == PROGRAM_PREFIX + n
  }

  function ProgramsIn(snap: Snapshot): set<string> {
    set n | n in snap && IsProgramName(snap[n].name)
  }

  function DependenciesOf(d: Data): seq<string> {
    if "depends_on" in d.values then NonEmpty(Text.Split(d.values["depends_on"], ',')) else []
  }

  /** The depends_on graph of all the programs the configuration holds. */
  function SnapshotGraph(snap: Snapshot): Graph {
    map n | n in ProgramsIn(snap) && DependenciesOf(snap[n]) != [] :: DependenciesOf(snap[n])
  }

  // ---------------------------------------------------------------- what a load does

  lemma ParseOne(snap: Snapshot, s: Section, all: seq<Section>)
    requires s in all && NamesMatch(snap) && NoCollision(snap, all)
    ensures NamesMatch(Parse(snap, s)) && NoCollision(Parse(snap, s), all)
    ensures ProgramsIn(Parse(snap, s)) == ProgramsIn(snap) + (if s.kind == Program then {s.name} else {})
  {
    PrefixedName(s.name);
    var k :| 0 <= k < |all| && all[k] == s;
    assert IsProgramName(FullName(s)) <==> s.kind == Program;
  }

  /** Without collisions, loading never changes what kind of thing a name stands for. */
  lemma {:induction false} ParseAllKeeps(snap: Snapshot, sections: seq<Section>, all: seq<Section>, others: bool)
    requires NamesMatch(snap) && NoCollision(snap, all) && forall i | 0 <= i < |sections| :: sections[i] in all
    ensures NamesMatch(ParseAll(snap, sections, others)) && NoCollision(ParseAll(snap, sections, others), all)
    decreases |sections|
  {
    if sections != [] {
      var init, last := sections[..|sections| - 1], sections[|sections| - 1];
      ParseAllKeeps(snap, init, all, others);
      ParseOne(ParseAll(snap, init, others), last, all);
    }
  }

  lemma {:induction false} ParseAllPrograms(snap: Snapshot, sections: seq<Section>, all: seq<Section>, others: bool)
    requires NamesMatch(snap) && NoCollision(snap, all) && forall i | 0 <= i < |sections| :: sections[i] in all
    ensures ProgramsIn(ParseAll(snap, sections, others)) == ProgramsIn(snap) + (if others then {} else ProgramNames(sections))
    decreases |sections|
  {
    if sections != [] {
      var init, last := sections[..|sections| - 1], sections[|sections| - 1];
      ParseAllKeeps(snap, init, all, others);
      ParseAllPrograms(snap, init, all, others);
      ParseOne(ParseAll(snap, init, others), last, all);
      ProgramNamesPush(init, last);
      assert sections == init + [last];
    }
  }

  lemma ProgramNamesPush(sections: seq<Section>, s: Section)
    ensures ProgramNames(sections + [s]) == ProgramNames(sections) + (if s.kind == Program then {s.name} else {})
  {
    var next := sections + [s];
    assert next[|sections|] == s;
    forall i | 0 <= i < |sections|
      ensures next[i] == sections[i]
    {
    }
  }

  /** After a load the configuration holds the programs it held before and those of the files. */
  lemma LoadPrograms(snap: Snapshot, sections: seq<Section>)
    requires NamesMatch(snap) && NoCollision(snap, sections)
    ensures var t := Load(snap, sections);
            && NamesMatch(t) && NoCollision(t, sections)
            && ProgramsIn(t) == ProgramsIn(snap) + ProgramNames(sections)
  {
    ParseAllKeeps(snap, sections, sections, false);
    ParseAllKeeps(ParseAll(snap, sections, false), sections, sections, true);
    ParseAllPrograms(snap, sections, sections, false);
    ParseAllPrograms(ParseAll(snap, sections, false), sections, sections, true);
  }

  lemma {:induction false} LoadedMembers(sections: seq<Section>, n: string)
    ensures n in LoadedNames(sections) <==> exists i :: 0 <= i < |sections| && sections[i].kind != Other && sections[i].name == n
    decreases |sections|
  {
    if sections != [] {
      var init := sections[..|sections| - 1];
      LoadedMembers(init, n);
      if i :| 0 <= i < |sections| && sections[i].kind != Other && sections[i].name == n {
        if i < |init| {
          assert init[i] == sections[i];
        }
      }
      if i :| 0 <= i < |init| && init[i].kind != Other && init[i].name == n {
        assert sections[i] == init[i];
      }
    }
  }

  /** A program that was configured is among the loaded names exactly if the files still define it. */
  lemma StillLoaded(snap: Snapshot, sections: seq<Section>, n: string)
    requires NoCollision(snap, sections) && n in ProgramsIn(snap)
    ensures n in LoadedNames(sections) <==> n in ProgramNames(sections)
  {
    LoadedMembers(sections, n);
  }

  /** Fewer programs with the same dependencies still have no cycle. */
  lemma SubgraphAcyclic(g: Graph, h: Graph)
    requires Acyclic(g) && forall k | k in h :: k in g && h[k] == g[k]
    ensures Acyclic(h)
  {
    forall p
      ensures !IsCycle(h, p)
    {
      if IsCycle(h, p) {
        assert forall i | 0 <= i < |p| - 1 :: Edge(h, p[i], p[i + 1]);
        assert IsCycle(g, p);
      }
    }
  }

  // ---------------------------------------------------------------- the configuration

  class Config {
    var entries: map<string, Entry>

    function Snap(): Snapshot
      reads this, entries.Values
    {
      map n | n in entries :: Data(entries[n].Name, entries[n].keyValues)
    }

    /** No entry object stands for two names, and programs are filed under their own name. */
    ghost predicate Valid()
      reads this, entries.Values
    {
      Separate() && NamesMatch(Snap())
    }

    ghost predicate Separate()
      reads this
    {
      forall a, b | a in entries && b in entries && a != b :: entries[a] != entries[b]
    }

    constructor ()
      ensures entries == map[] && Valid()
    {
      entries := map[];
    }

    method CreateEntry(name: string) returns (entry: Entry)
      modifies this
      ensures name in entries && entries[name] == entry
      ensures name in old(entries) ==> entries == old(entries)
      ensures name !in old(entries) ==>
                fresh(entry) && entries == old(entries)[name := entry] && entry.keyValues == map[] && entry.Name == ""
    {
      if name !in entries {
        entry := new Entry();
        entries := entries[name := entry];
      } else {
        entry := entries[name];
      }
    }

    /** createEntry, Entry.parse and the setting of the name, for one section. */
    method ParseSection(s: Section)
      requires Separate()
      modifies this, entries.Values
      ensures Snap() == Parse(old(Snap()), s) && Separate()
      ensures forall n | n in entries :: if n in old(entries) then entries[n] == old(entries)[n] else fresh(entries[n])
      ensures old(entries).Keys <= entries.Keys
    {
      ghost var before := Snap();
      var entry := CreateEntry(s.name);
      entry.keyValues := entry.keyValues + s.values;
      entry.Name := FullName(s);
      forall n | n in entries
        ensures Snap()[n] == Parse(before, s)[n]
      {
      }
    }

    /** A section of the other group is left for the other pass. */
    method ParseIf(s: Section, others: bool)
      requires Separate()
      modifies this, entries.Values
      ensures Snap() == ParseNext(old(Snap()), s, others) && Separate()
      ensures forall n | n in entries :: if n in old(entries) then entries[n] == old(entries)[n] else fresh(entries[n])
      ensures old(entries).Keys <= entries.Keys
    {
      if (s.kind == Other) == others {
        ParseSection(s);
      }
    }

    method ParseKind(sections: seq<Section>, others: bool)
      requires Separate()
      modifies this, entries.Values
      ensures Snap() == ParseAll(old(Snap()), sections, others) && Separate()
      ensures forall n | n in entries :: if n in old(entries) then entries[n] == old(entries)[n] else fresh(entries[n])
      ensures old(entries).Keys <= entries.Keys
    {
      var i := 0;
      while i < |sections|
        invariant 0 <= i <= |sections| && Separate()
        invariant Snap() == ParseAll(old(Snap()), sections[..i], others)
        invariant forall n | n in entries :: if n in old(entries) then entries[n] == old(entries)[n] else fresh(entries[n])
        invariant old(entries).Keys <= entries.Keys
      {
        ParseAllNext(old(Snap()), sections, i, others);
        ParseIf(sections[i], others);
        i := i + 1;
      }
      assert sections[..i] == sections;
    }

    /** Load (config/config.go:121-133, 169-183): the names of the programs and listeners now in the files. */
    method LoadSections(sections: seq<Section>) returns (loaded: seq<string>)
      requires Separate()
      modifies this, entries.Values
      ensures loaded == LoadedNames(sections)
      ensures Snap() == Load(old(Snap()), sections) && Separate()
      ensures forall n | n in entries :: if n in old(entries) then entries[n] == old(entries)[n] else fresh(entries[n])
      ensures old(entries).Keys <= entries.Keys
    {
      ParseKind(sections, false);
      ParseKind(sections, true);
      loaded := [];
      var i := 0;
      while i < |sections|
        invariant 0 <= i <= |sections| && loaded == LoadedNames(sections[..i])
      {
        assert sections[..i + 1][..i] == sections[..i];
        if sections[i].kind != Other {
          loaded := loaded + [sections[i].name];
        }
        i := i + 1;
      }
      assert sections[..i] == sections;
    }

    /** GetEntries with the filter IsProgram; Go visits the entries of a map in any order. */
    method ProgramEntries() returns (r: seq<Entry>)
      requires Valid()
      ensures Enumerates(r)
    {
      r := [];
      var unvisited := entries.Keys;
      while unvisited != {}
        invariant unvisited <= entries.Keys
        invariant forall e | e in r :: exists n :: n in entries && n !in unvisited && entries[n] == e && e.IsProgram()
        invariant forall n | n in entries && n !in unvisited && entries[n].IsProgram() :: entries[n] in r
        invariant forall i, j | 0 <= i < j < |r| :: r[i] != r[j]
        decreases unvisited
      {
        var name :| name in unvisited;
        unvisited := unvisited - {name};
        if entries[name].IsProgram() {
          r := r + [entries[name]];
        }
      }
    }

    /** r lists the program entries, each once. */
    ghost predicate Enumerates(r: seq<Entry>)
      reads this, entries.Values, r
    {
      && (forall e | e in r :: exists n :: n in entries && entries[n] == e && e.IsProgram())
      && (forall n | n in entries && entries[n].IsProgram() :: entries[n] in r)
      && (forall i, j | 0 <= i < j < |r| :: r[i] != r[j])
    }

    lemma EntryName(n: string)
      requires Valid() && n in entries && entries[n].IsProgram()
      ensures entries[n].GetProgramName() == n && n in ProgramsIn(Snap())
      ensures DependenciesOf(Snap()[n]) == entries[n].DependsOnNames()
    {
      assert Snap()[n].name == entries[n].Name;
      PrefixedName(n);
    }

    /** Every listed entry is filed under its program name. */
    lemma Filed(r: seq<Entry>)
      requires Valid() && Enumerates(r)
      ensures forall e | e in r :: e.IsProgram() && e.GetProgramName() in entries && entries[e.GetProgramName()] == e
    {
      forall e | e in r
        ensures e.IsProgram() && e.GetProgramName() in entries && entries[e.GetProgramName()] == e
      {
        var n :| n in entries && entries[n] == e && e.IsProgram();
        EntryName(n);
      }
    }

    /** Among the entries listed are those of all programs. */
    lemma ProgramsListed(r: seq<Entry>)
      requires Valid() && Enumerates(r)
      ensures forall n | n in ProgramsIn(Snap()) :: n in entries && entries[n] in r && entries[n].GetProgramName() == n
      ensures forall n | n in entries && entries[n] in r :: n in ProgramsIn(Snap())
    {
      forall n | n in entries && entries[n].IsProgram()
        ensures entries[n].GetProgramName() == n
      {
        EntryName(n);
      }
    }

    lemma EnumeratedName(r: seq<Entry>, n: string)
      requires Valid() && Enumerates(r)
      ensures n in GraphOf(r) <==> n in SnapshotGraph(Snap())
      ensures n in GraphOf(r) ==> GraphOf(r)[n] == SnapshotGraph(Snap())[n]
    {
      Filed(r);
      if n in ProgramsIn(Snap()) {
        EntryName(n);
        GraphOfDistinct(r, entries[n]);
      } else if n in GraphOf(r) {
        GraphOfNames(r, n);
      }
    }

    /** The graph that the sorter builds from the listed entries is that of the configuration. */
    lemma EnumeratedGraph(r: seq<Entry>)
      requires Valid() && Enumerates(r)
      ensures GraphOf(r) == SnapshotGraph(Snap())
    {
      forall n
        ensures n in GraphOf(r) <==> n in SnapshotGraph(Snap())
        ensures n in GraphOf(r) ==> GraphOf(r)[n] == SnapshotGraph(Snap())[n]
      {
        EnumeratedName(r, n);
      }
    }

    /** GetPrograms (config/config.go:262-268) */
    method GetPrograms() returns (r: seq<Entry>)
      requires Sortable()
      ensures Sortable() && Enumerates(r) && InStartOrder(SnapshotGraph(Snap()), r)
    {
      var programs := ProgramEntries();
      r := SortPrograms(programs);
    }

    /** Programs are filed under their own names, and their dependencies have no cycle. */
    ghost predicate Sortable()
      reads this, entries.Values
    {
      Valid() && Acyclic(SnapshotGraph(Snap()))
    }

    /** sortProgram on the programs of this configuration. */
    method SortPrograms(programs: seq<Entry>) returns (r: seq<Entry>)
      requires Sortable() && Enumerates(programs)
      ensures Sortable() && Enumerates(r) && InStartOrder(SnapshotGraph(Snap()), r)
    {
      EnumeratedGraph(programs);
      r := SortProgram(programs);
      PermutationEnumerates(programs, r);
      EnumeratedGraph(programs);
    }

    /** GetProgramNames (config/config.go:280-289), which sorts once more. */
    method GetProgramNames() returns (names: seq<string>)
      requires Sortable()
      ensures SetOf(names) == ProgramsIn(Snap()) && NoRepeats(names)
    {
      var programs := GetPrograms();
      programs := SortPrograms(programs);
      names := NamesIn(programs);
    }

    /** The sort that GetPrograms makes ends, on whatever listing of the programs, exactly if their dependencies have no cycle. */
    lemma SortingEndsIff(r: seq<Entry>)
      requires Valid() && Enumerates(r)
      ensures (exists n: nat :: FinishesWithin(GraphOf(r), n)) <==> Sortable()
    {
      EnumeratedGraph(r);
      TerminatesIff(GraphOf(r));
    }

    /** RemoveProgram (config/config.go:665-668), without the groups. */
    method RemoveProgram(programName: string)
      modifies `entries
      ensures entries == old(entries) - {programName}
    {
      entries := entries - {programName};
    }

    twostate lemma SnapWithout(names: set<string>)
      requires entries == old(entries) - names
      requires forall n | n in entries :: entries[n].Name == old(entries[n].Name) && entries[n].keyValues == old(entries[n].keyValues)
      ensures Snap() == old(Snap()) - names
    {
    }

    method NamesIn(programs: seq<Entry>) returns (names: seq<string>)
      requires Valid() && Enumerates(programs)
      ensures SetOf(names) == ProgramsIn(Snap()) && NoRepeats(names)
    {
      Filed(programs);
      names := [];
      var i := 0;
      while i < |programs|
        invariant 0 <= i <= |programs| && |names| == i
        invariant forall k | 0 <= k < i :: names[k] == programs[k].GetProgramName()
      {
        names := names + [programs[i].GetProgramName()];
        i := i + 1;
      }
      forall n | n in ProgramsIn(Snap())
        ensures n in names
      {
        EntryName(n);
        assert entries[n] in programs;
        var k :| 0 <= k < |programs| && programs[k] == entries[n];
        assert names[k] == n;
      }
      forall n | n in names
        ensures n in ProgramsIn(Snap())
      {
        var k :| 0 <= k < |names| && names[k] == n;
        EntryName(n);
      }
    }

    lemma PermutationEnumerates(p: seq<Entry>, r: seq<Entry>)
      requires Enumerates(p) && IsPermutation(p, r)
      ensures Enumerates(r)
    {
      forall n | n in entries && entries[n].IsProgram()
        ensures entries[n] in r
      {
        var e := entries[n];
        assert e in multiset(p);
        assert multiset(r)[e] >= 1;
      }
      NoRepeatsOnce(p);
      forall i, j | 0 <= i < j < |r|
        ensures r[i] != r[j]
      {
        if r[i] == r[j] {
          TwiceInMultiset(r, i, j);
        }
      }
    }
  }

  lemma {:induction false} GraphOfNames(configs: seq<Entry>, n: string)
    requires n in GraphOf(configs)
    ensures exists e :: e in configs && e.IsProgram() && e.GetProgramName() == n
    decreases |configs|
  {
    var init, last := configs[..|configs| - 1], configs[|configs| - 1];
    assert last in configs;
    if n in GraphOf(init) {
      GraphOfNames(init, n);
    }
  }

  /** What the program entries of one name list under depends_on, one entry behind the other. */
  function ListedFor(configs: seq<Entry>, n: string): seq<string>
    reads configs
  {
    if configs == [] then []
    else (if configs[0].IsProgram() && configs[0].GetProgramName() == n then configs[0].DependsOnNames() else [])
         + ListedFor(configs[1..], n)
  }

  lemma {:induction false} ListedForPush(configs: seq<Entry>, e: Entry, n: string)
    ensures ListedFor(configs + [e], n) ==
            ListedFor(configs, n) + if e.IsProgram() && e.GetProgramName() == n then e.DependsOnNames() else []
    decreases |configs|
  {
    if configs == [] {
      assert ([] + [e])[1..] == [];
    } else {
      assert (configs + [e])[1..] == configs[1..] + [e];
      ListedForPush(configs[1..], e, n);
    }
  }

  /** The graph has for a name all that its program entries list, and the names for which they list anything. */
  lemma {:induction false} GraphOfAll(configs: seq<Entry>, n: string)
    ensures n in GraphOf(configs) <==> ListedFor(configs, n) != []
    ensures n in GraphOf(configs) ==> GraphOf(configs)[n] == ListedFor(configs, n)
    decreases |configs|
  {
    if configs != [] {
      var init, last := configs[..|configs| - 1], configs[|configs| - 1];
      assert configs == init + [last];
      GraphOfAll(init, n);
      ListedForPush(init, last, n);
    }
  }

  /** If no other listed entry has its name, the graph has for a program what its entry says. */
  lemma {:induction false} GraphOfDistinct(configs: seq<Entry>, e: Entry)
    requires e in configs && e.IsProgram()
    requires forall i, j | 0 <= i < j < |configs| :: configs[i] != configs[j]
    requires forall o | o in configs && o != e && o.IsProgram() :: o.GetProgramName() != e.GetProgramName()
    ensures e.GetProgramName() in GraphOf(configs) <==> e.DependsOnNames() != []
    ensures e.GetProgramName() in GraphOf(configs) ==> GraphOf(configs)[e.GetProgramName()] == e.DependsOnNames()
    decreases |configs|
  {
    var init, last := configs[..|configs| - 1], configs[|configs| - 1];
    if last == e {
      if e.GetProgramName() in GraphOf(init) {
        GraphOfNames(init, e.GetProgramName());
      }
    } else {
      assert configs == init + [last];
      GraphOfDistinct(init, e);
    }
  }
}
