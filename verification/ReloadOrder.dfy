/**
  When a reload gets past sorting the programs. While it sorts, the programs that have vanished from
  the files are still in the configuration with their dependencies (supervisor.go:475-493), and a
  program that is still in the files keeps the options that were taken away (config/config.go:110-118).
 */
module ReloadOrder {
  import opened ConfigEntry
  import opened Configuration
  import opened DependencyGraph
  import opened Supervisor
  import Text

  /** No program of the files depends on one that has vanished. */
  predicate IndependentOfGone(snap: Snapshot, sections: seq<Section>) {
    var t := Load(snap, sections);
    forall n | n in ProgramNames(sections) && n in t :: forall d | d in DependenciesOf(t[n]) :: d !in Gone(snap, sections)
  }

  lemma {:induction false} ParseAllSpares(snap: Snapshot, sections: seq<Section>, others: bool, n: string)
    requires forall i | 0 <= i < |sections| :: sections[i].name != n
    ensures n in ParseAll(snap, sections, others) <==> n in snap
    ensures n in snap ==> ParseAll(snap, sections, others)[n] == snap[n]
    decreases |sections|
  {
    if sections != [] {
      ParseAllSpares(snap, sections[..|sections| - 1], others, n);
    }
  }

  /** A vanished program keeps what it had. */
  lemma GoneKept(snap: Snapshot, sections: seq<Section>, n: string)
    requires NoCollision(snap, sections) && n in Gone(snap, sections)
    ensures n in Load(snap, sections) && Load(snap, sections)[n] == snap[n]
  {
    ParseAllSpares(snap, sections, false, n);
    ParseAllSpares(ParseAll(snap, sections, false), sections, true, n);
  }

  lemma Successor(g: Graph, p: seq<string>, i: nat) returns (j: nat)
    requires IsCycle(g, p) && i < |p|
    ensures j == (if i < |p| - 1 then i + 1 else 0) && Edge(g, p[i], p[j])
  {
    j := if i < |p| - 1 then i + 1 else 0;
  }

  /** A set that a cycle does not leave. */
  ghost predicate Closed(g: Graph, s: set<string>) {
    forall a, b | a in s && b in g && Edge(g, a, b) :: b in s
  }

  lemma {:induction false} CycleStays(g: Graph, p: seq<string>, s: set<string>, i: nat, j: nat)
    requires IsCycle(g, p) && Closed(g, s) && i <= j < |p| && p[i] in s && forall k | 0 <= k < |p| :: p[k] in g
    ensures p[j] in s
    decreases j
  {
    if i < j {
      CycleStays(g, p, s, i, j - 1);
      assert Edge(g, p[j - 1], p[j]);
    }
  }

  /** Such a set holds a cycle wholly or not at all. */
  lemma CycleIn(g: Graph, p: seq<string>, s: set<string>, i: nat)
    requires IsCycle(g, p) && Closed(g, s) && i < |p| && p[i] in s && forall k | 0 <= k < |p| :: p[k] in g
    ensures forall j | 0 <= j < |p| :: p[j] in s
  {
    CycleStays(g, p, s, i, |p| - 1);
    assert Edge(g, p[|p| - 1], p[0]);
    forall j | 0 <= j < |p|
      ensures p[j] in s
    {
      CycleStays(g, p, s, 0, j);
    }
  }

  lemma CycleMoves(g: Graph, h: Graph, p: seq<string>)
    requires IsCycle(g, p) && forall i | 0 <= i < |p| :: p[i] in h && p[i] in g && h[p[i]] == g[p[i]]
    ensures !Acyclic(h)
  {
    assert IsWalk(h, p) by {
      forall i | 0 <= i < |p| - 1
        ensures Edge(h, p[i], p[i + 1])
      {
        assert Edge(g, p[i], p[i + 1]);
      }
    }
    assert IsCycle(h, p);
  }

  lemma FilesClosed(snap: Snapshot, sections: seq<Section>)
    requires NamesMatch(snap) && NoCollision(snap, sections) && IndependentOfGone(snap, sections)
    ensures Closed(SnapshotGraph(Load(snap, sections)), ProgramNames(sections))
  {
    LoadPrograms(snap, sections);
    var g := SnapshotGraph(Load(snap, sections));
    forall a, b | a in ProgramNames(sections) && b in g && Edge(g, a, b)
      ensures b in ProgramNames(sections)
    {
      assert b !in Gone(snap, sections);
    }
  }

  lemma FileEdges(snap: Snapshot, sections: seq<Section>, n: string)
    requires n in SnapshotGraph(Load(snap, sections)) && n in ProgramNames(sections)
    ensures n in SnapshotGraph(Reloaded(snap, sections))
    ensures SnapshotGraph(Reloaded(snap, sections))[n] == SnapshotGraph(Load(snap, sections))[n]
  {
    assert n !in Gone(snap, sections);
  }

  lemma GoneEdges(snap: Snapshot, sections: seq<Section>, n: string)
    requires NamesMatch(snap) && NoCollision(snap, sections)
    requires n in SnapshotGraph(Load(snap, sections)) && n !in ProgramNames(sections)
    ensures n in SnapshotGraph(snap) && SnapshotGraph(snap)[n] == SnapshotGraph(Load(snap, sections))[n]
  {
    LoadPrograms(snap, sections);
    GoneKept(snap, sections, n);
  }

  /** Every cycle of the load lies among the programs of the files or among those that have vanished. */
  lemma CycleAfterLoad(snap: Snapshot, sections: seq<Section>, p: seq<string>)
    requires NamesMatch(snap) && NoCollision(snap, sections) && IndependentOfGone(snap, sections)
    requires IsCycle(SnapshotGraph(Load(snap, sections)), p)
    ensures !Acyclic(SnapshotGraph(snap)) || !Acyclic(SnapshotGraph(Reloaded(snap, sections)))
  {
    var g := SnapshotGraph(Load(snap, sections));
    forall i | 0 <= i < |p|
      ensures p[i] in g
    {
      var _ := Successor(g, p, i);
    }
    if i :| 0 <= i < |p| && p[i] in ProgramNames(sections) {
      FilesClosed(snap, sections);
      CycleIn(g, p, ProgramNames(sections), i);
      forall k | 0 <= k < |p|
        ensures p[k] in SnapshotGraph(Reloaded(snap, sections)) && SnapshotGraph(Reloaded(snap, sections))[p[k]] == g[p[k]]
      {
        FileEdges(snap, sections, p[k]);
      }
      CycleMoves(g, SnapshotGraph(Reloaded(snap, sections)), p);
    } else {
      forall k | 0 <= k < |p|
        ensures p[k] in SnapshotGraph(snap) && SnapshotGraph(snap)[p[k]] == g[p[k]]
      {
        GoneEdges(snap, sections, p[k]);
      }
      CycleMoves(g, SnapshotGraph(snap), p);
    }
  }

  /**
    If no program of the files depends on a vanished one, a reload of a configuration that could be
    sorted gets past the sorting exactly when what it ends up with can be sorted.
   */
  lemma SortsIffResultSorts(snap: Snapshot, sections: seq<Section>)
    requires NamesMatch(snap) && NoCollision(snap, sections) && Acyclic(SnapshotGraph(snap))
    requires IndependentOfGone(snap, sections)
    ensures Acyclic(SnapshotGraph(Load(snap, sections))) <==> Acyclic(SnapshotGraph(Reloaded(snap, sections)))
    ensures (exists n: nat :: FinishesWithin(SnapshotGraph(Load(snap, sections)), n)) <==> Acyclic(SnapshotGraph(Reloaded(snap, sections)))
  {
    TerminatesIff(SnapshotGraph(Load(snap, sections)));
    if Acyclic(SnapshotGraph(Load(snap, sections))) {
      ReloadedAcyclic(snap, sections);
    } else {
      var p :| IsCycle(SnapshotGraph(Load(snap, sections)), p);
      CycleAfterLoad(snap, sections, p);
    }
  }

  /** Loading a section replaces the options of its name exactly when no other option was set before. */
  lemma ReplacesOptionsIff(snap: Snapshot, s: Section)
    ensures Parse(snap, s)[s.name].values == s.values <==> (s.name in snap ==> snap[s.name].values.Keys <= s.values.Keys)
  {
    var v := Parse(snap, s)[s.name].values;
    assert v.Keys == (if s.name in snap then snap[s.name].values.Keys else {}) + s.values.Keys;
    if s.name in snap && snap[s.name].values.Keys <= s.values.Keys {
      assert v == s.values;
    }
  }

  lemma TrimLetter(s: string)
    requires s == "a" || s == "b"
    ensures Text.Trim(s) == s
  {
    assert s[..1] == s && s[0..] == s;
    assert !Text.IsSpaceCharacter(s);
    assert Text.LeadingSpace(s) == 0 && Text.TrailingSpace(s) == 0;
  }

  lemma SplitOne(s: string)
    requires s == "a" || s == "b"
    ensures NonEmpty(Text.Split(s, ',')) == [s]
  {
    TrimLetter(s);
    assert s[1..] == "" && Text.Split(s[1..], ',') == [""];
    assert [s[0]] + "" == s && [""][1..] == [];
    assert Text.Split(s, ',') == [s] && [s][1..] == [];
    assert NonEmpty([s][1..]) == [];
  }

  lemma DependsOnOne(name: string, s: string) returns (d: Data)
    requires s == "a" || s == "b"
    ensures d == Data(name, map["depends_on" := s]) && DependenciesOf(d) == [s]
  {
    d := Data(name, map["depends_on" := s]);
    SplitOne(s);
  }

  lemma OneEdge(a: string, b: string)
    requires a != b
    ensures Acyclic(map[a := [b]]) && !Acyclic(map[a := [b], b := [a]])
  {
    var g, h: Graph := map[a := [b]], map[a := [b], b := [a]];
    forall p
      ensures !IsCycle(g, p)
    {
      if IsCycle(g, p) {
        var j := Successor(g, p, 0);
        var _ := Successor(g, p, j);
      }
    }
    assert IsCycle(h, [a, b]);
  }

  lemma OneProgram(n: string, d: Data)
    requires IsProgramName(d.name)
    ensures SnapshotGraph(map[n := d]) == if DependenciesOf(d) == [] then map[] else map[n := DependenciesOf(d)]
  {
  }

  lemma LoadOne(snap: Snapshot, s: Section)
    requires s.kind == Program
    ensures Load(snap, [s]) == Parse(snap, s) && ProgramNames([s]) == {s.name}
  {
    assert [s][..0] == [];
    assert ParseAll(snap, [s], false) == Parse(snap, s);
    assert ParseAll(Parse(snap, s), [s], true) == ParseAll(Parse(snap, s), [], true);
  }

  lemma TwoPrograms(a: Data, b: Data)
    requires IsProgramName(a.name) && IsProgramName(b.name) && DependenciesOf(a) != [] && DependenciesOf(b) != []
    ensures SnapshotGraph(map["a" := a, "b" := b]) == map["a" := DependenciesOf(a), "b" := DependenciesOf(b)]
  {
  }

  /**
    The program a that depends on b has vanished from the files, in which b now depends on a: the
    programs before and those of the files can each be sorted, and the reload never ends.
   */
  lemma VanishedProgramHangs() returns (snap: Snapshot, sections: seq<Section>)
    ensures NamesMatch(snap) && NoCollision(snap, sections)
    ensures Acyclic(SnapshotGraph(snap)) && Acyclic(SnapshotGraph(Load(map[], sections)))
    ensures !Acyclic(SnapshotGraph(Load(snap, sections)))
  {
    var a := DependsOnOne(PROGRAM_PREFIX + "a", "b");
    var d := DependsOnOne(PROGRAM_PREFIX + "b", "a");
    var b := Section(Program, "b", map["depends_on" := "a"]);
    snap, sections := map["a" := a], [b];
    PrefixedName("a");
    PrefixedName("b");
    NoneCollides(snap, a, b);
    LoadBoth(snap, a, b, d);
    CrossedGraphs(a, d);
  }

  lemma NoneCollides(snap: Snapshot, a: Data, b: Section)
    requires snap == map["a" := a] && a.name == PROGRAM_PREFIX + "a" && b.kind == Program && b.name == "b"
    ensures NamesMatch(snap) && NoCollision(snap, [b])
  {
  }

  lemma CrossedGraphs(a: Data, d: Data)
    requires IsProgramName(a.name) && IsProgramName(d.name) && DependenciesOf(a) == ["b"] && DependenciesOf(d) == ["a"]
    ensures Acyclic(SnapshotGraph(map["a" := a])) && Acyclic(SnapshotGraph(map["b" := d]))
    ensures !Acyclic(SnapshotGraph(map["a" := a, "b" := d]))
  {
    OneEdge("a", "b");
    OneEdge("b", "a");
    OneProgram("a", a);
    OneProgram("b", d);
    TwoPrograms(a, d);
  }

  lemma LoadBoth(snap: Snapshot, a: Data, b: Section, d: Data)
    requires snap == map["a" := a] && b.kind == Program && b.name == "b" && d == Data(PROGRAM_PREFIX + "b", b.values)
    ensures Load(snap, [b]) == map["a" := a, "b" := d] && Load(map[], [b]) == map["b" := d]
  {
    LoadOne(snap, b);
    LoadOne(map[], b);
    assert map[] + b.values == b.values;
    assert Parse(snap, b) == map["a" := a, "b" := d];
    assert Parse(map[], b) == map["b" := d];
  }
}
