/**
  ProcessSorter (config/process_sort.go): programs in the order in which they are started.
 */
module ProcessSort {
  import opened ConfigEntry
  import opened DependencyGraph
  import opened Util

  function AddDependencies(g: Graph, name: string, names: seq<string>): Graph {
    if names == [] then g else g[name := (if name in g then g[name] else []) + names]
  }

  /** The graph that the entries describe. */
  function GraphOf(configs: seq<Entry>): Graph
    reads configs
  {
    if configs == [] then map[]
    else
      var c := configs[|configs| - 1];
      var g := GraphOf(configs[..|configs| - 1]);
      if c.IsProgram() then AddDependencies(g, c.GetProgramName(), c.DependsOnNames()) else g
  }

  /** How often e is to be listed: as often as it was given, if it is a program. */
  function Wanted(configs: seq<Entry>, e: Entry): nat
    reads e
  {
    if e.IsProgram() then multiset(configs)[e] else 0
  }

  /** The entry takes part in a dependency, on either side. */
  predicate Related(g: Graph, e: Entry)
    reads e
  {
    e.IsProgram() && e.GetProgramName() in Nodes(g)
  }

  /** Every program once for each time it was given, and nothing else. */
  ghost predicate IsPermutation(configs: seq<Entry>, result: seq<Entry>)
    reads configs, result
  {
    && (forall e | e in result :: e in configs && e.IsProgram())
    && (forall e | e in configs :: multiset(result)[e] == Wanted(configs, e))
  }

  /** No program comes before one it depends on, directly or not. */
  ghost predicate DependenciesComeFirst(g: Graph, result: seq<Entry>)
    reads result
  {
    forall i, j | 0 <= i < |result| && 0 <= j < |result| ::
      DependsOn(g, result[j].GetProgramName(), result[i].GetProgramName()) ==> i < j
  }

  /** The programs without dependencies come last, by priority. */
  ghost predicate UnrelatedByPriority(g: Graph, result: seq<Entry>)
    reads result
  {
    forall i, j | 0 <= i < j < |result| && !Related(g, result[i]) ::
      !Related(g, result[j]) && result[i].Priority() <= result[j].Priority()
  }

  ghost predicate InStartOrder(g: Graph, result: seq<Entry>)
    reads result
  {
    DependenciesComeFirst(g, result) && UnrelatedByPriority(g, result)
  }

  /** What a sort of the programs promises. */
  ghost predicate IsStartOrder(configs: seq<Entry>, g: Graph, result: seq<Entry>)
    reads configs, result
  {
    IsPermutation(configs, result) && InStartOrder(g, result)
  }

  /** Every program outside the graph once for each time it was given, and nothing else. */
  ghost predicate AreUnrelated(configs: seq<Entry>, g: Graph, unrelated: seq<Entry>)
    reads configs, unrelated
  {
    && (forall e | e in unrelated :: e in configs && e.IsProgram() && !Related(g, e))
    && (forall e | e in configs :: multiset(unrelated)[e] == if Related(g, e) then 0 else Wanted(configs, e))
  }

  predicate ByPriority(p: seq<Entry>)
    reads p
  {
    forall i, j | 0 <= i < j < |p| :: p[i].Priority() <= p[j].Priority()
  }

  lemma InsertSorts(p: seq<Entry>, k: nat, e: Entry)
    requires ByPriority(p) && k <= |p|
    requires k == 0 || p[k - 1].Priority() <= e.Priority()
    requires k == |p| || e.Priority() <= p[k].Priority()
    ensures ByPriority(p[..k] + [e] + p[k..])
  {
    var r := p[..k] + [e] + p[k..];
    forall i, j | 0 <= i < j < |r|
      ensures r[i].Priority() <= r[j].Priority()
    {
      assert r[i] == if i < k then p[i] else if i == k then e else p[i - 1];
      assert r[j] == if j < k then p[j] else if j == k then e else p[j - 1];
    }
  }

  lemma InsertAdds(p: seq<Entry>, k: nat, e: Entry)
    requires k <= |p|
    ensures multiset(p[..k] + [e] + p[k..]) == multiset(p) + multiset{e}
  {
    assert p == p[..k] + p[k..];
  }

  /** One insertion in front of the entries with a higher priority value. */
  method Insert(p: seq<Entry>, e: Entry) returns (r: seq<Entry>)
    requires ByPriority(p)
    ensures multiset(r) == multiset(p) + multiset{e} && ByPriority(r)
  {
    var k := |p|;
    while k > 0 && p[k - 1].Priority() > e.Priority()
      invariant 0 <= k <= |p|
      invariant k == |p| || e.Priority() <= p[k].Priority()
    {
      k := k - 1;
    }
    InsertSorts(p, k, e);
    InsertAdds(p, k, e);
    r := p[..k] + [e] + p[k..];
  }

  /** sort.Sort: some permutation in non-decreasing priority; the source leaves the order of ties open. */
  method SortByPriority(p: seq<Entry>) returns (r: seq<Entry>)
    ensures multiset(r) == multiset(p) && ByPriority(r)
  {
    r := [];
    var n := 0;
    while n < |p|
      invariant 0 <= n <= |p| && multiset(r) == multiset(p[..n]) && ByPriority(r)
    {
      assert p[..n + 1] == p[..n] + [p[n]];
      r := Insert(r, p[n]);
      n := n + 1;
    }
    assert p[..n] == p;
  }

  function Names(p: seq<Entry>): (r: seq<string>)
    reads p
    ensures |r| == |p| && forall i | 0 <= i < |p| :: r[i] == p[i].GetProgramName()
  {
    if p == [] then [] else [p[0].GetProgramName()] + Names(p[1..])
  }

  lemma Join(configs: seq<Entry>, g: Graph, related: seq<Entry>, unrelated: seq<Entry>)
    requires forall e | e in related :: e in configs && e.IsProgram()
    requires forall e | e in unrelated :: e in configs && e.IsProgram() && !Related(g, e)
    requires forall e | e in configs :: multiset(related)[e] == if e.GetProgramName() in Nodes(g) then Wanted(configs, e) else 0
    requires forall e | e in configs :: multiset(unrelated)[e] == if Related(g, e) then 0 else Wanted(configs, e)
    ensures IsPermutation(configs, related + unrelated)
  {
  }

  lemma RelatedComeFirst(g: Graph, order: seq<string>, related: seq<Entry>, unrelated: seq<Entry>)
    requires Ordered(g, Nodes(g), order) && NamesFollow(order, Names(related))
    requires forall e | e in unrelated :: e.IsProgram() && !Related(g, e)
    ensures DependenciesComeFirst(g, related + unrelated)
  {
    var r := related + unrelated;
    assert forall k | |related| <= k < |r| :: r[k] in unrelated;
    forall i, j | 0 <= i < |r| && 0 <= j < |r| && DependsOn(g, r[j].GetProgramName(), r[i].GetProgramName())
      ensures i < j
    {
      DependenciesFirst(g, order, r[j].GetProgramName(), r[i].GetProgramName());
      BothInNodes(g, r[j].GetProgramName(), r[i].GetProgramName());
      assert Names(related)[i] == r[i].GetProgramName() && Names(related)[j] == r[j].GetProgramName();
    }
  }

  lemma BothInNodes(g: Graph, a: string, b: string)
    requires DependsOn(g, a, b)
    ensures a in Nodes(g) && b in Nodes(g)
  {
    var p :| |p| > 1 && IsWalk(g, p) && p[0] == a && p[|p| - 1] == b;
    assert Edge(g, p[0], p[1]) && Edge(g, p[|p| - 2], p[|p| - 1]);
  }

  lemma UnrelatedComeLast(g: Graph, related: seq<Entry>, unrelated: seq<Entry>)
    requires forall e | e in related :: Related(g, e)
    requires forall e | e in unrelated :: !Related(g, e)
    requires ByPriority(unrelated)
    ensures UnrelatedByPriority(g, related + unrelated)
  {
  }

  lemma SameMembers(p: seq<Entry>, q: seq<Entry>)
    requires multiset(p) == multiset(q)
    ensures forall e :: e in p <==> e in q
  {
    assert forall e :: e in p <==> e in multiset(p);
    assert forall e :: e in q <==> e in multiset(q);
  }

  lemma NamesOfAll(r: seq<Entry>, more: seq<Entry>, order: seq<string>, name: string)
    requires NoRepeats(order + [name]) && NamesFollow(order, Names(r))
    requires forall e | e in more :: e.GetProgramName() == name
    ensures NamesFollow(order + [name], Names(r + more))
  {
    NamesConcat(r, more);
    forall i | 0 <= i < |Names(more)|
      ensures Names(more)[i] == name
    {
      assert more[i] in more;
    }
    NamesPush(order, name, Names(r), Names(more));
  }

  lemma NamesConcat(r: seq<Entry>, more: seq<Entry>)
    ensures Names(r + more) == Names(r) + Names(more)
  {
  }

  class ProcessSorter {
    var dependsOnGraph: Graph
    var procsWithoutDepends: seq<Entry>

    constructor ()
      ensures dependsOnGraph == map[] && procsWithoutDepends == []
    {
      dependsOnGraph, procsWithoutDepends := map[], [];
    }

    method InitDepends(configs: seq<Entry>)
      requires dependsOnGraph == map[]
      modifies `dependsOnGraph
      ensures dependsOnGraph == GraphOf(configs)
    {
      var n := 0;
      while n < |configs|
        invariant 0 <= n <= |configs| && dependsOnGraph == GraphOf(configs[..n])
      {
        var config := configs[n];
        assert configs[..n + 1][..n] == configs[..n];
        if config.IsProgram() {
          dependsOnGraph := AddDependencies(dependsOnGraph, config.GetProgramName(), config.DependsOnNames());
        }
        n := n + 1;
      }
      assert configs[..n] == configs;
    }

    method InitProgramWithoutDepends(configs: seq<Entry>)
      requires procsWithoutDepends == []
      modifies `procsWithoutDepends
      ensures AreUnrelated(configs, dependsOnGraph, procsWithoutDepends)
    {
      var n := 0;
      while n < |configs|
        invariant 0 <= n <= |configs|
        invariant forall e | e in procsWithoutDepends :: e in configs && e.IsProgram() && !Related(dependsOnGraph, e)
        invariant forall e | e in configs ::
                    multiset(procsWithoutDepends)[e] == if Related(dependsOnGraph, e) then 0 else Wanted(configs[..n], e)
      {
        var config := configs[n];
        assert configs[..n + 1] == configs[..n] + [config];
        if config.IsProgram() && config.GetProgramName() !in Nodes(dependsOnGraph) {
          procsWithoutDepends := procsWithoutDepends + [config];
        }
        n := n + 1;
      }
      assert configs[..n] == configs;
    }

    /** The entries of one program, as the inner loop of SortProgram collects them. */
    method Named(configs: seq<Entry>, name: string) returns (r: seq<Entry>)
      ensures forall e | e in r :: e in configs && e.IsProgram() && e.GetProgramName() == name
      ensures forall e | e in configs ::
                multiset(r)[e] == if e.IsProgram() && e.GetProgramName() == name then multiset(configs)[e] else 0
    {
      r := [];
      var n := 0;
      while n < |configs|
        invariant 0 <= n <= |configs|
        invariant forall e | e in r :: e in configs && e.IsProgram() && e.GetProgramName() == name
        invariant forall e | e in configs ::
                    multiset(r)[e] == if e.IsProgram() && e.GetProgramName() == name then multiset(configs[..n])[e] else 0
      {
        var config := configs[n];
        assert configs[..n + 1] == configs[..n] + [config];
        if config.IsProgram() && config.GetProgramName() == name {
          r := r + [config];
        }
        n := n + 1;
      }
      assert configs[..n] == configs;
    }

    method CollectRelated(configs: seq<Entry>, order: seq<string>) returns (r: seq<Entry>)
      requires NoRepeats(order)
      ensures forall e | e in r :: e in configs && e.IsProgram()
      ensures NamesFollow(order, Names(r))
      ensures forall e | e in configs ::
                multiset(r)[e] == if e.GetProgramName() in order then Wanted(configs, e) else 0
    {
      r := [];
      var k := 0;
      while k < |order|
        invariant 0 <= k <= |order|
        invariant forall e | e in r :: e in configs && e.IsProgram()
        invariant NamesFollow(order[..k], Names(r))
        invariant forall e | e in configs ::
                    multiset(r)[e] == if e.GetProgramName() in order[..k] then Wanted(configs, e) else 0
      {
        var more := Named(configs, order[k]);
        assert order[..k + 1] == order[..k] + [order[k]];
        NamesOfAll(r, more, order[..k], order[k]);
        r := r + more;
        k := k + 1;
      }
      assert order[..k] == order;
    }

    /** The part of SortProgram that follows the two initialisations; it also sorts what it was given. */
    method Arrange(configs: seq<Entry>, g: Graph, unrelated: seq<Entry>) returns (result: seq<Entry>, sorted: seq<Entry>)
      requires Acyclic(g)
      requires AreUnrelated(configs, g, unrelated)
      ensures IsStartOrder(configs, g, result)
    {
      var order := SortDepends(g);
      var related := CollectRelated(configs, order);
      sorted := SortByPriority(unrelated);
      result := related + sorted;
      InSetOf(order);
      SameMembers(unrelated, sorted);
      RelatedNames(g, order, related);
      Join(configs, g, related, sorted);
      RelatedComeFirst(g, order, related, sorted);
      UnrelatedComeLast(g, related, sorted);
    }

    /** SortProgram (config/process_sort.go:140-158), on a new sorter. */
    method SortProgram(configs: seq<Entry>) returns (result: seq<Entry>)
      requires dependsOnGraph == map[] && procsWithoutDepends == []
      requires Acyclic(GraphOf(configs))
      modifies this
      ensures IsStartOrder(configs, GraphOf(configs), result)
    {
      ghost var g := GraphOf(configs);
      InitDepends(configs);
      assert dependsOnGraph == g;
      InitProgramWithoutDepends(configs);
      var sorted: seq<Entry>;
      result, sorted := Arrange(configs, dependsOnGraph, procsWithoutDepends);
      procsWithoutDepends := sorted;
      assert GraphOf(configs) == g;
    }
  }

  /** sortProgram (config/process_sort.go:164-166) */
  method SortProgram(configs: seq<Entry>) returns (result: seq<Entry>)
    requires Acyclic(GraphOf(configs))
    ensures IsStartOrder(configs, GraphOf(configs), result)
  {
    var sorter := new ProcessSorter();
    result := sorter.SortProgram(configs);
  }

  lemma {:induction false} NoRepeatsOnce<T>(p: seq<T>)
    requires forall i, j | 0 <= i < j < |p| :: p[i] != p[j]
    ensures forall e :: multiset(p)[e] <= 1
    decreases |p|
  {
    if p != [] {
      var q := p[..|p| - 1];
      NoRepeatsOnce(q);
      assert p == q + [p[|p| - 1]];
      assert p[|p| - 1] !in q;
      assert multiset(q)[p[|p| - 1]] == 0;
    }
  }

  lemma TwiceInMultiset<T>(r: seq<T>, i: nat, j: nat)
    requires i < j < |r| && r[i] == r[j]
    ensures multiset(r)[r[i]] >= 2
  {
    assert r == r[..j] + r[j..];
    assert r[i] in r[..j] && r[j] == r[j..][0];
  }

  lemma InSetOf(order: seq<string>)
    ensures forall n :: n in order <==> n in SetOf(order)
  {
  }

  lemma RelatedNames(g: Graph, order: seq<string>, related: seq<Entry>)
    requires SetOf(order) == Nodes(g) && NamesFollow(order, Names(related)) && forall e | e in related :: e.IsProgram()
    ensures forall e | e in related :: Related(g, e)
  {
    forall e | e in related
      ensures Related(g, e)
    {
      var i :| 0 <= i < |related| && related[i] == e;
      assert Names(related)[i] in SetOf(order);
    }
  }
}
