/**
  The depends_on graph of config/process_sort.go and its order of starting: when the
  repeat-until-all-finished loop ends, and what its result is.
 */
module DependencyGraph {
  import opened Util

  /** Program name to the names it lists under depends_on. */
  type Graph = map<string, seq<string>>

  predicate Edge(g: Graph, a: string, b: string) {
    a in g && b in g[a]
  }

  /** A walk along dependencies. */
  predicate IsWalk(g: Graph, p: seq<string>) {
    p != [] && forall i | 0 <= i < |p| - 1 :: Edge(g, p[i], p[i + 1])
  }

  predicate IsCycle(g: Graph, p: seq<string>) {
    IsWalk(g, p) && Edge(g, p[|p| - 1], p[0])
  }

  ghost predicate Acyclic(g: Graph) {
    forall p :: !IsCycle(g, p)
  }

  /** a depends on b, directly or through other programs. */
  ghost predicate DependsOn(g: Graph, a: string, b: string) {
    exists p :: |p| > 1 && IsWalk(g, p) && p[0] == a && p[|p| - 1] == b
  }

  /** getDependsOnInfo (config/process_sort.go:70-81): every name that occurs in the graph. */
  function Nodes(g: Graph): set<string> {
    g.Keys + set k, d | k in g && d in g[k] :: d
  }

  /** inFinishedPrograms (config/process_sort.go:108-117) */
  predicate Ready(g: Graph, finished: set<string>, name: string) {
    name in g ==> forall d | d in g[name] :: d in finished
  }

  predicate Before(order: seq<string>, a: string, b: string) {
    exists i, j | 0 <= i < j < |order| :: order[i] == a && order[j] == b
  }

  // ---------------------------------------------------------------- progress

  lemma {:induction false} NoRepeatsSize(p: seq<string>)
    requires NoRepeats(p)
    ensures |SetOf(p)| == |p|
    decreases |p|
  {
    if p != [] {
      var q := p[..|p| - 1];
      NoRepeatsSize(q);
      assert SetOf(p) == SetOf(q) + {p[|p| - 1]};
    }
  }

  lemma SubsetSize(a: set<string>, b: set<string>)
    requires a <= b
    ensures |a| <= |b|
  {
    assert b == a + (b - a);
  }

  lemma WalkCloses(g: Graph, p: seq<string>, d: string)
    requires IsWalk(g, p) && Edge(g, p[|p| - 1], d) && d in p
    ensures !Acyclic(g)
  {
    var i :| 0 <= i < |p| && p[i] == d;
    assert IsCycle(g, p[i..]);
  }

  /** Between two visits to the same name a walk closes a cycle. */
  lemma WalkRepeats(g: Graph, p: seq<string>, i: nat, j: nat)
    requires IsWalk(g, p) && i < j < |p| && p[i] == p[j]
    ensures IsCycle(g, p[i..j]) && IsWalk(g, p[..i + 1]) && p[..i + 1][i] == p[i..j][0]
  {
    var c, q := p[i..j], p[..i + 1];
    forall k | 0 <= k < |c| - 1
      ensures Edge(g, c[k], c[k + 1])
    {
      assert Edge(g, p[i + k], p[i + k + 1]);
    }
    forall k | 0 <= k < |q| - 1
      ensures Edge(g, q[k], q[k + 1])
    {
      assert Edge(g, p[k], p[k + 1]);
    }
    assert Edge(g, p[j - 1], p[j]);
  }

  lemma WalkExtends(g: Graph, p: seq<string>, d: string)
    requires IsWalk(g, p) && NoRepeats(p) && Edge(g, p[|p| - 1], d) && d !in p
    ensures IsWalk(g, p + [d]) && NoRepeats(p + [d]) && SetOf(p + [d]) == SetOf(p) + {d}
  {
  }

  /** Walking through programs that all wait for one another must close a cycle. */
  lemma {:induction false} WaitingWalk(g: Graph, waiting: set<string>, p: seq<string>)
    requires IsWalk(g, p) && NoRepeats(p) && SetOf(p) <= waiting
    requires forall n | n in waiting :: exists d :: Edge(g, n, d) && d in waiting
    ensures !Acyclic(g)
    decreases |waiting| - |p|
  {
    var last := p[|p| - 1];
    assert last in SetOf(p);
    var d :| Edge(g, last, d) && d in waiting;
    if d in p {
      WalkCloses(g, p, d);
    } else {
      WalkExtends(g, p, d);
      NoRepeatsSize(p + [d]);
      SubsetSize(SetOf(p + [d]), waiting);
      WaitingWalk(g, waiting, p + [d]);
    }
  }

  /** In an acyclic graph some unfinished program waits for nothing. */
  lemma SomeReady(g: Graph, finished: set<string>) returns (name: string)
    requires Acyclic(g) && Nodes(g) - g.Keys <= finished && !(g.Keys <= finished)
    ensures name in g && name !in finished && Ready(g, finished, name)
  {
    var waiting := g.Keys - finished;
    var some :| some in g.Keys && some !in finished;
    if forall n | n in waiting :: exists d :: Edge(g, n, d) && d in waiting {
      assert SetOf([some]) == {some};
      WaitingWalk(g, waiting, [some]);
    }
    var n :| n in waiting && forall d :: Edge(g, n, d) ==> d !in waiting;
    name := n;
    forall d | d in g[n]
      ensures d in finished
    {
      assert Edge(g, n, d);
    }
  }

  // ---------------------------------------------------------------- sorting

  /** The order lists finished programs once each, every one behind all it depends on. */
  ghost predicate Ordered(g: Graph, finished: set<string>, order: seq<string>) {
    && NoRepeats(order)
    && SetOf(order) == finished
    && forall j, d | 0 <= j < |order| && Edge(g, order[j], d) :: d in order[..j]
  }

  lemma OrderedPush(g: Graph, finished: set<string>, order: seq<string>, name: string)
    requires Ordered(g, finished, order) && name !in finished && Ready(g, finished, name)
    ensures Ordered(g, finished + {name}, order + [name])
  {
    var next := order + [name];
    assert SetOf(next) == SetOf(order) + {name};
    forall i | 0 <= i < |order|
      ensures order[i] != name
    {
      assert order[i] in SetOf(order);
    }
    forall j, d | 0 <= j < |next| && Edge(g, next[j], d)
      ensures d in next[..j]
    {
      assert next[..j] == order[..j];
      if j == |order| {
        assert d in SetOf(order);
      }
    }
  }

  /** The programs that are only depended on (config/process_sort.go:89-94), in any order. */
  method WithoutDepends(g: Graph) returns (order: seq<string>)
    ensures Ordered(g, Nodes(g) - g.Keys, order)
  {
    var finished: set<string> := {};
    var unvisited := Nodes(g);
    order := [];
    while unvisited != {}
      invariant finished == Nodes(g) - unvisited - g.Keys
      invariant Ordered(g, finished, order)
      decreases unvisited
    {
      var name :| name in unvisited;
      unvisited := unvisited - {name};
      if name !in g {
        OrderedPush(g, finished, order, name);
        finished := finished + {name};
        order := order + [name];
      }
    }
    assert finished == Nodes(g) - g.Keys;
  }

  lemma AllKeysAll(g: Graph, finished: set<string>)
    requires Nodes(g) - g.Keys <= finished <= Nodes(g) && g.Keys <= finished
    ensures finished == Nodes(g)
  {
  }

  /**
    sortDepends (config/process_sort.go:83-106). Go visits the keys of a map in any order, each of
    them once.
   */
  method SortDepends(g: Graph) returns (order: seq<string>)
    requires Acyclic(g)
    ensures Ordered(g, Nodes(g), order)
  {
    var nodes := Nodes(g);
    order := WithoutDepends(g);
    var finished := nodes - g.Keys;
    while |finished| < |nodes|
      invariant nodes - g.Keys <= finished <= nodes
      invariant Ordered(g, finished, order)
      decreases nodes - finished
    {
      if g.Keys <= finished {
        AllKeysAll(g, finished);
      }
      ghost var next := SomeReady(g, finished);
      finished, order := VisitAll(g, finished, order, next);
    }
    FullSubset(finished, nodes);
  }

  lemma FullSubset(a: set<string>, b: set<string>)
    requires a <= b && |a| >= |b|
    ensures a == b
  {
    assert b == a + (b - a);
  }

  /** One round of the inner loop (config/process_sort.go:97-102). */
  method VisitAll(g: Graph, finished0: set<string>, order0: seq<string>, ghost next: string)
    returns (finished: set<string>, order: seq<string>)
    requires finished0 <= Nodes(g) && Ordered(g, finished0, order0)
    requires next in g && Ready(g, finished0, next)
    ensures finished0 <= finished <= Nodes(g) && Ordered(g, finished, order)
    ensures next in finished
  {
    finished, order := finished0, order0;
    var unvisited := g.Keys;
    while unvisited != {}
      invariant unvisited <= g.Keys
      invariant finished0 <= finished <= Nodes(g) && Ordered(g, finished, order)
      invariant next in unvisited || next in finished
      decreases unvisited
    {
      var name :| name in unvisited;
      unvisited := unvisited - {name};
      if name !in finished && Ready(g, finished, name) {
        OrderedPush(g, finished, order, name);
        finished := finished + {name};
        order := order + [name];
      }
    }
  }

  lemma {:induction false} WalkIsOrdered(g: Graph, order: seq<string>, p: seq<string>, j: nat)
    requires Ordered(g, Nodes(g), order) && IsWalk(g, p) && j < |order| && order[j] == p[0]
    ensures |p| > 1 ==> p[|p| - 1] in order[..j]
    decreases |p|
  {
    if |p| > 1 {
      assert Edge(g, p[0], p[1]);
      var i :| 0 <= i < j && order[i] == p[1];
      if |p| > 2 {
        assert IsWalk(g, p[1..]);
        WalkIsOrdered(g, order, p[1..], i);
        var k :| 0 <= k < i && order[k] == p[|p| - 1];
        assert order[..j][k] == p[|p| - 1];
      }
    }
  }

  /** Every transitive dependency comes first. */
  lemma DependenciesFirst(g: Graph, order: seq<string>, a: string, b: string)
    requires Ordered(g, Nodes(g), order) && DependsOn(g, a, b)
    ensures Before(order, b, a)
  {
    var p :| |p| > 1 && IsWalk(g, p) && p[0] == a && p[|p| - 1] == b;
    assert Edge(g, p[0], p[1]);
    assert a in SetOf(order);
    var j :| 0 <= j < |order| && order[j] == a;
    WalkIsOrdered(g, order, p, j);
    var i :| 0 <= i < j && order[i] == b;
  }

  /** Listed this way, the names never run against the order. */
  predicate NamesFollow(order: seq<string>, names: seq<string>) {
    && (forall i | 0 <= i < |names| :: names[i] in order)
    && (forall i, j | 0 <= i <= j < |names| :: !Before(order, names[j], names[i]))
  }

  lemma NamesPush(order: seq<string>, name: string, names: seq<string>, more: seq<string>)
    requires NoRepeats(order + [name]) && NamesFollow(order, names) && forall i | 0 <= i < |more| :: more[i] == name
    ensures NamesFollow(order + [name], names + more)
  {
    var next := order + [name];
    assert next[|order|] == name;
    forall i, j | 0 <= i <= j < |names + more|
      ensures !Before(next, (names + more)[j], (names + more)[i])
    {
      if j < |names| {
        var c :| 0 <= c < |order| && order[c] == names[i];
        assert next[c] == names[i];
        assert !Before(order, names[j], names[i]);
      }
    }
  }

  // ---------------------------------------------------------------- cycles never finish

  /** One round of the inner loop for one order of visits. */
  function Round(g: Graph, visits: seq<string>, finished: set<string>): set<string>
    decreases |visits|
  {
    if visits == [] then finished
    else Round(g, visits[1..], if Ready(g, finished, visits[0]) then finished + {visits[0]} else finished)
  }

  function Rounds(g: Graph, visits: seq<seq<string>>, finished: set<string>): set<string>
    decreases |visits|
  {
    if visits == [] then finished else Rounds(g, visits[1..], Round(g, visits[0], finished))
  }

  lemma {:induction false} RoundSparesCycle(g: Graph, p: seq<string>, visits: seq<string>, finished: set<string>)
    requires IsCycle(g, p) && forall i | 0 <= i < |p| :: p[i] !in finished
    ensures forall i | 0 <= i < |p| :: p[i] !in Round(g, visits, finished)
    decreases |visits|
  {
    if visits != [] {
      forall i | 0 <= i < |p|
        ensures !Ready(g, finished, p[i])
      {
        var d := if i < |p| - 1 then p[i + 1] else p[0];
        assert Edge(g, p[i], d);
      }
      RoundSparesCycle(g, p, visits[1..], if Ready(g, finished, visits[0]) then finished + {visits[0]} else finished);
    }
  }

  /**
    When the graph has a cycle, the guard of the outer loop stays true after any number of rounds,
    in whatever order the keys are visited: the members of the cycle never finish.
   */
  lemma {:induction false} CycleNeverFinishes(g: Graph, p: seq<string>, visits: seq<seq<string>>, finished: set<string>)
    requires IsCycle(g, p) && forall i | 0 <= i < |p| :: p[i] !in finished
    ensures !(Nodes(g) <= Rounds(g, visits, finished))
    decreases |visits|
  {
    if visits == [] {
      assert Edge(g, p[|p| - 1], p[0]);
      assert p[0] in Nodes(g);
    } else {
      RoundSparesCycle(g, p, visits[0], finished);
      CycleNeverFinishes(g, p, visits[1..], Round(g, visits[0], finished));
    }
  }

  /** In an acyclic graph each round finishes another program, so as many rounds as keys suffice. */
  lemma {:induction false} RoundsGrow(g: Graph, visits: seq<string>, finished: set<string>, name: string)
    requires name in visits && Ready(g, finished, name)
    ensures finished + {name} <= Round(g, visits, finished)
    decreases |visits|
  {
    var next := if Ready(g, finished, visits[0]) then finished + {visits[0]} else finished;
    if name in visits[1..] {
      RoundsGrow(g, visits[1..], next, name);
    } else {
      RoundKeeps(g, visits[1..], next);
    }
  }

  lemma {:induction false} RoundKeeps(g: Graph, visits: seq<string>, finished: set<string>)
    ensures finished <= Round(g, visits, finished)
    decreases |visits|
  {
    if visits != [] {
      RoundKeeps(g, visits[1..], if Ready(g, finished, visits[0]) then finished + {visits[0]} else finished);
    }
  }

  lemma {:induction false} AcyclicFinishes(g: Graph, visits: seq<seq<string>>, finished: set<string>)
    requires Acyclic(g) && Nodes(g) - g.Keys <= finished
    requires forall i | 0 <= i < |visits| :: g.Keys <= SetOf(visits[i])
    requires |visits| >= |g.Keys - finished|
    ensures Nodes(g) <= Rounds(g, visits, finished)
    decreases |visits|
  {
    if g.Keys <= finished {
      RoundsKeep(g, visits, finished);
    } else {
      var name := SomeReady(g, finished);
      assert g.Keys - finished == (g.Keys - finished - {name}) + {name};
      assert name in SetOf(visits[0]);
      RoundsGrow(g, visits[0], finished, name);
      var next := Round(g, visits[0], finished);
      SubsetSize(g.Keys - next, g.Keys - finished - {name});
      AcyclicFinishes(g, visits[1..], next);
    }
  }

  lemma {:induction false} RoundsKeep(g: Graph, visits: seq<seq<string>>, finished: set<string>)
    ensures finished <= Rounds(g, visits, finished)
    decreases |visits|
  {
    if visits != [] {
      RoundKeeps(g, visits[0], finished);
      RoundsKeep(g, visits[1..], Round(g, visits[0], finished));
    }
  }

  /** Every history of n rounds that each visit all the keys finishes every program. */
  ghost predicate FinishesWithin(g: Graph, n: nat) {
    forall visits: seq<seq<string>> ::
      |visits| == n && (forall i | 0 <= i < n :: g.Keys <= SetOf(visits[i])) ==>
        Nodes(g) <= Rounds(g, visits, Nodes(g) - g.Keys)
  }

  lemma SomeVisits(g: Graph, keys: seq<string>, n: nat) returns (visits: seq<seq<string>>)
    requires g.Keys <= SetOf(keys)
    ensures |visits| == n && forall i | 0 <= i < n :: g.Keys <= SetOf(visits[i])
  {
    visits := seq(n, i => keys);
  }

  lemma KeysInSeq(keys: set<string>) returns (p: seq<string>)
    ensures SetOf(p) == keys
    decreases keys
  {
    if keys == {} {
      p := [];
    } else {
      var k :| k in keys;
      var q := KeysInSeq(keys - {k});
      p := [k] + q;
      assert SetOf(p) == {k} + SetOf(q);
    }
  }

  lemma AcyclicFinishesWithin(g: Graph)
    requires Acyclic(g)
    ensures FinishesWithin(g, |g.Keys|)
  {
    var start := Nodes(g) - g.Keys;
    SubsetSize(g.Keys - start, g.Keys);
    forall visits: seq<seq<string>> | |visits| == |g.Keys| && (forall i | 0 <= i < |g.Keys| :: g.Keys <= SetOf(visits[i]))
      ensures Nodes(g) <= Rounds(g, visits, start)
    {
      AcyclicFinishes(g, visits, start);
    }
  }

  lemma CyclicNeverFinishes(g: Graph, n: nat)
    requires !Acyclic(g)
    ensures !FinishesWithin(g, n)
  {
    var p :| IsCycle(g, p);
    var keys := KeysInSeq(g.Keys);
    var visits := SomeVisits(g, keys, n);
    forall i | 0 <= i < |p|
      ensures p[i] in g.Keys
    {
      assert Edge(g, p[i], if i < |p| - 1 then p[i + 1] else p[0]);
    }
    CycleNeverFinishes(g, p, visits, Nodes(g) - g.Keys);
  }

  /** The sorting loop ends if and only if the dependencies are acyclic, and then within |keys| rounds. */
  lemma TerminatesIff(g: Graph)
    ensures (exists n: nat :: FinishesWithin(g, n)) <==> Acyclic(g)
    ensures Acyclic(g) ==> FinishesWithin(g, |g.Keys|)
  {
    if Acyclic(g) {
      AcyclicFinishesWithin(g);
      assert exists n: nat :: FinishesWithin(g, n) by {
        var n: nat := |g.Keys|;
        assert FinishesWithin(g, n);
      }
    } else {
      forall n: nat
        ensures !FinishesWithin(g, n)
      {
        CyclicNeverFinishes(g, n);
      }
    }
  }
}
