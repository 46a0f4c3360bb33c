/**
  Following the edges of a graph from some names: it comes to an end within as many steps as the graph
  has keys, unless it leads into a cycle.
 */
module ReferenceGraph {
  import opened DependencyGraph
  import opened Util

  /** Following edges from the names one comes to the name. */
  ghost predicate LeadsTo(g: Graph, names: seq<string>, name: string) {
    exists p :: IsWalk(g, p) && p[0] in names && p[|p| - 1] == name
  }

  ghost predicate LeadsIntoCycle(g: Graph, names: seq<string>) {
    exists p :: IsCycle(g, p) && LeadsTo(g, names, p[0])
  }

  /** Every way from the names leaves the keys of the graph after at most depth of them. */
  predicate Bounded(g: Graph, names: seq<string>, depth: nat)
    decreases depth
  {
    forall n | n in names && n in g :: depth > 0 && Bounded(g, g[n], depth - 1)
  }

  lemma LeadsToOwn(g: Graph, names: seq<string>, name: string)
    requires name in names
    ensures LeadsTo(g, names, name)
  {
    assert IsWalk(g, [name]);
  }

  lemma WalkTail(g: Graph, p: seq<string>)
    requires IsWalk(g, p) && |p| > 1
    ensures p[0] in g && IsWalk(g, p[1..]) && p[1..][0] in g[p[0]] && p[1..][|p[1..]| - 1] == p[|p| - 1]
  {
    assert Edge(g, p[0], p[1]);
    forall i | 0 <= i < |p[1..]| - 1
      ensures Edge(g, p[1..][i], p[1..][i + 1])
    {
      assert Edge(g, p[i + 1], p[i + 2]);
    }
  }

  lemma WalkFrom(g: Graph, name: string, q: seq<string>)
    requires IsWalk(g, q) && Edge(g, name, q[0])
    ensures IsWalk(g, [name] + q) && ([name] + q)[|q|] == q[|q| - 1]
  {
    var p := [name] + q;
    forall i | 0 <= i < |p| - 1
      ensures Edge(g, p[i], p[i + 1])
    {
      if i > 0 {
        assert Edge(g, q[i - 1], q[i]);
      }
    }
  }

  /** What the names behind an edge lead to, the name in front of it leads to. */
  lemma LeadsFurther(g: Graph, names: seq<string>, via: string, name: string)
    requires via in names && via in g && LeadsTo(g, g[via], name)
    ensures LeadsTo(g, names, name)
  {
    var q :| IsWalk(g, q) && q[0] in g[via] && q[|q| - 1] == name;
    WalkFrom(g, via, q);
    assert ([via] + q)[0] in names;
  }

  /** A walk of keys from bounded names is no longer than the bound. */
  lemma {:induction false} WalkIsShort(g: Graph, names: seq<string>, depth: nat, p: seq<string>)
    requires Bounded(g, names, depth) && IsWalk(g, p) && p[0] in names && p[|p| - 1] in g
    ensures |p| <= depth && Bounded(g, g[p[|p| - 1]], depth - |p|)
    decreases |p|
  {
    if |p| > 1 {
      WalkTail(g, p);
      WalkIsShort(g, g[p[0]], depth - 1, p[1..]);
    }
  }

  /** What a name on a cycle leads to is not bounded. */
  lemma {:induction false} CycleUnbounded(g: Graph, p: seq<string>, i: nat, depth: nat)
    requires IsCycle(g, p) && i < |p|
    ensures p[i] in g && !Bounded(g, g[p[i]], depth)
    decreases depth
  {
    var j := if i < |p| - 1 then i + 1 else 0;
    assert Edge(g, p[i], p[j]);
    if depth > 0 {
      CycleUnbounded(g, p, j, depth - 1);
    } else {
      assert p[j] in g by {
        assert Edge(g, p[j], if j < |p| - 1 then p[j + 1] else p[0]);
      }
    }
  }

  /** Without a bound there are walks of keys of every length. */
  lemma {:induction false} LongWalk(g: Graph, names: seq<string>, depth: nat) returns (p: seq<string>)
    requires !Bounded(g, names, depth)
    ensures IsWalk(g, p) && p[0] in names && |p| == depth + 1 && p[|p| - 1] in g
    decreases depth
  {
    var n :| n in names && n in g && !(depth > 0 && Bounded(g, g[n], depth - 1));
    p := [n];
    if depth > 0 {
      var q := LongWalk(g, g[n], depth - 1);
      WalkFrom(g, n, q);
      p := [n] + q;
    }
  }

  lemma KeysOnWalk(g: Graph, p: seq<string>)
    requires IsWalk(g, p) && p[|p| - 1] in g
    ensures SetOf(p) <= g.Keys
  {
    forall x | x in p
      ensures x in g
    {
      var i :| 0 <= i < |p| && p[i] == x;
      assert i < |p| - 1 ==> Edge(g, p[i], p[i + 1]);
    }
  }

  lemma TooLongRepeats(g: Graph, p: seq<string>) returns (i: nat, j: nat)
    requires SetOf(p) <= g.Keys && |p| > |g|
    ensures i < j < |p| && p[i] == p[j]
  {
    if NoRepeats(p) {
      NoRepeatsSize(p);
      SubsetSize(SetOf(p), g.Keys);
      assert false;
    }
    i, j :| 0 <= i < j < |p| && p[i] == p[j];
  }

  lemma BoundedAcyclic(g: Graph, names: seq<string>, depth: nat)
    requires Bounded(g, names, depth)
    ensures !LeadsIntoCycle(g, names)
  {
    if LeadsIntoCycle(g, names) {
      var c :| IsCycle(g, c) && LeadsTo(g, names, c[0]);
      var p :| IsWalk(g, p) && p[0] in names && p[|p| - 1] == c[0];
      CycleUnbounded(g, c, 0, 0);
      WalkIsShort(g, names, depth, p);
      CycleUnbounded(g, c, 0, depth - |p|);
    }
  }

  /** Names that lead into no cycle are bounded by the number of keys. */
  lemma AcyclicBounded(g: Graph, names: seq<string>)
    requires !LeadsIntoCycle(g, names)
    ensures Bounded(g, names, |g|)
  {
    if !Bounded(g, names, |g|) {
      var p := LongWalk(g, names, |g|);
      KeysOnWalk(g, p);
      var i, j := TooLongRepeats(g, p);
      WalkRepeats(g, p, i, j);
      assert p[..i + 1][0] == p[0];
      assert LeadsTo(g, names, p[i..j][0]);
    }
  }
}
