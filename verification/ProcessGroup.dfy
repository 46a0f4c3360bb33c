/** Which group each program belongs to, and how two such assignments differ (config/process_group.go). */
module ProcessGroup {
  import opened Util

  /** Program name to group name. */
  type Groups = map<string, string>

  function Members(m: Groups, group: string): set<string> {
    set p | p in m && m[p] == group
  }

  function Added(m: Groups, other: Groups): set<string> {
    m.Values - other.Values
  }

  /** The groups that both have, with different members. */
  function Changed(m: Groups, other: Groups): set<string> {
    set g | g in m.Values && g in other.Values && Members(m, g) != Members(other, g)
  }

  /** a lists the elements of s, each once and in any order. */
  predicate Lists(a: seq<string>, s: set<string>) {
    NoRepeats(a) && SetOf(a) == s
  }

  lemma ListsPush(a: seq<string>, s: set<string>, x: string)
    requires Lists(a, s) && x !in s
    ensures Lists(a + [x], s + {x})
  {
    assert forall i | 0 <= i < |a| :: a[i] in SetOf(a);
    assert SetOf(a + [x]) == SetOf(a) + {x};
  }

  lemma WithoutLists(a: seq<string>, s: set<string>, b: seq<string>, t: set<string>)
    requires Lists(a, s) && Lists(b, t)
    ensures Lists(Without(a, b), s - t)
  {
    WithoutMembers(a, b);
    forall x
      ensures x in Without(a, b) <==> x in s - t
    {
      assert x in a <==> x in SetOf(a);
      assert x in b <==> x in SetOf(b);
    }
  }

  /** The comparison of member lists, by length and inclusion, is equality of the member sets. */
  lemma SameMembers(a: seq<string>, s: set<string>, b: seq<string>, t: set<string>)
    requires Lists(a, s) && Lists(b, t)
    ensures LooksSame(a, b) <==> s == t
  {
    assert forall x :: x in a <==> x in SetOf(a);
    assert forall x :: x in b <==> x in SetOf(b);
    if LooksSame(a, b) {
      SameIfNoRepeats(a, b);
      forall x
        ensures x in s <==> x in t
      {
        assert x in a <==> x in multiset(a);
        assert x in b <==> x in multiset(b);
      }
    }
    if s == t {
      OnceEach(a);
      OnceEach(b);
    }
  }

  lemma {:induction false} OnceEach(a: seq<string>)
    requires NoRepeats(a)
    ensures |a| == |SetOf(a)|
    decreases |a|
  {
    if a != [] {
      var init := a[..|a| - 1];
      OnceEach(init);
      assert SetOf(a) == SetOf(init) + {a[|a| - 1]};
    }
  }

  class ProcessGroup {
    var processGroup: Groups

    constructor ()
      ensures processGroup == map[]
    {
      processGroup := map[];
    }

    method Clone() returns (newPg: ProcessGroup)
      ensures fresh(newPg) && newPg.processGroup == processGroup
    {
      newPg := new ProcessGroup();
      var unvisited := processGroup.Keys;
      while unvisited != {}
        invariant unvisited <= processGroup.Keys && fresh(newPg)
        invariant newPg.processGroup == processGroup - unvisited
        decreases unvisited
      {
        var k :| k in unvisited;
        unvisited := unvisited - {k};
        newPg.processGroup := newPg.processGroup[k := processGroup[k]];
      }
    }

    method Add(group: string, procName: string)
      modifies this
      ensures processGroup == old(processGroup)[procName := group]
    {
      processGroup := processGroup[procName := group];
    }

    method Remove(procName: string)
      modifies this
      ensures processGroup == old(processGroup) - {procName}
    {
      processGroup := processGroup - {procName};
    }

    /** A program without a group is put into the given one. */
    method GetGroup(procName: string, defGroup: string) returns (group: string)
      modifies this
      ensures processGroup == old(processGroup)[procName := group]
      ensures group == if procName in old(processGroup) then old(processGroup)[procName] else defGroup
    {
      if procName in processGroup {
        return processGroup[procName];
      }
      processGroup := processGroup[procName := defGroup];
      return defGroup;
    }

    /** First the set of the groups is collected, then it is listed; Go visits map keys in any order. */
    method GetAllGroup() returns (result: seq<string>)
      ensures Lists(result, processGroup.Values)
    {
      var groups: set<string> := {};
      var unvisited := processGroup.Keys;
      while unvisited != {}
        invariant unvisited <= processGroup.Keys
        invariant groups == set p | p in processGroup && p !in unvisited :: processGroup[p]
        decreases unvisited
      {
        var p :| p in unvisited;
        unvisited := unvisited - {p};
        groups := groups + {processGroup[p]};
      }
      result := [];
      ghost var listed: set<string> := {};
      while groups != {}
        invariant listed !! groups && listed + groups == processGroup.Values && Lists(result, listed)
        decreases groups
      {
        var g :| g in groups;
        ListsPush(result, listed, g);
        groups := groups - {g};
        result := result + [g];
        listed := listed + {g};
      }
    }

    method GetAllProcess(group: string) returns (result: seq<string>)
      ensures Lists(result, Members(processGroup, group))
    {
      result := [];
      var unvisited := processGroup.Keys;
      while unvisited != {}
        invariant unvisited <= processGroup.Keys
        invariant Lists(result, Members(processGroup, group) - unvisited)
        decreases unvisited
      {
        var p :| p in unvisited;
        ghost var listed := Members(processGroup, group) - unvisited;
        if processGroup[p] == group {
          ListsPush(result, listed, p);
          result := result + [p];
          assert Members(processGroup, group) - (unvisited - {p}) == listed + {p};
        } else {
          assert Members(processGroup, group) - (unvisited - {p}) == listed;
        }
        unvisited := unvisited - {p};
      }
    }

    /** Sub: what is new here, what has other members than there, and what is only there. */
    method Sub(other: ProcessGroup) returns (added: seq<string>, changed: seq<string>, removed: seq<string>)
      ensures Lists(added, Added(processGroup, other.processGroup))
      ensures Lists(changed, Changed(processGroup, other.processGroup))
      ensures Lists(removed, Added(other.processGroup, processGroup))
    {
      var thisGroup := GetAllGroup();
      var otherGroup := other.GetAllGroup();
      added := Util.Sub(thisGroup, otherGroup);
      WithoutLists(thisGroup, processGroup.Values, otherGroup, other.processGroup.Values);
      changed := [];
      removed := Util.Sub(otherGroup, thisGroup);
      WithoutLists(otherGroup, other.processGroup.Values, thisGroup, processGroup.Values);
      var i := 0;
      while i < |thisGroup|
        invariant 0 <= i <= |thisGroup|
        invariant Lists(changed, Changed(processGroup, other.processGroup) * SetOf(thisGroup[..i]))
      {
        changed := AddChanged(other, thisGroup, i, changed);
        i := i + 1;
      }
      assert thisGroup[..i] == thisGroup;
      assert Changed(processGroup, other.processGroup) * SetOf(thisGroup) == Changed(processGroup, other.processGroup);
    }

    method AddChanged(other: ProcessGroup, groups: seq<string>, i: nat, changed0: seq<string>) returns (changed: seq<string>)
      requires i < |groups| && Lists(groups, processGroup.Values)
      requires Lists(changed0, Changed(processGroup, other.processGroup) * SetOf(groups[..i]))
      ensures Lists(changed, Changed(processGroup, other.processGroup) * SetOf(groups[..i + 1]))
    {
      var group := groups[i];
      SetOfPush(groups, i);
      changed := changed0;
      var proc1 := GetAllProcess(group);
      var proc2 := other.GetAllProcess(group);
      SameMembers(proc1, Members(processGroup, group), proc2, Members(other.processGroup, group));
      var same := IsSameStringArray(proc1, proc2);
      ChangedGroup(processGroup, other.processGroup, group, proc2);
      ghost var seen := Changed(processGroup, other.processGroup) * SetOf(groups[..i]);
      if |proc2| > 0 && !same {
        ListsPush(changed, seen, group);
        changed := changed + [group];
        assert Changed(processGroup, other.processGroup) * SetOf(groups[..i + 1]) == seen + {group};
      } else {
        assert Changed(processGroup, other.processGroup) * SetOf(groups[..i + 1]) == seen;
      }
    }
  }

  lemma ChangedGroup(m: Groups, other: Groups, group: string, proc2: seq<string>)
    requires group in m.Values && Lists(proc2, Members(other, group))
    ensures group in Changed(m, other) <==> |proc2| > 0 && Members(m, group) != Members(other, group)
  {
    if |proc2| > 0 {
      assert proc2[0] in SetOf(proc2);
    }
    if group in other.Values {
      var p :| p in other && other[p] == group;
      assert p in SetOf(proc2);
    }
  }

  // ---------------------------------------------------------------- what the three lists tell

  /** Nothing is reported if and only if all programs are in the groups they were in. */
  lemma NothingReportedIff(m: Groups, other: Groups)
    ensures Added(m, other) == {} && Changed(m, other) == {} && Added(other, m) == {} <==> m == other
  {
    if Added(m, other) == {} && Changed(m, other) == {} && Added(other, m) == {} {
      forall p
        ensures p in m <==> p in other
        ensures p in m && p in other ==> m[p] == other[p]
      {
        Unreported(m, other, p);
        Unreported(other, m, p);
      }
    }
  }

  lemma Unreported(m: Groups, other: Groups, p: string)
    requires Added(m, other) == {} && (Changed(m, other) == {} || Changed(other, m) == {})
    ensures p in m ==> p in other && other[p] == m[p]
  {
    if p in m {
      var g := m[p];
      assert g in m.Values;
      assert g !in Added(m, other);
      assert g !in Changed(m, other) || g !in Changed(other, m);
      assert p in Members(m, g);
    }
  }

  /** In how many of the three lists a group is reported. */
  function Reports(m: Groups, other: Groups, g: string): nat {
    (if g in Added(m, other) then 1 else 0) + (if g in Changed(m, other) then 1 else 0) + (if g in Added(other, m) then 1 else 0)
  }

  /**
    A group of either side is in none of the three lists if both have it with the same members, and
    otherwise in exactly one; looking from the other side it is in as many.
   */
  lemma ReportedOnceIff(m: Groups, other: Groups, g: string)
    requires g in m.Values || g in other.Values
    ensures Reports(m, other, g) == if Members(m, g) == Members(other, g) then 0 else 1
    ensures Reports(other, m, g) == Reports(m, other, g)
  {
    assert g in m.Values <==> Members(m, g) != {} by {
      if p :| p in m && m[p] == g {
        assert p in Members(m, g);
      }
    }
    assert g in other.Values <==> Members(other, g) != {} by {
      if p :| p in other && other[p] == g {
        assert p in Members(other, g);
      }
    }
  }
}
