/** String lists without order (util/util.go:33-67). */
module Util {

  predicate NoRepeats(a: seq<string>) {
    forall i, j | 0 <= i < j < |a| :: a[i] != a[j]
  }

  function SetOf(a: seq<string>): set<string> {
    set x | x in a
  }

  lemma SetOfPush(a: seq<string>, i: nat)
    requires i < |a|
    ensures SetOf(a[..i + 1]) == SetOf(a[..i]) + {a[i]} && a[i] in SetOf(a)
    ensures forall x :: x in a[..i + 1] <==> x in a[..i] || x == a[i]
    ensures NoRepeats(a) ==> a[i] !in a[..i] && a[i] !in SetOf(a[..i])
  {
    assert a[..i + 1] == a[..i] + [a[i]];
  }

  /** What Sub means: the elements of a that b lacks, in the order and number they have in a. */
  function Without(a: seq<string>, b: seq<string>): seq<string> {
    if a == [] then []
    else Without(a[..|a| - 1], b) + (if a[|a| - 1] in b then [] else [a[|a| - 1]])
  }

  lemma {:induction false} WithoutMembers(a: seq<string>, b: seq<string>)
    ensures forall s :: s in Without(a, b) <==> s in a && s !in b
    ensures (forall i, j | 0 <= i < j < |a| :: a[i] != a[j]) ==>
              forall i, j | 0 <= i < j < |Without(a, b)| :: Without(a, b)[i] != Without(a, b)[j]
    decreases |a|
  {
    if a != [] {
      WithoutMembers(a[..|a| - 1], b);
      assert a == a[..|a| - 1] + [a[|a| - 1]];
    }
  }

  /** Of two lists, one behind the other, the elements of the first come first; one element is kept if b lacks it. */
  lemma {:induction false} WithoutInOrder(a: seq<string>, more: seq<string>, b: seq<string>, x: string)
    ensures Without(a + more, b) == Without(a, b) + Without(more, b)
    ensures Without([x], b) == if x in b then [] else [x]
    decreases |more|
  {
    assert [x][..0] == [];
    if more == [] {
      assert a + more == a;
    } else {
      var n := |more| - 1;
      assert (a + more)[..|a + more| - 1] == a + more[..n];
      WithoutInOrder(a, more[..n], b, x);
    }
  }

  /** util.Sub, with the inner loop that looks through all of arr2. */
  method Sub(arr1: seq<string>, arr2: seq<string>) returns (result: seq<string>)
    ensures result == Without(arr1, arr2)
  {
    result := [];
    var i := 0;
    while i < |arr1|
      invariant 0 <= i <= |arr1| && result == Without(arr1[..i], arr2)
    {
      var exist := false;
      var j := 0;
      while j < |arr2|
        invariant 0 <= j <= |arr2| && (exist <==> arr1[i] in arr2[..j])
      {
        if arr1[i] == arr2[j] {
          exist := true;
        }
        j := j + 1;
      }
      assert arr2[..j] == arr2 && arr1[..i + 1][..i] == arr1[..i];
      if !exist {
        result := result + [arr1[i]];
      }
      i := i + 1;
    }
    assert arr1[..i] == arr1;
  }

  /** util.IsSameStringArray */
  method IsSameStringArray(arr1: seq<string>, arr2: seq<string>) returns (same: bool)
    ensures same <==> |arr1| == |arr2| && forall s | s in arr1 :: s in arr2
  {
    if |arr1| != |arr2| {
      return false;
    }
    var i := 0;
    while i < |arr1|
      invariant 0 <= i <= |arr1| && forall s | s in arr1[..i] :: s in arr2
    {
      var exist := false;
      var j := 0;
      while j < |arr2| && !exist
        invariant 0 <= j <= |arr2| && (exist <==> arr1[i] in arr2[..j])
      {
        if arr2[j] == arr1[i] {
          exist := true;
        }
        j := j + 1;
      }
      if !exist {
        assert arr2[..j] == arr2;
        return false;
      }
      i := i + 1;
    }
    assert arr1[..i] == arr1;
    return true;
  }

  /** As many different elements and all of them in b: by the pigeonhole principle a rearrangement of b. */
  lemma {:induction false} Pigeonhole(a: seq<string>, b: seq<string>)
    requires NoRepeats(a) && |a| == |b| && forall s | s in a :: s in b
    ensures multiset(a) == multiset(b)
    decreases |a|
  {
    if a != [] {
      assert a[0] in b;
      var k :| 0 <= k < |b| && b[k] == a[0];
      var rest := b[..k] + b[k + 1..];
      assert b == b[..k] + [b[k]] + b[k + 1..];
      assert a == [a[0]] + a[1..];
      forall s | s in a[1..]
        ensures s in rest
      {
        var j :| 0 <= j < |a| - 1 && a[1..][j] == s;
        assert a[j + 1] == s && s != a[0];
        assert s in b;
        var m :| 0 <= m < |b| && b[m] == s;
        assert m != k;
        assert s == if m < k then rest[m] else rest[m - 1];
      }
      Pigeonhole(a[1..], rest);
    }
  }

  /** The comparison made by IsSameStringArray. */
  predicate LooksSame(a: seq<string>, b: seq<string>) {
    |a| == |b| && forall s | s in a :: s in b
  }

  /**
    For lists of which one has no repetition the comparison decides exactly whether they have the
    same elements without regard to order, as its documentation promises for all lists.
   */
  lemma SameIfNoRepeats(a: seq<string>, b: seq<string>)
    requires NoRepeats(a)
    ensures LooksSame(a, b) <==> multiset(a) == multiset(b)
  {
    if LooksSame(a, b) {
      Pigeonhole(a, b);
    }
    if multiset(a) == multiset(b) {
      forall s | s in a
        ensures s in b
      {
        assert s in multiset(a);
      }
      assert |multiset(a)| == |a| && |multiset(b)| == |b|;
    }
  }

  /** Comparing a with any list tells whether the two are rearrangements of one another. */
  ghost predicate DecidesFor(a: seq<string>) {
    forall b :: LooksSame(a, b) <==> multiset(a) == multiset(b)
  }

  /** The comparison is right about a, whatever it is compared with, exactly when a has no repetition. */
  lemma DecidesIff(a: seq<string>)
    ensures DecidesFor(a) <==> NoRepeats(a)
  {
    if NoRepeats(a) {
      forall b
        ensures LooksSame(a, b) <==> multiset(a) == multiset(b)
      {
        SameIfNoRepeats(a, b);
      }
    } else {
      var i, j :| 0 <= i < j < |a| && a[i] == a[j];
      var other := Fresh(a);
      var b := a[i := other];
      assert b[j] == a[i];
      forall s | s in a
        ensures s in b
      {
        var k :| 0 <= k < |a| && a[k] == s;
        assert b[if k == i then j else k] == s;
      }
      assert b[i] == other;
      assert other in multiset(b) && other !in multiset(a);
      assert LooksSame(a, b);
    }
  }

  /** A string longer than every string of a. */
  function Fresh(a: seq<string>): (s: string)
    ensures s !in a
    ensures forall t | t in a :: |t| < |s|
  {
    if a == [] then "" + "x"
    else
      var r := Fresh(a[1..]);
      var s := if |a[0]| < |r| then r else a[0] + "x";
      s
  }
}
