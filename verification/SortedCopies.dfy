/** Sorting in place, and comparing two lists through sorted copies, as
    equalInt64Sets and equalStringSets do (internal/receipt/verify.go).
    Strings are tokens numbered in string order. */
module SortedCopies {

  predicate Sorted(s: seq<int>) { forall i, j | 0 <= i < j < |s| :: s[i] <= s[j] }

  predicate Increasing(s: seq<int>) { forall i, j | 0 <= i < j < |s| :: s[i] < s[j] }

  /** x put in its place at the end of a sorted list. */
  function Insert(s: seq<int>, x: int): (r: seq<int>)
    ensures |r| == |s| + 1
    decreases |s|
  {
    if s == [] || s[|s| - 1] <= x then s + [x] else Insert(s[..|s| - 1], x) + [s[|s| - 1]]
  }

  function SortedOf(s: seq<int>): (r: seq<int>)
    ensures |r| == |s|
    decreases |s|
  {
    if s == [] then [] else Insert(SortedOf(s[..|s| - 1]), s[|s| - 1])
  }

  lemma {:induction false} InsertIsSorted(s: seq<int>, x: int)
    requires Sorted(s)
    ensures Sorted(Insert(s, x)) && multiset(Insert(s, x)) == multiset(s) + multiset{x}
    decreases |s|
  {
    if s != [] {
      var n := |s| - 1;
      assert s == s[..n] + [s[n]];
      if s[n] > x {
        InsertIsSorted(s[..n], x);
        var t := Insert(s[..n], x);
        forall i | 0 <= i < |t|
          ensures t[i] <= s[n]
        {
          assert t[i] in multiset(t);
        }
        assert Insert(s, x) == t + [s[n]];
      }
    }
  }

  lemma {:induction false} SortingSorts(s: seq<int>)
    ensures Sorted(SortedOf(s)) && multiset(SortedOf(s)) == multiset(s)
    decreases |s|
  {
    if s != [] {
      var n := |s| - 1;
      assert s == s[..n] + [s[n]];
      SortingSorts(s[..n]);
      InsertIsSorted(SortedOf(s[..n]), s[n]);
    }
  }

  lemma HeadIsLeast(s: seq<int>, x: int)
    requires Sorted(s) && x in multiset(s)
    ensures s != [] && s[0] <= x
  {
    assert x in s;
  }

  /** A sorted list is determined by what is in it. */
  lemma {:induction false} SortedIsUnique(a: seq<int>, b: seq<int>)
    requires Sorted(a) && Sorted(b) && multiset(a) == multiset(b)
    ensures a == b
    decreases |a|
  {
    if a == [] {
      assert |multiset(b)| == |b|;
    } else {
      assert a[0] in multiset(a) && |multiset(a)| == |a|;
      HeadIsLeast(b, a[0]);
      assert b[0] in multiset(b);
      HeadIsLeast(a, b[0]);
      TailsAgree(a, b);
      SortedIsUnique(a[1..], b[1..]);
      assert a == [a[0]] + a[1..] && b == [b[0]] + b[1..];
    }
  }

  lemma TailsAgree(a: seq<int>, b: seq<int>)
    requires a != [] && b != [] && a[0] == b[0] && multiset(a) == multiset(b)
    ensures multiset(a[1..]) == multiset(b[1..])
  {
    assert a == [a[0]] + a[1..] && b == [b[0]] + b[1..];
    assert multiset(a[1..]) == multiset(a) - multiset{a[0]};
    assert multiset(b[1..]) == multiset(b) - multiset{b[0]};
  }

  lemma SinksFurther(was: seq<int>, x: int, j: nat)
    requires 0 < j <= |was| && was[j - 1] > x
    ensures Insert(was[..j], x) + was[j..] == Insert(was[..j - 1], x) + was[j - 1..]
  {
    assert was[..j][..j - 1] == was[..j - 1];
    assert was[j - 1..] == [was[j - 1]] + was[j..];
  }

  /** The array while its element n is on its way down to place j: what was
      between them stands one place further up. */
  function Opened(was: seq<int>, j: nat, n: nat): (r: seq<int>)
    requires j <= n < |was|
    ensures |r| == |was|
  {
    was[..j + 1] + was[j..n] + was[n + 1..]
  }

  lemma OpensFurther(was: seq<int>, j: nat, n: nat)
    requires 0 < j <= n < |was|
    ensures Opened(was, j, n)[j - 1] == was[j - 1]
    ensures Opened(was, j, n)[j := was[j - 1]] == Opened(was, j - 1, n)
  {
  }

  lemma FillsOpening(was: seq<int>, j: nat, n: nat, x: int)
    requires j <= n < |was|
    ensures var r := Opened(was, j, n)[j := x];
            r[..n + 1] == was[..j] + [x] + was[j..n] && r[n + 1..] == was[n + 1..]
  {
  }

  /** One step of the sort: the element after a sorted prefix moves into it. */
  method Sink(a: array<int>, n: nat)
    requires n < a.Length
    modifies a
    ensures a[..n + 1] == Insert(old(a[..n]), old(a[n]))
    ensures a[n + 1..] == old(a[n + 1..])
  {
    var x, j := a[n], n;
    ghost var was := a[..];
    ghost var prefix := was[..n];
    assert was == Opened(was, n, n) && prefix[n..] == [] && prefix[..n] == prefix;
    while j > 0 && a[j - 1] > x
      invariant 0 <= j <= n
      invariant a[..] == Opened(was, j, n)
      invariant Insert(prefix, x) == Insert(prefix[..j], x) + prefix[j..]
    {
      OpensFurther(was, j, n);
      SinksFurther(prefix, x, j);
      a[j] := a[j - 1];
      j := j - 1;
    }
    FillsOpening(was, j, n, x);
    assert j > 0 ==> a[..][j - 1] == prefix[j - 1];
    a[j] := x;
    assert a[..] == Opened(was, j, n)[j := x];
    assert prefix[..j] == was[..j] && prefix[j..] == was[j..n];
  }

  lemma SortsFurther(was: seq<int>, n: nat)
    requires n < |was|
    ensures SortedOf(was[..n + 1]) == Insert(SortedOf(was[..n]), was[n])
    ensures was[n..][0] == was[n] && was[n..][1..] == was[n + 1..]
  {
    assert was[..n + 1][..n] == was[..n];
  }

  method Sort(a: array<int>)
    modifies a
    ensures a[..] == SortedOf(old(a[..]))
  {
    ghost var was := a[..];
    var n := 0;
    while n < a.Length
      invariant 0 <= n <= a.Length == |was|
      invariant a[..n] == SortedOf(was[..n]) && a[n..] == was[n..]
    {
      SortsFurther(was, n);
      assert a[n] == a[n..][0] && a[n + 1..] == a[n..][1..];
      Sink(a, n);
      n := n + 1;
    }
    assert a[..] == a[..n] && was[..n] == was;
  }

  /** A sorted copy of a list. */
  method SortedCopy(s: seq<int>) returns (r: array<int>)
    ensures fresh(r) && r[..] == SortedOf(s)
  {
    r := new int[|s|](i requires 0 <= i < |s| => s[i]);
    assert r[..] == s;
    Sort(r);
  }

  /** equalInt64Sets and equalStringSets: the comparison of the sorted copies
      is exactly equality of the lists up to order, repetitions counted. */
  method EqualSets(a: seq<int>, b: seq<int>) returns (equal: bool)
    ensures equal <==> multiset(a) == multiset(b)
  {
    SortingSorts(a);
    SortingSorts(b);
    if |a| != |b| {
      assert |multiset(a)| == |a| && |multiset(b)| == |b|;
      return false;
    }
    var ac := SortedCopy(a);
    var bc := SortedCopy(b);
    for i := 0 to ac.Length
      invariant ac[..i] == bc[..i]
      invariant ac[..] == SortedOf(a) && bc[..] == SortedOf(b)
    {
      if ac[i] != bc[i] {
        assert SortedOf(a)[i] != SortedOf(b)[i];
        if multiset(a) == multiset(b) {
          SortedIsUnique(SortedOf(a), SortedOf(b));
        }
        return false;
      }
    }
    assert ac[..] == ac[..ac.Length] && bc[..] == bc[..ac.Length];
    return true;
  }

  /** Distinct elements, all of them, in order: only one list is that. */
  lemma IncreasingIsUnique(a: seq<int>, b: seq<int>)
    requires Increasing(a) && Increasing(b)
    requires forall x :: x in a <==> x in b
    ensures a == b
  {
    DistinctCounts(a);
    DistinctCounts(b);
    forall x
      ensures multiset(a)[x] == multiset(b)[x]
    {
      assert x in multiset(a) <==> x in a;
      assert x in multiset(b) <==> x in b;
    }
    SortedIsUnique(a, b);
  }

  ghost predicate Distinct(s: seq<int>) { forall i, j | 0 <= i < j < |s| :: s[i] != s[j] }

  lemma {:induction false} DistinctCounts(s: seq<int>)
    requires Distinct(s)
    ensures forall x :: multiset(s)[x] <= 1
    decreases |s|
  {
    if s != [] {
      var n := |s| - 1;
      assert s == s[..n] + [s[n]];
      DistinctCounts(s[..n]);
      assert s[n] !in s[..n];
      assert s[n] !in multiset(s[..n]);
    }
  }

  lemma {:induction false} SingleCountsAreDistinct(s: seq<int>)
    requires forall x :: multiset(s)[x] <= 1
    ensures Distinct(s)
    decreases |s|
  {
    if s != [] {
      var n := |s| - 1;
      assert s == s[..n] + [s[n]];
      assert forall x :: multiset(s[..n])[x] <= multiset(s)[x];
      SingleCountsAreDistinct(s[..n]);
      assert s[n] !in multiset(s[..n]);
      assert s[n] !in s[..n];
    }
  }

  /** A list is a permutation of distinct elements exactly when it repeats
      none of them and has the same elements. */
  lemma PermutationOfDistinct(a: seq<int>, b: seq<int>)
    requires Distinct(b)
    ensures multiset(a) == multiset(b) <==> Distinct(a) && (forall x :: x in a <==> x in b)
  {
    DistinctCounts(b);
    if multiset(a) == multiset(b) {
      SingleCountsAreDistinct(a);
      forall x
        ensures x in a <==> x in b
      {
        assert x in multiset(a) <==> x in a;
        assert x in multiset(b) <==> x in b;
      }
    } else if Distinct(a) && (forall x :: x in a <==> x in b) {
      DistinctCounts(a);
      forall x
        ensures multiset(a)[x] == multiset(b)[x]
      {
        assert x in multiset(a) <==> x in a;
        assert x in multiset(b) <==> x in b;
      }
      assert false;
    }
  }
}
