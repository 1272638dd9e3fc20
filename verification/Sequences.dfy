/** Sequences of GPU ids: Python's list order, `sorted`, `remove` and list filters. */
module Sequences {
  predicate Increasing(s: seq<int>) {
    forall i, j :: 0 <= i < j < |s| ==> s[i] < s[j]
  }

  predicate Ordered(s: seq<int>) {
    forall i, j :: 0 <= i < j < |s| ==> s[i] <= s[j]
  }

  predicate Distinct<T(==)>(s: seq<T>) {
    forall i, j :: 0 <= i < j < |s| ==> s[i] != s[j]
  }

  predicate Within(s: seq<int>, ids: seq<int>) {
    forall x :: x in s ==> x in ids
  }

  predicate Disjoint(s: seq<int>, t: seq<int>) {
    forall x :: x in s ==> x !in t
  }

  /** Python's `<` on lists of integers. */
  predicate SeqLess(a: seq<int>, b: seq<int>) {
    if b == [] then false
    else if a == [] then true
    else a[0] < b[0] || (a[0] == b[0] && SeqLess(a[1..], b[1..]))
  }

  /** Python's `<` on lists of lists of integers. */
  predicate ListLess(a: seq<seq<int>>, b: seq<seq<int>>) {
    if b == [] then false
    else if a == [] then true
    else SeqLess(a[0], b[0]) || (a[0] == b[0] && ListLess(a[1..], b[1..]))
  }

  /** `[x for x in s if x not in gone]`. */
  function Without(s: seq<int>, gone: seq<int>): (r: seq<int>)
    ensures |r| <= |s|
    ensures forall x :: x in r <==> x in s && x !in gone
  {
    if s == [] then []
    else if s[0] in gone then Without(s[1..], gone)
    else [s[0]] + Without(s[1..], gone)
  }

  /** `s.remove(x)`: drops the first occurrence. */
  function Remove(s: seq<int>, x: int): (r: seq<int>)
    requires x in s
    ensures |r| == |s| - 1
  {
    if s[0] == x then s[1..] else [s[0]] + Remove(s[1..], x)
  }

  function Insert(x: int, s: seq<int>): (r: seq<int>)
    ensures |r| == |s| + 1
    ensures forall y :: y in r <==> y == x || y in s
  {
    if s == [] || x <= s[0] then [x] + s
    else [s[0]] + Insert(x, s[1..])
  }

  lemma {:induction false} InsertOrdered(x: int, s: seq<int>)
    requires Ordered(s)
    ensures Ordered(Insert(x, s))
  {
    if s != [] && s[0] < x {
      InsertOrdered(x, s[1..]);
      var tail := Insert(x, s[1..]);
      forall k | 0 <= k < |tail|
        ensures s[0] <= tail[k]
      {
        assert tail[k] in tail;
      }
    }
  }

  lemma {:induction false} InsertMultiset(x: int, s: seq<int>)
    ensures multiset(Insert(x, s)) == multiset(s) + multiset{x}
  {
    if s != [] && s[0] < x {
      InsertMultiset(x, s[1..]);
      assert s == [s[0]] + s[1..];
    }
  }

  /** `sorted(s)`. */
  function Sorted(s: seq<int>): (r: seq<int>)
    ensures |r| == |s|
    ensures forall y :: y in r <==> y in s
    ensures Ordered(r)
  {
    if s == [] then []
    else
      InsertOrdered(s[0], Sorted(s[1..]));
      Insert(s[0], Sorted(s[1..]))
  }

  lemma {:induction false} SortedMultiset(s: seq<int>)
    ensures multiset(Sorted(s)) == multiset(s)
  {
    if s != [] {
      SortedMultiset(s[1..]);
      InsertMultiset(s[0], Sorted(s[1..]));
      assert s == [s[0]] + s[1..];
    }
  }

  lemma {:induction false} SortedFixed(s: seq<int>)
    requires Ordered(s)
    ensures Sorted(s) == s
  {
    if s != [] {
      SortedFixed(s[1..]);
      assert s == [s[0]] + s[1..];
    }
  }

  lemma {:induction false} DistinctMultiplicity(s: seq<int>, x: int)
    requires Distinct(s)
    ensures multiset(s)[x] <= 1
  {
    if s != [] {
      assert s == [s[0]] + s[1..];
      DistinctMultiplicity(s[1..], x);
      assert s[0] !in s[1..];
    }
  }

  lemma {:induction false} RepeatedMultiplicity(s: seq<int>, i: nat, j: nat)
    requires i < j < |s| && s[i] == s[j]
    ensures multiset(s)[s[i]] >= 2
  {
    assert s == s[..j] + s[j..];
    assert s[i] in s[..j] by { assert s[..j][i] == s[i]; }
    assert s[j] in s[j..] by { assert s[j..][0] == s[j]; }
    assert multiset(s) == multiset(s[..j]) + multiset(s[j..]);
    assert multiset(s[..j])[s[i]] > 0 && multiset(s[j..])[s[i]] > 0;
  }

  lemma {:induction false} PermutationDistinct(s: seq<int>, t: seq<int>)
    requires multiset(s) == multiset(t) && Distinct(s)
    ensures Distinct(t)
  {
    forall i, j | 0 <= i < j < |t|
      ensures t[i] != t[j]
    {
      if t[i] == t[j] {
        RepeatedMultiplicity(t, i, j);
        DistinctMultiplicity(s, t[i]);
      }
    }
  }

  lemma {:induction false} SortedIncreasing(s: seq<int>)
    requires Distinct(s)
    ensures Increasing(Sorted(s))
  {
    SortedMultiset(s);
    PermutationDistinct(s, Sorted(s));
  }

  lemma {:induction false} RemoveDistinct(s: seq<int>, x: int)
    requires x in s && Distinct(s)
    ensures Distinct(Remove(s, x))
    ensures forall y :: y in Remove(s, x) <==> y in s && y != x
  {
    if s[0] == x {
    } else {
      var tail := s[1..];
      RemoveDistinct(tail, x);
      var rest := Remove(tail, x);
      forall k | 0 <= k < |rest|
        ensures s[0] != rest[k]
      {
        assert rest[k] in rest;
      }
      assert forall y :: y in s <==> y == s[0] || y in tail;
    }
  }
}
