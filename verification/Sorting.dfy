/** Python's `sorted`: a stable sort by any order. */
module Sorting {
  ghost predicate TotalPreorder<T(!new)>(le: (T, T) -> bool) {
    && (forall a, b :: le(a, b) || le(b, a))
    && (forall a, b, c :: le(a, b) && le(b, c) ==> le(a, c))
  }

  predicate SortedBy<T>(s: seq<T>, le: (T, T) -> bool) {
    forall i, j :: 0 <= i < j < |s| ==> le(s[i], s[j])
  }

  /** Places `x` behind everything that does not have to come after it. */
  function Place<T>(s: seq<T>, x: T, le: (T, T) -> bool): (r: seq<T>)
    ensures |r| == |s| + 1
    ensures multiset(r) == multiset(s) + multiset{x}
  {
    if s == [] || !le(s[0], x) then [x] + s
    else
      assert s == [s[0]] + s[1..];
      [s[0]] + Place(s[1..], x, le)
  }

  function StableSort<T>(s: seq<T>, le: (T, T) -> bool): (r: seq<T>)
    ensures |r| == |s|
    ensures multiset(r) == multiset(s)
  {
    if s == [] then []
    else
      var last := |s| - 1;
      assert s == s[..last] + [s[last]];
      Place(StableSort(s[..last], le), s[last], le)
  }

  lemma {:induction false} PlaceSorted<T(!new)>(s: seq<T>, x: T, le: (T, T) -> bool)
    requires TotalPreorder(le) && SortedBy(s, le)
    ensures SortedBy(Place(s, x, le), le)
  {
    if s != [] && le(s[0], x) {
      var rest := Place(s[1..], x, le);
      PlaceSorted(s[1..], x, le);
      forall k | 0 <= k < |rest|
        ensures le(s[0], rest[k])
      {
        assert rest[k] in multiset(rest);
        assert rest[k] == x || rest[k] in s[1..];
      }
    } else if s != [] {
      assert forall k :: 0 <= k < |s| ==> le(x, s[k]) by {
        assert le(x, s[0]);
      }
    }
  }

  lemma {:induction false} StableSortSorted<T(!new)>(s: seq<T>, le: (T, T) -> bool)
    requires TotalPreorder(le)
    ensures SortedBy(StableSort(s, le), le)
  {
    if s != [] {
      StableSortSorted(s[..|s| - 1], le);
      PlaceSorted(StableSort(s[..|s| - 1], le), s[|s| - 1], le);
    }
  }

  lemma {:induction false} StableSortSame<T>(s: seq<T>, le: (T, T) -> bool)
    ensures forall x :: x in StableSort(s, le) <==> x in s
  {
    forall x
      ensures x in StableSort(s, le) <==> x in s
    {
      assert x in StableSort(s, le) <==> x in multiset(StableSort(s, le));
    }
  }

  /** The elements that rank the same as `a`, in order. */
  function Tied<T>(s: seq<T>, a: T, le: (T, T) -> bool): seq<T> {
    if s == [] then []
    else if le(s[0], a) && le(a, s[0]) then [s[0]] + Tied(s[1..], a, le)
    else Tied(s[1..], a, le)
  }

  lemma {:induction false} TiedConcat<T>(s: seq<T>, t: seq<T>, a: T, le: (T, T) -> bool)
    ensures Tied(s + t, a, le) == Tied(s, a, le) + Tied(t, a, le)
  {
    if s == [] {
      assert s + t == t;
    } else {
      assert (s + t)[1..] == s[1..] + t;
      TiedConcat(s[1..], t, a, le);
    }
  }

  lemma {:induction false} NoneTied<T(!new)>(s: seq<T>, x: T, a: T, le: (T, T) -> bool)
    requires TotalPreorder(le) && le(x, a) && le(a, x)
    requires forall k :: 0 <= k < |s| ==> !le(s[k], x)
    ensures Tied(s, a, le) == []
  {
    if s != [] {
      NoneTied(s[1..], x, a, le);
    }
  }

  lemma {:induction false} AllBehind<T(!new)>(s: seq<T>, x: T, le: (T, T) -> bool)
    requires TotalPreorder(le) && SortedBy(s, le) && (s != [] ==> !le(s[0], x))
    ensures forall k :: 0 <= k < |s| ==> !le(s[k], x)
  {
    forall k | 0 <= k < |s|
      ensures !le(s[k], x)
    {
      assert k > 0 ==> le(s[0], s[k]);
    }
  }

  lemma {:induction false} PlaceTied<T(!new)>(s: seq<T>, x: T, a: T, le: (T, T) -> bool)
    requires TotalPreorder(le) && SortedBy(s, le)
    ensures Tied(Place(s, x, le), a, le) == Tied(s, a, le) + Tied([x], a, le)
  {
    if s != [] && le(s[0], x) {
      PlaceTied(s[1..], x, a, le);
    } else {
      AllBehind(s, x, le);
      hide TotalPreorder, SortedBy;
      TiedConcat([x], s, a, le);
      if le(x, a) && le(a, x) {
        NoneTied(s, x, a, le);
      }
    }
  }

  /** Elements that rank the same keep their order. */
  lemma {:induction false} Stable<T(!new)>(s: seq<T>, a: T, le: (T, T) -> bool)
    requires TotalPreorder(le)
    ensures Tied(StableSort(s, le), a, le) == Tied(s, a, le)
  {
    if s != [] {
      var last := |s| - 1;
      Stable(s[..last], a, le);
      StableSortSorted(s[..last], le);
      PlaceTied(StableSort(s[..last], le), s[last], a, le);
      assert s == s[..last] + [s[last]];
      TiedConcat(s[..last], [s[last]], a, le);
    }
  }

  /** Python's `min`: the first element no other one comes before. */
  function First<T>(s: seq<T>, le: (T, T) -> bool): (r: T)
    requires s != []
    ensures r in s
  {
    var last := |s| - 1;
    if last == 0 then s[0]
    else
      var best := First(s[..last], le);
      if le(best, s[last]) then best else s[last]
  }

  lemma {:induction false} FirstIsLeast<T(!new)>(s: seq<T>, le: (T, T) -> bool)
    requires s != [] && TotalPreorder(le)
    ensures forall x :: x in s ==> le(First(s, le), x)
  {
    var last := |s| - 1;
    if last == 0 {
      assert le(s[0], s[0]);
    } else {
      FirstIsLeast(s[..last], le);
      assert s == s[..last] + [s[last]];
    }
  }

  /** ... and no earlier one is as good. */
  lemma {:induction false} FirstAt<T(!new)>(s: seq<T>, le: (T, T) -> bool) returns (i: nat)
    requires s != [] && TotalPreorder(le)
    ensures i < |s| && s[i] == First(s, le)
    ensures forall j :: 0 <= j < |s| ==> le(s[i], s[j])
    ensures forall j :: 0 <= j < i ==> !le(s[j], s[i])
  {
    var last := |s| - 1;
    if last == 0 {
      i := 0;
      assert le(s[0], s[0]);
    } else {
      i := FirstAt(s[..last], le);
      assert forall j :: 0 <= j < last ==> s[..last][j] == s[j];
      if !le(s[i], s[last]) {
        i := last;
      }
    }
  }
}
