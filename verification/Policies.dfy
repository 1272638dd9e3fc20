/** Least-inflight routing with round-robin among ties. */
module Policies {
  import opened Sequences

  predicate LeastAt(loads: seq<int>, i: nat) {
    i < |loads| && forall j :: 0 <= j < |loads| ==> loads[i] <= loads[j]
  }

  /** Positions below `n` that tie for the least load, ascending. */
  function TiesBelow(loads: seq<int>, n: nat): (r: seq<nat>)
    requires n <= |loads|
    ensures forall k :: 0 <= k < |r| ==> r[k] < n && LeastAt(loads, r[k])
    ensures forall k, h :: 0 <= k < h < |r| ==> r[k] < r[h]
  {
    if n == 0 then []
    else TiesBelow(loads, n - 1) + if LeastAt(loads, n - 1) then [n - 1] else []
  }

  lemma {:induction false} TiesComplete(loads: seq<int>, n: nat, i: nat) returns (k: nat)
    requires i < n <= |loads| && LeastAt(loads, i)
    ensures k < |TiesBelow(loads, n)| && TiesBelow(loads, n)[k] == i
  {
    if i == n - 1 {
      k := |TiesBelow(loads, n - 1)|;
    } else {
      k := TiesComplete(loads, n - 1, i);
    }
  }

  lemma {:induction false} LeastExists(loads: seq<int>) returns (i: nat)
    requires loads != []
    ensures LeastAt(loads, i)
  {
    if |loads| == 1 {
      i := 0;
    } else {
      var k := LeastExists(loads[1..]);
      i := if loads[0] <= loads[1 + k] then 0 else 1 + k;
      forall j | 0 <= j < |loads|
        ensures loads[i] <= loads[j]
      {
        assert j > 0 ==> loads[1..][k] <= loads[1..][j - 1];
      }
    }
  }

  lemma {:induction false} SomeTie(loads: seq<int>)
    requires loads != []
    ensures TiesBelow(loads, |loads|) != []
  {
    var i := LeastExists(loads);
    var k := TiesComplete(loads, |loads|, i);
  }

  function Ties(loads: seq<int>): (r: seq<nat>)
    requires loads != []
    ensures r != []
    ensures forall k :: 0 <= k < |r| ==> LeastAt(loads, r[k])
    ensures forall k, h :: 0 <= k < h < |r| ==> r[k] < r[h]
  {
    SomeTie(loads);
    TiesBelow(loads, |loads|)
  }

  /** The position `select` picks when its counter stands at `tick`. */
  function Pick(loads: seq<int>, tick: nat): (i: nat)
    requires loads != []
    ensures LeastAt(loads, i)
  {
    var ties := Ties(loads);
    ties[tick % |ties|]
  }

  /** The counter advances only when there was a tie to break. */
  function NextTick(loads: seq<int>, tick: nat): nat
    requires loads != []
  {
    if |Ties(loads)| == 1 then tick else tick + 1
  }

  lemma {:induction false} ModStep(t: nat, k: nat)
    requires k >= 1
    ensures (t + 1) % k == if t % k == k - 1 then 0 else t % k + 1
  {
    var q := t / k;
    assert t == q * k + t % k;
    if t % k == k - 1 {
      assert t + 1 == (q + 1) * k;
      ModUnique(t + 1, q + 1, 0, k);
    } else {
      ModUnique(t + 1, q, t % k + 1, k);
    }
  }

  lemma {:induction false} ModUnique(x: nat, q: nat, r: nat, k: nat)
    requires k >= 1 && r < k && x == q * k + r
    ensures x % k == r
  {
    var d := x / k - q;
    assert d * k == r - x % k;
    assert d >= 1 ==> d * k >= k;
    assert d <= -1 ==> d * k <= -1 * k;
  }

  /** `k` steps on from residue `r`, the counter's residue has moved by that many positions, cyclically. */
  lemma {:induction false} ModWalk(t: nat, k: nat, i: nat)
    requires k >= 1 && i < k
    ensures (t + i) % k == if t % k + i < k then t % k + i else t % k + i - k
  {
    if i > 0 {
      ModWalk(t, k, i - 1);
      ModStep(t + i - 1, k);
    }
  }

  /**
   * Round-robin among ties: while the loads stand, any replica tied for least loaded is picked
   * within as many selections as there are ties, ...
   */
  lemma {:induction false} TiesTakeTurns(loads: seq<int>, tick: nat, j: nat) returns (i: nat)
    requires loads != [] && LeastAt(loads, j)
    ensures i < |Ties(loads)| && Pick(loads, tick + i) == j
  {
    var k := |Ties(loads)|;
    var p := TiesComplete(loads, |loads|, j);
    var r := tick % k;
    i := if p >= r then p - r else p + k - r;
    ModWalk(tick, k, i);
  }

  /** ... and only once in that many. */
  lemma {:induction false} NoSecondTurn(loads: seq<int>, tick: nat, i: nat, h: nat)
    requires loads != [] && i < h < |Ties(loads)|
    ensures Pick(loads, tick + i) != Pick(loads, tick + h)
  {
    var ties := Ties(loads);
    ModWalk(tick, |ties|, i);
    ModWalk(tick, |ties|, h);
    var p, q := (tick + i) % |ties|, (tick + h) % |ties|;
    assert p < q || q < p;
  }

  // ------------------------------------------------------------------ selections in a row

  /** What `select` picks `n` times in a row while the loads stand, each time with the counter it left. */
  function Selections(loads: seq<int>, tick: nat, n: nat): (r: seq<nat>)
    requires loads != []
    ensures |r| == n
    ensures forall i :: 0 <= i < n ==> LeastAt(loads, r[i])
    decreases n
  {
    if n == 0 then [] else [Pick(loads, tick)] + Selections(loads, NextTick(loads, tick), n - 1)
  }

  lemma {:induction false} OneMoreSelection(loads: seq<int>, tick: nat, n: nat)
    requires loads != []
    ensures Selections(loads, tick, 0) == []
    ensures n >= 1 ==>
      Selections(loads, tick, n) == [Pick(loads, tick)] + Selections(loads, NextTick(loads, tick), n - 1)
  {
  }

  /** The replicas with the fewest requests. */
  function LeastOnes(loads: seq<int>): set<nat> {
    set i | 0 <= i < |loads| && LeastAt(loads, i)
  }

  lemma {:induction false} TiesAreLeast(loads: seq<int>)
    requires loads != []
    ensures |Ties(loads)| == |LeastOnes(loads)| >= 1
  {
    var ties := Ties(loads);
    forall i | LeastAt(loads, i)
      ensures i in ties
    {
      var k := TiesComplete(loads, |loads|, i);
    }
    assert forall i :: i in ties ==> LeastAt(loads, i);
    assert LeastOnes(loads) == Elements(ties);
    DistinctSize(ties);
    assert |ties| >= 1;
  }

  function Elements(s: seq<nat>): (r: set<nat>)
    ensures forall i :: i in r <==> i in s
  {
    if s == [] then {}
    else
      assert s == [s[0]] + s[1..];
      {s[0]} + Elements(s[1..])
  }

  lemma {:induction false} DistinctSize(s: seq<nat>)
    requires Distinct(s)
    ensures |Elements(s)| == |s|
  {
    if s != [] {
      assert s[0] !in s[1..];
      DistinctSize(s[1..]);
    }
  }

  /** With one least-loaded replica the counter stands; with several, each selection moves it on by one. */
  lemma {:induction false} CounterMoves(loads: seq<int>, tick: nat)
    requires loads != []
    ensures NextTick(loads, tick) == if |LeastOnes(loads)| == 1 then tick else tick + 1
  {
    TiesAreLeast(loads);
  }

  lemma {:induction false} SelectionAt(loads: seq<int>, tick: nat, n: nat, i: nat)
    requires loads != [] && i < n && |Ties(loads)| > 1
    ensures Selections(loads, tick, n)[i] == Pick(loads, tick + i)
    decreases i
  {
    hide Pick, Ties, LeastAt;
    if i > 0 {
      SelectionAt(loads, NextTick(loads, tick), n - 1, i - 1);
    }
  }

  /**
   * Round-robin among ties: while the loads stand, as many selections in a row as there are
   * least-loaded replicas pick each of them, and none twice.
   */
  lemma {:induction false} EveryTieOnce(loads: seq<int>, tick: nat)
    requires loads != []
    ensures var r := Selections(loads, tick, |LeastOnes(loads)|);
            && (forall j :: j in r <==> j in LeastOnes(loads))
            && (forall i, h :: 0 <= i < h < |r| ==> r[i] != r[h])
  {
    TiesAreLeast(loads);
    var k := |Ties(loads)|;
    var r := Selections(loads, tick, k);
    forall j | LeastAt(loads, j)
      ensures j in r
    {
      var i := TiesTakeTurns(loads, tick, j);
      if k > 1 {
        SelectionAt(loads, tick, k, i);
      }
      assert r[i] == j;
    }
    forall i, h | 0 <= i < h < |r|
      ensures r[i] != r[h]
    {
      NoSecondTurn(loads, tick, i, h);
      SelectionAt(loads, tick, k, i);
      SelectionAt(loads, tick, k, h);
    }
  }
}
