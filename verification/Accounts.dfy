/**
 * The router's books, as values: what every replica object was charged and which replica every
 * outstanding lease points at. Replica objects are never forgotten, so a lease on a removed
 * replica still has an account to settle.
 */
module Accounts {
  datatype Books = Books(inflight: int, total: int, failures: int)

  // ------------------------------------------------------------------ sums and counts

  ghost function Sum<R>(m: map<R, int>): int {
    if m == map[] then 0
    else
      var k :| k in m;
      m[k] + Sum(m - {k})
  }

  lemma {:induction false} SumSplit<R>(m: map<R, int>, k: R)
    requires k in m
    ensures Sum(m) == m[k] + Sum(m - {k})
  {
    var j :| j in m && Sum(m) == m[j] + Sum(m - {j});
    if j != k {
      SumSplit(m - {j}, k);
      SumSplit(m - {k}, j);
      assert m - {j} - {k} == m - {k} - {j};
    }
  }

  lemma {:induction false} SumUpdate<R>(m: map<R, int>, k: R, v: int)
    ensures Sum(m[k := v]) == Sum(m) + v - if k in m then m[k] else 0
  {
    SumSplit(m[k := v], k);
    if k in m {
      SumSplit(m, k);
      assert m[k := v] - {k} == m - {k};
    } else {
      assert m[k := v] - {k} == m;
    }
  }

  ghost function Totals<R>(ledger: map<R, Books>): map<R, int> {
    map r | r in ledger :: ledger[r].total
  }

  ghost function Failures<R>(ledger: map<R, Books>): map<R, int> {
    map r | r in ledger :: ledger[r].failures
  }

  lemma {:induction false} LedgerUpdate<R>(ledger: map<R, Books>, r: R, b: Books)
    ensures var old' := if r in ledger then ledger[r] else Books(0, 0, 0);
            && Sum(Totals(ledger[r := b])) == Sum(Totals(ledger)) + b.total - old'.total
            && Sum(Failures(ledger[r := b])) == Sum(Failures(ledger)) + b.failures - old'.failures
  {
    SumUpdate(Totals(ledger), r, b.total);
    SumUpdate(Failures(ledger), r, b.failures);
    assert Totals(ledger[r := b]) == Totals(ledger)[r := b.total];
    assert Failures(ledger[r := b]) == Failures(ledger)[r := b.failures];
  }

  ghost function Holders<R, L>(leases: map<L, R>, r: R): set<L> {
    set l | l in leases && leases[l] == r
  }

  lemma {:induction false} HoldersUpdate<R, L>(leases: map<L, R>, l: L, to: R, r: R)
    ensures |Holders(leases[l := to], r)|
         == |Holders(leases, r)| + (if to == r then 1 else 0) - (if l in leases && leases[l] == r then 1 else 0)
  {
    var before := Holders(leases, r) - {l};
    assert Holders(leases[l := to], r) == if to == r then before + {l} else before;
    assert l in Holders(leases, r) <==> l in leases && leases[l] == r;
  }

  lemma {:induction false} HoldersRemove<R, L>(leases: map<L, R>, l: L, r: R)
    requires l in leases
    ensures |Holders(leases - {l}, r)| == |Holders(leases, r)| - (if leases[l] == r then 1 else 0)
  {
    assert Holders(leases - {l}, r) == Holders(leases, r) - {l};
    assert l in Holders(leases, r) <==> leases[l] == r;
  }

  // ------------------------------------------------------------------ the balance

  /**
   * In-flight counts equal the leases held; per-replica requests and failures add up to the
   * router's counters plus the reroutes; only finished requests can have failed.
   */
  ghost predicate Balanced<R, L>(ledger: map<R, Books>, leases: map<L, R>, requests: int, errors: int, reroutes: int) {
    && (forall l :: l in leases ==> leases[l] in ledger)
    && (forall r :: r in ledger ==> ledger[r].inflight == |Holders(leases, r)|)
    && Sum(Totals(ledger)) == requests + reroutes
    && Sum(Failures(ledger)) == errors + reroutes
    && 0 <= errors <= requests - |leases|
    && 0 <= reroutes
  }

  // ------------------------------------------------------------------ the operations on the ledger

  /** A new replica object, possibly under an id that is already taken. */
  ghost function Open<R>(ledger: map<R, Books>, r: R): map<R, Books> {
    ledger[r := Books(0, 0, 0)]
  }

  /** `acquire` past the semaphore: a lease is placed on `r`. */
  ghost function Place<R>(ledger: map<R, Books>, r: R): (after: map<R, Books>)
    requires r in ledger
    ensures after.Keys == ledger.Keys
    ensures forall q :: q in after && q != r ==> after[q] == ledger[q]
    ensures after[r] == Books(ledger[r].inflight + 1, ledger[r].total + 1, ledger[r].failures)
  {
    var b := ledger[r];
    ledger[r := Books(b.inflight + 1, b.total + 1, b.failures)]
  }

  /** The replica is charged a failure and gives up the slot. */
  ghost function Abandon<R>(ledger: map<R, Books>, r: R): map<R, Books>
    requires r in ledger
  {
    var b := ledger[r];
    ledger[r := Books(b.inflight - 1, b.total, b.failures + 1)]
  }

  /** `reroute`: `from` is abandoned and `to` takes the slot. */
  ghost function Move<R>(ledger: map<R, Books>, from: R, to: R): (after: map<R, Books>)
    requires from in ledger && to in ledger
    ensures after.Keys == ledger.Keys
    ensures forall q :: q in after && q != from && q != to ==> after[q] == ledger[q]
    ensures from != to ==>
      && after[from] == Books(ledger[from].inflight - 1, ledger[from].total, ledger[from].failures + 1)
      && after[to] == Books(ledger[to].inflight + 1, ledger[to].total + 1, ledger[to].failures)
  {
    Place(Abandon(ledger, from), to)
  }

  function Penalty(failed: bool): nat {
    if failed then 1 else 0
  }

  /** `release`: the slot is given up, charged as a failure or not. */
  ghost function Settle<R>(ledger: map<R, Books>, r: R, failed: bool): (after: map<R, Books>)
    requires r in ledger
    ensures after.Keys == ledger.Keys
    ensures forall q :: q in after && q != r ==> after[q] == ledger[q]
    ensures after[r] == Books(ledger[r].inflight - 1, ledger[r].total, ledger[r].failures + Penalty(failed))
  {
    var b := ledger[r];
    ledger[r := Books(b.inflight - 1, b.total, b.failures + Penalty(failed))]
  }

  /** The outstanding leases once `l` has ended. */
  ghost function Ended<R, L>(leases: map<L, R>, l: L): (r: map<L, R>)
    ensures r.Keys == leases.Keys - {l}
    ensures forall k :: k in r ==> k in leases && k != l && r[k] == leases[k]
  {
    leases - {l}
  }

  // ------------------------------------------------------------------ every operation keeps the balance

  lemma {:induction false} EmptyBalanced<R, L>(ledger: map<R, Books>, leases: map<L, R>)
    requires ledger == map[] && leases == map[]
    ensures Balanced(ledger, leases, 0, 0, 0)
  {
    assert Totals(ledger) == map[] && Failures(ledger) == map[];
  }

  lemma {:induction false} OpenKeepsBalance<R, L>(
    ledger: map<R, Books>, leases: map<L, R>, requests: int, errors: int, reroutes: int, r: R)
    requires Balanced(ledger, leases, requests, errors, reroutes) && r !in ledger
    ensures Balanced(Open(ledger, r), leases, requests, errors, reroutes)
  {
    LedgerUpdate(ledger, r, Books(0, 0, 0));
    assert Holders(leases, r) == {};
  }

  /** Charging one request to `r` and handing it lease `l` keep every in-flight count exact. */
  lemma {:induction false} PlaceKeepsCounts<R, L>(ledger: map<R, Books>, leases: map<L, R>, l: L, r: R, q: R)
    requires r in ledger && l !in leases && q in ledger
    requires ledger[q].inflight == |Holders(leases, q)|
    ensures Place(ledger, r)[q].inflight == |Holders(leases[l := r], q)|
  {
    HoldersUpdate(leases, l, r, q);
  }

  lemma {:induction false} OneMoreLease<R, L>(leases: map<L, R>, l: L, r: R)
    requires l !in leases
    ensures |leases[l := r]| == |leases| + 1
  {
  }

  lemma {:induction false} PlaceKeepsBalance<R, L>(
    ledger: map<R, Books>, leases: map<L, R>, requests: int, errors: int, reroutes: int, l: L, r: R)
    requires Balanced(ledger, leases, requests, errors, reroutes) && r in ledger && l !in leases
    ensures Balanced(Place(ledger, r), leases[l := r], requests + 1, errors, reroutes)
    ensures |leases[l := r]| == |leases| + 1
  {
    hide Sum, Totals, Failures, Holders;
    LedgerUpdate(ledger, r, Place(ledger, r)[r]);
    forall q | q in ledger
      ensures Place(ledger, r)[q].inflight == |Holders(leases[l := r], q)|
    {
      PlaceKeepsCounts(ledger, leases, l, r, q);
    }
    OneMoreLease(leases, l, r);
  }

  lemma {:induction false} MoveKeepsBalance<R, L>(
    ledger: map<R, Books>, leases: map<L, R>, requests: int, errors: int, reroutes: int, l: L, r: R)
    requires Balanced(ledger, leases, requests, errors, reroutes)
    requires l in leases && r in ledger && r != leases[l]
    ensures leases[l] in ledger && ledger[leases[l]].inflight >= 1
    ensures Balanced(Move(ledger, leases[l], r), leases[l := r], requests, errors, reroutes + 1)
    ensures |leases[l := r]| == |leases|
  {
    HeldIsPositive(ledger, leases, requests, errors, reroutes, l);
    MoveKeepsSums(ledger, leases[l], r);
    forall q | q in ledger
      ensures Move(ledger, leases[l], r)[q].inflight == |Holders(leases[l := r], q)|
    {
      HoldersUpdate(leases, l, r, q);
    }
    SameSize(leases, l, r);
  }

  lemma {:induction false} MoveKeepsSums<R>(ledger: map<R, Books>, from: R, to: R)
    requires from in ledger && to in ledger && from != to
    ensures Sum(Totals(Move(ledger, from, to))) == Sum(Totals(ledger)) + 1
    ensures Sum(Failures(Move(ledger, from, to))) == Sum(Failures(ledger)) + 1
  {
    var paid := Abandon(ledger, from);
    LedgerUpdate(ledger, from, paid[from]);
    LedgerUpdate(paid, to, Place(paid, to)[to]);
  }

  lemma {:induction false} SameSize<R, L>(leases: map<L, R>, l: L, r: R)
    requires l in leases
    ensures |leases[l := r]| == |leases|
  {
    assert leases[l := r].Keys == leases.Keys;
    assert |leases[l := r]| == |leases[l := r].Keys| && |leases| == |leases.Keys|;
  }

  /** A leased replica has a request in flight, so decrementing never meets the clamp at zero. */
  lemma {:induction false} HeldIsPositive<R, L>(
    ledger: map<R, Books>, leases: map<L, R>, requests: int, errors: int, reroutes: int, l: L)
    requires Balanced(ledger, leases, requests, errors, reroutes) && l in leases
    ensures leases[l] in ledger && ledger[leases[l]].inflight >= 1
  {
    assert l in Holders(leases, leases[l]);
  }

  lemma {:induction false} SettleKeepsBalance<R, L>(
    ledger: map<R, Books>, leases: map<L, R>, requests: int, errors: int, reroutes: int, l: L, failed: bool)
    requires Balanced(ledger, leases, requests, errors, reroutes) && l in leases
    ensures leases[l] in ledger && ledger[leases[l]].inflight >= 1
    ensures Balanced(Settle(ledger, leases[l], failed), Ended(leases, l), requests,
                     errors + Penalty(failed), reroutes)
    ensures |Ended(leases, l)| == |leases| - 1
  {
    HeldIsPositive(ledger, leases, requests, errors, reroutes, l);
    var from := leases[l];
    var after := Settle(ledger, from, failed);
    LedgerUpdate(ledger, from, after[from]);
    forall q | q in ledger
      ensures after[q].inflight == |Holders(Ended(leases, l), q)|
    {
      HoldersRemove(leases, l, q);
    }
    LeaseCount(leases, l);
  }

  lemma {:induction false} LeaseCount<R, L>(leases: map<L, R>, l: L)
    requires l in leases
    ensures |leases - {l}| == |leases| - 1
  {
    assert (leases - {l}).Keys == leases.Keys - {l};
    assert |leases - {l}| == |(leases - {l}).Keys| && |leases| == |leases.Keys|;
  }
}
