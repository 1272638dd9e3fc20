/** The rolling restart budget: which restarts are remembered, and how often one can be granted. */
module Restarts {
  import opened Numbers

  /** Instants in the order they were recorded. */
  predicate Chronological(times: seq<real>) {
    forall i, j :: 0 <= i < j < |times| ==> times[i] <= times[j]
  }

  /** `max` restarts and the one after them never fall within one window. */
  predicate Spaced(granted: seq<real>, window: real, max: nat) {
    forall k :: 0 <= k && k + max < |granted| ==> granted[k + max] - granted[k] > window
  }

  /**
   * Of all restarts ever granted to a replica, `times` are the ones still remembered at `clock`;
   * the others are out of the window.
   */
  predicate Remembered(granted: seq<real>, times: seq<real>, clock: real, window: real, max: nat) {
    && |times| <= |granted| && times == granted[|granted| - |times|..]
    && |times| <= max
    && Chronological(granted)
    && (forall k :: 0 <= k < |granted| ==> granted[k] <= clock)
    && (forall k :: 0 <= k < |granted| - |times| ==> clock - granted[k] > window)
    && Spaced(granted, window, max)
  }

  /** Forgets what is out of the window, oldest first. */
  function Prune(times: seq<real>, now: real, window: real): (r: seq<real>)
    ensures |r| <= |times| && r == times[|times| - |r|..]
    ensures forall k :: 0 <= k < |times| - |r| ==> now - times[k] > window
    ensures r != [] ==> now - r[0] <= window
  {
    if times != [] && now - times[0] > window then
      var r := Prune(times[1..], now, window);
      assert forall k :: 0 < k < |times| - |r| ==> times[k] == times[1..][k - 1];
      r
    else times
  }

  /** Time passes: what was out of the window stays out, and pruning forgets nothing else. */
  lemma {:induction false} PruneRemembers(
    granted: seq<real>, times: seq<real>, clock: real, now: real, window: real, max: nat)
    requires Remembered(granted, times, clock, window, max) && clock <= now
    ensures Remembered(granted, Prune(times, now, window), now, window, max)
  {
    hide Prune, Spaced;
    var r := Prune(times, now, window);
    assert r == granted[|granted| - |r|..];
    forall k | 0 <= k < |granted| - |r|
      ensures now - granted[k] > window
    {
      var first := |granted| - |times|;
      if k >= first {
        assert granted[k] == times[k - first];
      }
    }
  }

  /** A restart granted while fewer than `max` are remembered keeps them spaced. */
  lemma {:induction false} GrantRemembers(granted: seq<real>, times: seq<real>, now: real, window: real, max: nat)
    requires Remembered(granted, times, now, window, max) && |times| < max
    ensures Remembered(granted + [now], times + [now], now, window, max)
  {
    var all := granted + [now];
    var kept := times + [now];
    assert kept == all[|all| - |kept|..];
    forall k | 0 <= k && k + max < |all|
      ensures all[k + max] - all[k] > window
    {
      if k + max == |granted| {
        assert k < |granted| - |times|;
      }
    }
  }

  lemma {:induction false} NothingRemembered(clock: real, window: real, max: nat)
    ensures Remembered([], [], clock, window, max)
  {
  }

  lemma {:induction false} LaterRemembers(
    granted: seq<real>, times: seq<real>, clock: real, now: real, window: real, max: nat)
    requires Remembered(granted, times, clock, window, max) && clock <= now
    ensures Remembered(granted, times, now, window, max)
  {
  }

  /** The restarts granted within `[from, from + window]`. */
  ghost function GrantedWithin(granted: seq<real>, from: real, window: real): set<int> {
    set k | 0 <= k < |granted| && from <= granted[k] <= from + window
  }

  /** Positions from `lo` on, `n` of them. */
  ghost function Positions(lo: int, n: nat): (r: set<int>)
    ensures forall k :: k in r <==> lo <= k < lo + n
    ensures |r| == n
  {
    if n == 0 then {} else Positions(lo, n - 1) + {lo + n - 1}
  }

  /** Position of the first instant not before `from`. */
  function FirstSince(times: seq<real>, from: real): (lo: nat)
    ensures lo <= |times|
    ensures forall k :: 0 <= k < lo ==> times[k] < from
    ensures lo < |times| ==> from <= times[lo]
  {
    if times == [] || from <= times[0] then 0
    else
      var lo := FirstSince(times[1..], from);
      assert forall k :: 0 < k < 1 + lo ==> times[k] == times[1..][k - 1];
      1 + lo
  }

  /** Every closed interval as long as the window, wherever it lies, holds at most `max` grants. */
  lemma {:induction false} AtMostMaxPerWindow(granted: seq<real>, from: real, window: real, max: nat)
    requires Chronological(granted) && Spaced(granted, window, max)
    ensures |GrantedWithin(granted, from, window)| <= max
  {
    var s := GrantedWithin(granted, from, window);
    var lo := FirstSince(granted, from);
    forall k | k in s
      ensures lo <= k < lo + max
    {
      if lo + max < |granted| {
        assert granted[lo + max] - granted[lo] > window;
      }
    }
    SubsetSize(s, Positions(lo, max));
  }

  /** After pruning, what is remembered is exactly what was granted within the window ending now. */
  lemma {:induction false} RememberedIsWindow(granted: seq<real>, times: seq<real>, now: real, window: real, max: nat)
    requires Remembered(granted, times, now, window, max) && (times != [] ==> now - times[0] <= window)
    ensures |GrantedWithin(granted, now - window, window)| == |times|
  {
    hide Spaced, Positions;
    var lo := |granted| - |times|;
    if times != [] {
      assert granted[lo] == times[0];
    }
    assert forall k :: lo < k < |granted| ==> granted[lo] <= granted[k];
    assert GrantedWithin(granted, now - window, window) == Positions(lo, |times|);
  }
}
