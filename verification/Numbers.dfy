/** Arithmetic the components share. Products of reals have a name, so that proofs need not look inside. */
module Numbers {
  /** `max(0, x)`. */
  function AtLeastZero(x: int): int {
    if x > 0 then x else 0
  }

  function Larger(x: int, y: int): (r: int)
    ensures r >= x && r >= y && (r == x || r == y)
  {
    if x >= y then x else y
  }

  function Smaller(x: int, y: int): (r: int)
    ensures r <= x && r <= y && (r == x || r == y)
  {
    if x <= y then x else y
  }

  lemma {:induction false} SubsetSize<T>(s: set<T>, all: set<T>)
    requires s <= all
    ensures |s| <= |all|
  {
    assert all == s + (all - s);
  }

  function Scaled(x: real, y: real): (r: real)
    ensures x >= 0.0 && y >= 0.0 ==> r >= 0.0
  {
    x * y
  }

  lemma {:induction false} ScaleOrder(x: real, y: real, z: real)
    requires x >= 0.0 && y <= z
    ensures Scaled(x, y) <= Scaled(x, z)
  {
    assert x * (z - y) >= 0.0;
  }

  lemma {:induction false} ScaleUp(x: real, y: real, z: real)
    requires x <= y && z >= 0.0
    ensures Scaled(x, z) <= Scaled(y, z)
  {
    assert (y - x) * z >= 0.0;
  }

  lemma {:induction false} ScaleUpStrictly(x: real, y: real, z: real)
    requires x < y && z > 0.0
    ensures Scaled(x, z) < Scaled(y, z)
  {
    ScaledSum(x, y - x, z);
    ScaledPositive(y - x, z);
    hide Scaled;
    assert x + (y - x) == y;
  }

  lemma {:induction false} ScaledSum(x: real, d: real, z: real)
    ensures Scaled(x + d, z) == Scaled(x, z) + Scaled(d, z)
  {
  }

  lemma {:induction false} ScaledPositive(x: real, y: real)
    requires x > 0.0 && y > 0.0
    ensures Scaled(x, y) > 0.0
  {
  }

  lemma {:induction false} ScaledZero(y: real)
    ensures Scaled(0.0, y) == 0.0
  {
  }

  lemma {:induction false} ScaledQuotient(x: real, y: real)
    requires y != 0.0
    ensures Scaled(x / y, y) == x
  {
  }
}
