/** What every part of the model shares. */
module Basics {

  datatype Option<+T> = None | Some(value: T)

  type byte = x: int | 0 <= x < 256

  function Max(a: nat, b: nat): nat { if a > b then a else b }

  function Min(a: nat, b: nat): nat { if a < b then a else b }

  /** The numbers below n. */
  function Upto(n: nat): (s: set<nat>)
    ensures |s| == n && forall d {:trigger d in s} :: d in s <==> 0 <= d < n
  {
    if n == 0 then {} else Upto(n - 1) + {n - 1}
  }

  lemma {:induction false} SubsetSize(a: set<nat>, b: set<nat>)
    requires a <= b
    ensures |a| <= |b|
  {
    assert b == a + (b - a);
  }
}
