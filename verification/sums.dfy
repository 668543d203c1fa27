/** Sums of sequences of numbers. */
module Sums {
  function Sum(a: seq<int>): int {
    if a == [] then 0 else Sum(a[..|a| - 1]) + a[|a| - 1]
  }

  lemma {:induction false} SumUpdate(a: seq<int>, i: nat, x: int)
    requires i < |a|
    ensures Sum(a[i := x]) == Sum(a) - a[i] + x
  {
    var b := a[i := x];
    if i == |a| - 1 {
      assert b[..|b| - 1] == a[..|a| - 1];
    } else {
      assert b[..|b| - 1] == a[..|a| - 1][i := x];
      SumUpdate(a[..|a| - 1], i, x);
    }
  }

  lemma {:induction false} SumNonNegative(a: seq<int>, i: nat)
    requires i < |a| && forall k :: 0 <= k < |a| ==> a[k] >= 0
    ensures Sum(a) >= a[i] >= 0
  {
    var b := a[..|a| - 1];
    if i < |a| - 1 {
      SumNonNegative(b, i);
    } else if |b| > 0 {
      SumNonNegative(b, 0);
    }
  }

  lemma {:induction false} SumOfZeros(a: seq<int>)
    requires forall i :: 0 <= i < |a| ==> a[i] == 0
    ensures Sum(a) == 0
  {
    if a != [] { SumOfZeros(a[..|a| - 1]); }
  }
}
