/** Sizes of finite sets, and the pigeonhole principle. */
module FiniteSets {
  /** The numbers below `n`. */
  function Below(n: nat): set<int> {
    if n == 0 then {} else Below(n - 1) + {n - 1}
  }

  lemma BelowSize(n: nat)
    ensures |Below(n)| == n
    ensures forall p: int :: p in Below(n) <==> 0 <= p < n
  {
  }

  lemma SubsetSize<T>(a: set<T>, b: set<T>)
    requires a <= b
    ensures |a| <= |b|
  {
    assert b == a + (b - a);
  }

  function Elements(q: seq<int>): set<int> { set x | x in q }

  /** More than `n` numbers below `n` cannot all be different. */
  lemma Pigeonhole(q: seq<int>, n: nat) returns (k: nat, l: nat)
    requires |q| > n && forall i :: 0 <= i < |q| ==> 0 <= q[i] < n
    ensures k < l < |q| && q[k] == q[l]
  {
    if forall i, j :: 0 <= i < j < |q| ==> q[i] != q[j] {
      ElementsOfDistinct(q);
      BelowSize(n);
      SubsetSize(Elements(q), Below(n));
      assert false;
    }
    k, l :| 0 <= k < l < |q| && q[k] == q[l];
  }

  lemma {:induction false} ElementsOfDistinct(q: seq<int>)
    requires forall i, j :: 0 <= i < j < |q| ==> q[i] != q[j]
    ensures |Elements(q)| == |q|
  {
    if q != [] {
      var h, x := q[..|q| - 1], q[|q| - 1];
      ElementsOfDistinct(h);
      assert q == h + [x] && x !in h;
      assert Elements(q) == Elements(h) + {x};
    }
  }
}
