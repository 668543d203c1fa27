/** The string hash of the hash tables. */
module PhtHash {
  const UINT32_RANGE: nat := 0x1_0000_0000
  const CAPACITY: nat := 4096

  /** A C char, which is signed on the platforms the program is built for. */
  type Char = c: int | -128 <= c < 128

  type Key = k: seq<Char> | 0 !in k

  /** The string stored at the start of a piece of memory, up to its terminating zero. */
  function Text(mem: seq<Char>): (k: Key)
    requires 0 in mem
  {
    if mem[0] == 0 then [] else [mem[0]] + Text(mem[1..])
  }

  function Power(b: nat, n: nat): nat { if n == 0 then 1 else b * Power(b, n - 1) }

  /** The characters as digits in base 33, first one most significant. */
  function Polynomial(k: seq<Char>): int {
    if k == [] then 0 else k[0] * Power(33, |k| - 1) + Polynomial(k[1..])
  }

  function Hash(k: Key): nat { Polynomial(k) % UINT32_RANGE }

  function Bucket(k: Key): (b: nat)
    ensures b < CAPACITY
  {
    Hash(k) % CAPACITY
  }

  /** The recursion of the hash: the empty string gives 0, and every further character
      multiplies by 33 and adds itself, as a signed number; the bucket is the hash modulo 4096. */
  lemma HashRecursion(k: Key, c: Char)
    requires c != 0
    ensures Hash([]) == 0 && Hash([-1]) == 0xFFFF_FFFF
    ensures Hash(k + [c]) == (33 * Hash(k) + c) % 0x1_0000_0000
    ensures Bucket(k) == Hash(k) % 4096
  {
    HashStep(k, c, Hash(k));
  }

  lemma {:induction false} PowerSum(b: nat, m: nat, n: nat)
    ensures Power(b, m + n) == Power(b, m) * Power(b, n)
  {
    if m > 0 {
      PowerSum(b, m - 1, n);
      assert b * (Power(b, m - 1) * Power(b, n)) == (b * Power(b, m - 1)) * Power(b, n);
    }
  }

  /** The polynomial of two strings put together. */
  lemma {:induction false} PolynomialOfConcat(k: seq<Char>, l: seq<Char>)
    ensures Polynomial(k + l) == Polynomial(k) * Power(33, |l|) + Polynomial(l)
  {
    if k == [] {
      assert k + l == l;
    } else {
      var rest := k[1..];
      assert (k + l)[1..] == rest + l;
      PolynomialOfConcat(rest, l);
      PowerSum(33, |k| - 1, |l|);
      Distribute(k[0], Power(33, |k| - 1), Power(33, |l|), Polynomial(rest));
    }
  }

  lemma Distribute(c: int, p: int, q: int, r: int)
    ensures c * (p * q) + r * q == (c * p + r) * q
  {
    assert c * (p * q) == (c * p) * q;
  }

  /** One step of the loop, in 32-bit arithmetic. */
  lemma HashStep(k: seq<Char>, c: Char, hash: nat)
    requires hash == Polynomial(k) % UINT32_RANGE
    ensures Polynomial(k + [c]) % UINT32_RANGE == (33 * hash + c) % UINT32_RANGE
  {
    PolynomialOfConcat(k, [c]);
    assert Polynomial([c]) == c && Power(33, 1) == 33;
    ModStep(Polynomial(k), c);
  }

  lemma ModStep(x: int, c: int)
    ensures (33 * x + c) % UINT32_RANGE == (33 * (x % UINT32_RANGE) + c) % UINT32_RANGE
  {
    var q, r := x / UINT32_RANGE, x % UINT32_RANGE;
    assert 33 * x + c == 33 * r + c + (33 * q) * UINT32_RANGE;
    ModAddMultiple(33 * r + c, 33 * q);
  }

  lemma ModAddMultiple(x: int, q: int)
    ensures (x + q * UINT32_RANGE) % UINT32_RANGE == x % UINT32_RANGE
  {
  }

  /** bernstein_hash: the loop wraps around at 2^32, and what it computes is the base-33
      polynomial of the string modulo 2^32. */
  method BernsteinHash(mem: seq<Char>) returns (hash: nat)
    requires 0 in mem
    ensures hash == Hash(Text(mem))
  {
    hash := 0;
    var i := 0;
    while true
      invariant i < |mem| && 0 !in mem[..i] && 0 in mem[i..]
      invariant hash == Polynomial(mem[..i]) % UINT32_RANGE
      decreases |mem| - i
    {
      var c := mem[i];
      if c == 0 { break; }
      HashStep(mem[..i], c, hash);
      assert mem[..i] + [c] == mem[..i + 1];
      hash := (33 * hash + c) % UINT32_RANGE;
      i := i + 1;
    }
    TextIsPrefix(mem, i);
  }

  lemma {:induction false} TextIsPrefix(mem: seq<Char>, n: nat)
    requires n < |mem| && mem[n] == 0 && 0 !in mem[..n]
    ensures 0 in mem && Text(mem) == mem[..n]
  {
    if n > 0 {
      assert mem[0] in mem[..n];
      assert mem[1..][..n - 1] == mem[1..n];
      assert forall c :: c in mem[1..n] ==> c in mem[..n];
      TextIsPrefix(mem[1..], n - 1);
      assert mem[..n] == [mem[0]] + mem[1..n];
    }
  }
}
