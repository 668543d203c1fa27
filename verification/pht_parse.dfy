/** The parser for the numbers given on the command line of the hash table tester. */
module PhtParse {
  import opened Wrappers
  import opened PhtHash

  const ZERO_CHAR := 0x30
  const NINE_CHAR := 0x39

  predicate Digits(k: seq<Char>) { forall i :: 0 <= i < |k| ==> ZERO_CHAR <= k[i] <= NINE_CHAR }

  /** The number that a string of digits denotes. */
  function Value(k: seq<Char>): (v: nat)
    requires Digits(k)
  {
    if k == [] then 0 else 10 * Value(k[..|k| - 1]) + (k[|k| - 1] - ZERO_CHAR)
  }

  /** The strings that parse_uint32_t takes. */
  predicate Accepted(k: seq<Char>) {
    |k| <= 10 && Digits(k) && Value(k) < UINT32_RANGE
  }

  /** The digits are the characters 48 to 57, each one worth its distance from 48, and every
      further digit multiplies what stands before it by ten. */
  lemma ValueRecursion(k: seq<Char>, c: Char)
    ensures Digits([]) && Value([]) == 0
    ensures Digits(k + [c]) <==> Digits(k) && 48 <= c <= 57
    ensures Digits(k + [c]) ==> Value(k + [c]) == 10 * Value(k) + c - 48
    ensures Accepted(k) <==> |k| <= 10 && Digits(k) && Value(k) <= 4_294_967_295
  {
    assert (k + [c])[..|k|] == k;
    if Digits(k + [c]) {
      forall i | 0 <= i < |k| ensures 48 <= k[i] <= 57 { assert (k + [c])[i] == k[i]; }
      assert (k + [c])[|k|] == c;
    }
  }

  /** parse_uint32_t; None is exit(EINVAL). It takes exactly the strings of at most ten
      digits whose value fits into 32 bits, and no step of it wraps around: `current` holds
      the exact value all along. */
  method ParseUint32(mem: seq<Char>) returns (r: Option<nat>)
    requires 0 in mem
    ensures r.Some? <==> Accepted(Text(mem))
    ensures r.Some? ==> r.value == Value(Text(mem))
  {
    var current := 0;
    var i := 0;
    while true
      invariant i < |mem| && i <= 10 && 0 !in mem[..i] && 0 in mem[i..]
      invariant Accepted(mem[..i]) && current == Value(mem[..i])
      invariant current < Power(10, i)
      decreases |mem| - i
    {
      var c := mem[i];
      if c == 0 { break; }
      LongerText(mem, i);
      if i == 10 { return None; }
      if c < ZERO_CHAR || c > NINE_CHAR { NotADigit(Text(mem), i); return None; }
      var digit := c - ZERO_CHAR;
      OneMoreDigit(mem, i);
      if i == 9 {
        if current > 429496729 { TooLarge(Text(mem), mem[..i + 1]); return None; }
        else if current == 429496729 && digit > 5 { TooLarge(Text(mem), mem[..i + 1]); return None; }
      } else {
        SmallPower(i);
      }
      current := current * 10 + digit;
      i := i + 1;
    }
    TextIsPrefix(mem, i);
    return Some(current);
  }

  lemma OneMoreDigit(mem: seq<Char>, i: nat)
    requires i < |mem| && 0 !in mem[..i] && Digits(mem[..i]) && ZERO_CHAR <= mem[i] <= NINE_CHAR
    ensures Digits(mem[..i + 1]) && 0 !in mem[..i + 1]
    ensures Value(mem[..i + 1]) == 10 * Value(mem[..i]) + mem[i] - ZERO_CHAR
  {
    var k := mem[..i + 1];
    assert k == mem[..i] + [mem[i]];
    assert k[..|k| - 1] == mem[..i];
  }

  /** Up to nine digits stay below 10^9. */
  lemma SmallPower(i: nat)
    requires i <= 8
    ensures Power(10, i + 1) <= 1_000_000_000
  {
    assert Power(10, 1) == 10 && Power(10, 2) == 100 && Power(10, 3) == 1000 && Power(10, 4) == 10_000;
    assert Power(10, 5) == 100_000 && Power(10, 6) == 1_000_000 && Power(10, 7) == 10_000_000;
    assert Power(10, 8) == 100_000_000 && Power(10, 9) == 1_000_000_000;
  }

  lemma NotADigit(k: seq<Char>, i: nat)
    requires i < |k| && !(ZERO_CHAR <= k[i] <= NINE_CHAR)
    ensures !Accepted(k)
  {
  }

  /** The text goes on as long as no zero has been seen. */
  lemma {:induction false} LongerText(mem: seq<Char>, n: nat)
    requires n < |mem| && 0 !in mem[..n] && mem[n] != 0 && 0 in mem
    ensures |Text(mem)| > n && Text(mem)[..n + 1] == mem[..n + 1]
  {
    if n > 0 {
      var rest := mem[1..];
      assert mem[..n] == [mem[0]] + rest[..n - 1];
      assert 0 in rest by { assert mem == [mem[0]] + rest; }
      LongerText(rest, n - 1);
      assert Text(mem) == [mem[0]] + Text(rest);
      assert Text(mem)[..n + 1] == [mem[0]] + Text(rest)[..n];
    } else {
      assert Text(mem)[..1] == [mem[0]];
    }
  }

  /** Adding digits never makes a number smaller. */
  lemma TooLarge(k: seq<Char>, prefix: seq<Char>)
    requires prefix <= k && Digits(prefix) && Value(prefix) >= UINT32_RANGE
    ensures !Accepted(k)
  {
    if Digits(k) {
      assert k[..|prefix|] == prefix;
      ValueGrows(k, |prefix|);
    }
  }

  lemma {:induction false} ValueGrows(k: seq<Char>, n: nat)
    requires n <= |k| && Digits(k)
    ensures Value(k[..n]) <= Value(k)
  {
    if n == |k| {
      assert k[..n] == k;
    } else {
      assert k[..|k| - 1][..n] == k[..n];
      ValueGrows(k[..|k| - 1], n);
    }
  }

  // ---- Printing -----------------------------------------------------------------------

  /** The decimal digits of a number, as the C library prints it. */
  function Decimal(n: nat): (k: Key)
  {
    if n < 10 then [ZERO_CHAR + n] else Decimal(n / 10) + [ZERO_CHAR + n % 10]
  }

  lemma {:induction false} ValueOfDecimal(n: nat)
    ensures Digits(Decimal(n)) && Value(Decimal(n)) == n
  {
    if n >= 10 {
      ValueOfDecimal(n / 10);
      assert Decimal(n)[..|Decimal(n)| - 1] == Decimal(n / 10);
    } else {
      assert Decimal(n)[..0] == [];
    }
  }

  lemma {:induction false} DecimalLength(n: nat, d: nat)
    requires d > 0 && n < Power(10, d)
    ensures |Decimal(n)| <= d
  {
    if n >= 10 { DecimalLength(n / 10, d - 1); }
  }

  /** Parsing inverts printing, for every 32-bit number. */
  lemma DecimalIsAccepted(n: nat)
    requires n < UINT32_RANGE
    ensures Accepted(Decimal(n)) && Value(Decimal(n)) == n
  {
    ValueOfDecimal(n);
    assert Power(10, 10) == 10_000_000_000 by { SmallPower(8); assert Power(10, 9) == 1_000_000_000; }
    DecimalLength(n, 10);
  }
}
