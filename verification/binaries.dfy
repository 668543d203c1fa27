/** Page numbers of 44 bits as 64-bit words and as numbers, converted byte by byte. */
module Binaries {
  const PPN_LIMIT: nat := 0x1000_0000_0000

  /** The six bytes of a word below 2^44, low byte first. */
  function Join(b0: bv8, b1: bv8, b2: bv8, b3: bv8, b4: bv8, b5: bv8): bv64 {
    (b0 as bv64) | (b1 as bv64 << 8) | (b2 as bv64 << 16) | (b3 as bv64 << 24) | (b4 as bv64 << 32) | (b5 as bv64 << 40)
  }

  function Low8(x: bv64): bv8 { (x & 0xFF) as bv8 }

  /** The value of a hexadecimal digit. */
  function Hex(h: bv8): (n: nat)
    ensures n < 16
  {
    if h == 0 then 0 else if h == 1 then 1 else if h == 2 then 2 else if h == 3 then 3 else if h == 4 then 4 else
    if h == 5 then 5 else if h == 6 then 6 else if h == 7 then 7 else if h == 8 then 8 else if h == 9 then 9 else
    if h == 10 then 10 else if h == 11 then 11 else if h == 12 then 12 else if h == 13 then 13
      else if h == 14 then 14 else
    15
  }

  /** The hexadecimal digit of a value. */
  function FromHex(n: nat): (h: bv8)
    ensures h < 16
  {
    if n == 0 then 0 else if n == 1 then 1 else if n == 2 then 2 else if n == 3 then 3 else if n == 4 then 4 else
    if n == 5 then 5 else if n == 6 then 6 else if n == 7 then 7 else if n == 8 then 8 else if n == 9 then 9 else
    if n == 10 then 10 else if n == 11 then 11 else if n == 12 then 12 else if n == 13 then 13
      else if n == 14 then 14 else
    15
  }

  /** The number that a byte denotes. */
  function Digit(b: bv8): (n: nat)
    ensures n < 256
  {
    Hex(b & 15) + 16 * Hex(b >> 4)
  }

  /** The byte that denotes a number. */
  function FromDigit(n: nat): bv8 { FromHex(n % 16) | (FromHex(n / 16) << 4) }

  function Horner(d0: nat, d1: nat, d2: nat, d3: nat, d4: nat, d5: nat): nat {
    d0 + 256 * (d1 + 256 * (d2 + 256 * (d3 + 256 * (d4 + 256 * d5))))
  }

  /** The number that the low six bytes of a word denote. */
  function Number(x: bv64): nat {
    Horner(Digit(Low8(x)), Digit(Low8(x >> 8)), Digit(Low8(x >> 16)),
           Digit(Low8(x >> 24)), Digit(Low8(x >> 32)), Digit(Low8(x >> 40)))
  }

  /** The word that denotes a number below 2^48. */
  function Binary(n: nat): bv64 {
    Join(FromDigit(n % 256), FromDigit(n / 256 % 256), FromDigit(n / 256 / 256 % 256),
         FromDigit(n / 256 / 256 / 256 % 256), FromDigit(n / 256 / 256 / 256 / 256 % 256),
         FromDigit(n / 256 / 256 / 256 / 256 / 256 % 256))
  }

  lemma HexRound(h: bv8)
    requires h < 16
    ensures FromHex(Hex(h)) == h
  {
  }

  lemma HexRoundBack(n: nat)
    requires n < 16
    ensures Hex(FromHex(n)) == n
  {
  }

  lemma HexZero(h: bv8)
    requires h < 16
    ensures Hex(h) == 0 <==> h == 0
  {
  }

  lemma Halves(b: bv8)
    ensures b & 15 < 16 && b >> 4 < 16 && (b & 15) | ((b >> 4) << 4) == b
    ensures b < 16 <==> b >> 4 == 0
  {
  }

  lemma Whole(lo: bv8, hi: bv8)
    requires lo < 16 && hi < 16
    ensures (lo | (hi << 4)) & 15 == lo && (lo | (hi << 4)) >> 4 == hi
  {
  }

  lemma DigitRound(b: bv8)
    ensures FromDigit(Digit(b)) == b
    ensures b < 16 <==> Digit(b) < 16
  {
    hide Hex, FromHex;
    Halves(b);
    HexRound(b & 15);
    HexRound(b >> 4);
    HexZero(b >> 4);
  }

  lemma DigitRoundBack(n: nat)
    requires n < 256
    ensures Digit(FromDigit(n)) == n
  {
    hide Hex, FromHex;
    Whole(FromHex(n % 16), FromHex(n / 16));
    HexRoundBack(n % 16);
    HexRoundBack(n / 16);
  }

  lemma JoinSplit(b0: bv8, b1: bv8, b2: bv8, b3: bv8, b4: bv8, b5: bv8)
    ensures var x := Join(b0, b1, b2, b3, b4, b5);
      && Low8(x) == b0 && Low8(x >> 8) == b1 && Low8(x >> 16) == b2
      && Low8(x >> 24) == b3 && Low8(x >> 32) == b4 && Low8(x >> 40) == b5
      && (b5 < 16 ==> x < 0x1000_0000_0000)
  {
  }

  lemma SplitJoin(x: bv64)
    requires x < 0x1000_0000_0000
    ensures Join(Low8(x), Low8(x >> 8), Low8(x >> 16), Low8(x >> 24), Low8(x >> 32), Low8(x >> 40)) == x
    ensures Low8(x >> 40) < 16
  {
  }

  lemma HornerDigits(d0: nat, d1: nat, d2: nat, d3: nat, d4: nat, d5: nat)
    requires d0 < 256 && d1 < 256 && d2 < 256 && d3 < 256 && d4 < 256 && d5 < 16
    ensures var n := Horner(d0, d1, d2, d3, d4, d5);
      && n < PPN_LIMIT && n % 256 == d0 && n / 256 % 256 == d1 && n / 256 / 256 % 256 == d2
      && n / 256 / 256 / 256 % 256 == d3 && n / 256 / 256 / 256 / 256 % 256 == d4
      && n / 256 / 256 / 256 / 256 / 256 % 256 == d5
  {
    var n4 := d4 + 256 * d5;
    var n3 := d3 + 256 * n4;
    var n2 := d2 + 256 * n3;
    var n1 := d1 + 256 * n2;
    LastDigit(d4, d5);
    LastDigit(d3, n4);
    LastDigit(d2, n3);
    LastDigit(d1, n2);
    LastDigit(d0, n1);
  }

  lemma LastDigit(d: nat, n: nat)
    requires d < 256
    ensures (d + 256 * n) % 256 == d && (d + 256 * n) / 256 == n
  {
  }

  lemma DigitsHorner(n: nat)
    requires n < PPN_LIMIT
    ensures Horner(n % 256, n / 256 % 256, n / 256 / 256 % 256, n / 256 / 256 / 256 % 256,
                   n / 256 / 256 / 256 / 256 % 256, n / 256 / 256 / 256 / 256 / 256 % 256) == n
    ensures n / 256 / 256 / 256 / 256 / 256 % 256 < 16
  {
  }

  /** A word below 2^44 is recovered from its number. */
  lemma BinaryNumber(x: bv64)
    requires x < 0x1000_0000_0000
    ensures Number(x) < PPN_LIMIT && Binary(Number(x)) == x
  {
    hide Low8, Digit, FromDigit, Join, Horner;
    SplitJoin(x);
    var b0, b1, b2, b3, b4, b5 := Low8(x), Low8(x >> 8), Low8(x >> 16), Low8(x >> 24), Low8(x >> 32), Low8(x >> 40);
    DigitRound(b0); DigitRound(b1); DigitRound(b2); DigitRound(b3); DigitRound(b4); DigitRound(b5);
    HornerDigits(Digit(b0), Digit(b1), Digit(b2), Digit(b3), Digit(b4), Digit(b5));
  }

  lemma JoinBytes(b0: bv8, b1: bv8, b2: bv8, b3: bv8, b4: bv8, b5: bv8)
    ensures Number(Join(b0, b1, b2, b3, b4, b5))
      == Horner(Digit(b0), Digit(b1), Digit(b2), Digit(b3), Digit(b4), Digit(b5))
  {
    hide Low8, Digit, Join, Horner;
    JoinSplit(b0, b1, b2, b3, b4, b5);
  }

  lemma JoinDigits(d0: nat, d1: nat, d2: nat, d3: nat, d4: nat, d5: nat)
    requires d0 < 256 && d1 < 256 && d2 < 256 && d3 < 256 && d4 < 256 && d5 < 16
    ensures var x := Join(FromDigit(d0), FromDigit(d1), FromDigit(d2), FromDigit(d3), FromDigit(d4), FromDigit(d5));
      x < 0x1000_0000_0000 && Number(x) == Horner(d0, d1, d2, d3, d4, d5)
  {
    hide Low8, Digit, FromDigit, Join, Horner, Number;
    DigitRoundBack(d0); DigitRoundBack(d1); DigitRoundBack(d2);
      DigitRoundBack(d3); DigitRoundBack(d4); DigitRoundBack(d5);
    DigitRound(FromDigit(d5));
    var b0, b1, b2 := FromDigit(d0), FromDigit(d1), FromDigit(d2);
    var b3, b4, b5 := FromDigit(d3), FromDigit(d4), FromDigit(d5);
    JoinSplit(b0, b1, b2, b3, b4, b5);
    JoinBytes(b0, b1, b2, b3, b4, b5);
  }

  /** A number below 2^44 is recovered from its word. */
  lemma NumberBinary(n: nat)
    requires n < PPN_LIMIT
    ensures Binary(n) < 0x1000_0000_0000 && Number(Binary(n)) == n
  {
    hide Number, FromDigit, Join, Horner;
    DigitsHorner(n);
    JoinDigits(n % 256, n / 256 % 256, n / 256 / 256 % 256, n / 256 / 256 / 256 % 256,
               n / 256 / 256 / 256 / 256 % 256, n / 256 / 256 / 256 / 256 / 256 % 256);
  }

  // ---- Counting -----------------------------------------------------------------------

  lemma HexSuccessor(h: bv8)
    requires h < 15
    ensures Hex(h + 1) == Hex(h) + 1
  {
  }

  lemma NibbleCarry(b: bv8)
    requires b != 255
    ensures b & 15 != 15 ==> (b + 1) & 15 == (b & 15) + 1 && (b + 1) >> 4 == b >> 4 && b & 15 < 15
    ensures b & 15 == 15 ==> (b + 1) & 15 == 0 && (b + 1) >> 4 == (b >> 4) + 1 && b >> 4 < 15
  {
  }

  lemma DigitSuccessor(b: bv8)
    requires b != 255
    ensures Digit(b + 1) == Digit(b) + 1
  {
    hide Hex;
    NibbleCarry(b);
    if b & 15 == 15 {
      HexSuccessor(b >> 4);
      HexLimits();
    } else {
      HexSuccessor(b & 15);
    }
  }

  lemma HexLimits()
    ensures Hex(0) == 0 && Hex(15) == 15
  {
  }

  lemma ByteLimits()
    ensures Digit(0) == 0 && Digit(255) == 255
  {
  }

  /** The number that the low `k` bytes of a word denote. */
  function LowNumber(x: bv64, k: nat): nat {
    if k == 0 then 0 else Digit(Low8(x)) + 256 * LowNumber(x >> 8, k - 1)
  }

  lemma ShiftTwice(x: bv64)
    ensures (x >> 8) >> 8 == x >> 16 && (x >> 16) >> 8 == x >> 24
      && (x >> 24) >> 8 == x >> 32 && (x >> 32) >> 8 == x >> 40
  {
  }

  lemma NumberIsLowNumber(x: bv64)
    ensures Number(x) == LowNumber(x, 6)
  {
    hide Digit, Low8;
    ShiftTwice(x);
    var y := x >> 40;
    assert LowNumber(y, 1) == Digit(Low8(y)) + 256 * LowNumber(y >> 8, 0);
    assert LowNumber(x >> 32, 2) == Digit(Low8(x >> 32)) + 256 * LowNumber(y, 1);
    assert LowNumber(x >> 24, 3) == Digit(Low8(x >> 24)) + 256 * LowNumber(x >> 32, 2);
    assert LowNumber(x >> 16, 4) == Digit(Low8(x >> 16)) + 256 * LowNumber(x >> 24, 3);
    assert LowNumber(x >> 8, 5) == Digit(Low8(x >> 8)) + 256 * LowNumber(x >> 16, 4);
  }

  lemma ByteCarry(x: bv64)
    requires x < 0x8000_0000_0000_0000
    ensures x >> 8 < 0x8000_0000_0000_0000
    ensures Low8(x) != 255 ==> Low8(x + 1) == Low8(x) + 1 && (x + 1) >> 8 == x >> 8
    ensures Low8(x) == 255 ==> Low8(x + 1) == 0 && (x + 1) >> 8 == (x >> 8) + 1
  {
  }

  function Power256(k: nat): nat { if k == 0 then 1 else 256 * Power256(k - 1) }

  lemma {:induction false} LowNumberSuccessor(x: bv64, k: nat)
    requires x < 0x8000_0000_0000_0000 && LowNumber(x, k) + 1 < Power256(k)
    ensures LowNumber(x + 1, k) == LowNumber(x, k) + 1
    decreases k
  {
    hide Digit, Low8;
    ByteCarry(x);
    if Low8(x) == 255 {
      ByteLimits();
      LowNumberSuccessor(x >> 8, k - 1);
    } else {
      DigitSuccessor(Low8(x));
    }
  }

  function Successor(x: bv64): bv64 { x + 1 }

  /** Counting a word up counts its number up. */
  lemma NumberSuccessor(x: bv64)
    requires x < 0xFFF_FFFF_FFFF
    ensures Number(Successor(x)) == Number(x) + 1
  {
    hide Number;
    BinaryNumber(x);
    NumberIsLowNumber(x);
    NumberIsLowNumber(x + 1);
    assert Power256(2) == 65536 && Power256(4) == 256 * (256 * Power256(2)) && Power256(6) == 256 * (256 * Power256(4));
    LowNumberSuccessor(x, 6);
  }

  lemma SmallSuccessor(x: bv64)
    requires x < 256
    ensures x < 0xFFF_FFFF_FFFF && Successor(x) < 0x1000_0000_0000
  {
  }

  lemma JoinLow(b: bv8)
    ensures Join(b, 0, 0, 0, 0, 0) < 256
  {
  }

  /** A byte's worth of numbers needs one byte. */
  lemma SmallBinary(n: nat)
    requires n < 256
    ensures Binary(n) < 256 && Number(Binary(n)) == n
  {
    hide Join, Number, Digit, FromDigit;
    NumberBinary(n);
    ZeroDigit();
    JoinLow(FromDigit(n % 256));
  }

  lemma ZeroDigit()
    ensures FromDigit(0) == 0
  {
  }

  /** The next number is denoted by the next word. */
  lemma BinarySuccessor(n: nat)
    requires n < 256
    ensures Binary(n + 1) == Successor(Binary(n))
  {
    hide Number, Binary, Successor;
    SmallBinary(n);
    SmallSuccessor(Binary(n));
    NumberSuccessor(Binary(n));
    BinaryNumber(Successor(Binary(n)));
  }
}
