/** The low bits of a 16-bit flag word, read off the word as a number. */
module FlagBits {
  import opened BitOps

  /** The flag word as a number. */
  function Number(f: bv16): nat {
    f as nat
  }

  predicate Bit(f: bv16, bit: bv16) {
    f & bit != 0
  }

  /** The binary digit of n that stands for d, a power of two. */
  predicate Digit(n: int, d: int)
    requires d > 0
  {
    n / d % 2 == 1
  }

  function Low4(f: bv16): bv16 {
    f & 15
  }

  lemma Low4Bits(f: bv16)
    ensures Low4(f) < 16 && (f < 16 ==> Low4(f) == f)
    ensures Bit(Low4(f), 1) == Bit(f, 1) && Bit(Low4(f), 2) == Bit(f, 2)
    ensures Bit(Low4(f), 4) == Bit(f, 4) && Bit(Low4(f), 8) == Bit(f, 8)
  {
  }

  lemma Less16(f: bv16)
    ensures Low4(f - 16) == Low4(f)
  {
  }

  lemma Minus16(f: bv16)
    requires f >= 16
    ensures Number(f - 16) == Number(f) - 16
  {
  }

  lemma {:induction false} Sixteens(f: bv16, n: int) returns (q: nat)
    requires n == Number(f)
    ensures n == 16 * q + Number(Low4(f))
    decreases n
  {
    hide Low4, Number;
    Low4Bits(f);
    if f < 16 {
      q := 0;
    } else {
      Less16(f);
      Minus16(f);
      q := Sixteens(f - 16, n - 16);
      q := q + 1;
    }
  }

  lemma SmallDigits(f: bv16)
    requires f < 16
    ensures Bit(f, 1) == Digit(Number(f), 1) && Bit(f, 2) == Digit(Number(f), 2)
    ensures Bit(f, 4) == Digit(Number(f), 4) && Bit(f, 8) == Digit(Number(f), 8)
  {
    assert f == 0 || f == 1 || f == 2 || f == 3 || f == 4 || f == 5 || f == 6 || f == 7
        || f == 8 || f == 9 || f == 10 || f == 11 || f == 12 || f == 13 || f == 14 || f == 15;
  }

  lemma SameDigit(n: int, r: int, d: int, k: int)
    requires d > 0 && n == 2 * k * d + r
    ensures Digit(n, d) == Digit(r, d)
  {
    DivModUnique(n, d, 2 * k + r / d, r % d);
    Even(r / d, k);
  }

  lemma Even(a: int, k: int)
    ensures (2 * k + a) % 2 == a % 2
  {
  }

  /** Each of the four low bits of a word is the binary digit of its number. */
  lemma BitsAreDigits(f: bv16)
    ensures Bit(f, 1) == Digit(Number(f), 1) && Bit(f, 2) == Digit(Number(f), 2)
    ensures Bit(f, 4) == Digit(Number(f), 4) && Bit(f, 8) == Digit(Number(f), 8)
  {
    hide Bit, Digit, Low4, Number;
    var n := Number(f);
    var q := Sixteens(f, n);
    Low4Bits(f);
    SmallDigits(Low4(f));
    var m := Number(Low4(f));
    SameDigit(n, m, 1, 8 * q);
    SameDigit(n, m, 2, 4 * q);
    SameDigit(n, m, 4, 2 * q);
    SameDigit(n, m, 8, q);
  }

  /** The same, written out. */
  lemma BitsByNumber(f: bv16)
    ensures Bit(f, 1) <==> Number(f) % 2 == 1
    ensures Bit(f, 2) <==> Number(f) / 2 % 2 == 1
    ensures Bit(f, 4) <==> Number(f) / 4 % 2 == 1
    ensures Bit(f, 8) <==> Number(f) / 8 % 2 == 1
  {
    hide Bit, Number;
    BitsAreDigits(f);
  }

  lemma SmallNumber(n: bv16)
    requires n < 16
    ensures Number(n) < 16 && (n == 1 ==> Number(n) == 1) && (n == 2 ==> Number(n) == 2) && (n == 3 ==> Number(n) == 3)
  {
  }

  lemma BitsAddUp(f: bv16)
    requires f < 8
    ensures Number(f) == (if Bit(f, 1) then 1 else 0) + (if Bit(f, 2) then 2 else 0) + (if Bit(f, 4) then 4 else 0)
  {
    assert f == 0 || f == 1 || f == 2 || f == 3 || f == 4 || f == 5 || f == 6 || f == 7;
  }
}
