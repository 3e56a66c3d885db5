/** Unsigned shifts and masks on unbounded naturals, and what they compute when the mask is a
    power of two minus one (the table keeps the base-2 logarithm of its bucket count). */
module BitOps {

  function Pow2(k: nat): (r: nat)
    ensures r >= 1
  {
    if k == 0 then 1 else 2 * Pow2(k - 1)
  }

  lemma {:induction false} Pow2Adds(a: nat, b: nat)
    ensures Pow2(a + b) == Pow2(a) * Pow2(b)
  {
    if a > 0 {
      Pow2Adds(a - 1, b);
    }
  }

  /** n >> k */
  function ShiftRight(n: nat, k: nat): nat {
    if k == 0 then n else ShiftRight(n / 2, k - 1)
  }

  /** a & b, bit by bit */
  function BitAnd(a: nat, b: nat): nat {
    if a == 0 || b == 0 then 0
    else 2 * BitAnd(a / 2, b / 2) + (if a % 2 == 1 && b % 2 == 1 then 1 else 0)
  }

  lemma DivTwice(n: nat, m: nat)
    requires m > 0
    ensures (n / 2) / m == n / (2 * m)
    ensures n % (2 * m) == 2 * ((n / 2) % m) + n % 2
  {
    var q, r := (n / 2) / m, (n / 2) % m;
    assert n == 2 * (q * m + r) + n % 2;
    assert n == q * (2 * m) + (2 * r + n % 2);
    assert 0 <= 2 * r + n % 2 < 2 * m;
    DivModUnique(n, 2 * m, q, 2 * r + n % 2);
  }

  lemma DivModUnique(n: int, d: int, q: int, r: int)
    requires d > 0 && 0 <= r < d && n == q * d + r
    ensures n / d == q && n % d == r
  {
    var q', r' := n / d, n % d;
    assert (q - q') * d == r' - r;
    Multiples(q - q', d);
  }

  /** A multiple of d strictly between -d and d is zero. */
  lemma Multiples(k: int, d: int)
    requires d > 0
    ensures k >= 1 ==> k * d >= d
    ensures k <= -1 ==> k * d <= -d
  {
  }

  lemma {:induction false} ShiftIsDivision(n: nat, k: nat)
    ensures ShiftRight(n, k) == n / Pow2(k)
  {
    if k > 0 {
      ShiftIsDivision(n / 2, k - 1);
      DivTwice(n, Pow2(k - 1));
    }
  }

  lemma {:induction false} MaskIsModulo(n: nat, k: nat)
    ensures BitAnd(n, Pow2(k) - 1) == n % Pow2(k)
  {
    if k > 0 {
      MaskIsModulo(n / 2, k - 1);
      DivTwice(n, Pow2(k - 1));
      assert (Pow2(k) - 1) / 2 == Pow2(k - 1) - 1;
      assert (Pow2(k) - 1) % 2 == 1;
    }
  }

  /** The smallest c with n <= c * d. */
  ghost predicate IsCeiling(n: nat, d: nat, c: nat) {
    n <= c * d && (c == 0 || (c - 1) * d < n)
  }

  /** The shift-and-mask formula for the ideal chain length is the ceiling of n / 2^k. */
  lemma ShiftMaskIsCeiling(n: nat, k: nat)
    ensures IsCeiling(n, Pow2(k), ShiftRight(n, k) + (if BitAnd(n, Pow2(k) - 1) != 0 then 1 else 0))
  {
    ShiftIsDivision(n, k);
    MaskIsModulo(n, k);
    CeilingByDivision(n, Pow2(k));
  }

  lemma CeilingByDivision(n: nat, d: nat)
    requires d > 0
    ensures IsCeiling(n, d, n / d + (if n % d != 0 then 1 else 0))
  {
    var q := n / d;
    assert n == q * d + n % d;
    assert (q + 1) * d == q * d + d;
    assert (q - 1) * d == q * d - d;
  }

  /** Doubling the modulus keeps a residue or moves it up by the old modulus. */
  lemma ModuloDoubled(h: nat, b: nat)
    requires b > 0
    ensures h % (2 * b) == h % b || h % (2 * b) == h % b + b
    ensures (h % (2 * b)) % b == h % b
  {
    var q, r := h / (2 * b), h % (2 * b);
    assert h == q * (2 * b) + r;
    if r < b {
      assert h == (2 * q) * b + r;
      DivModUnique(h, b, 2 * q, r);
    } else {
      assert h == (2 * q + 1) * b + (r - b);
      DivModUnique(h, b, 2 * q + 1, r - b);
      DivModUnique(r, b, 1, r - b);
    }
  }

  /** a ^ b, bit by bit */
  function BitXor(a: nat, b: nat): nat {
    if a == 0 then b
    else if b == 0 then a
    else 2 * BitXor(a / 2, b / 2) + (a + b) % 2
  }

  lemma {:induction false} XorBound(a: nat, b: nat, k: nat)
    requires a < Pow2(k) && b < Pow2(k)
    ensures BitXor(a, b) < Pow2(k)
  {
    if a != 0 && b != 0 {
      XorBound(a / 2, b / 2, k - 1);
    }
  }

  lemma XorStep(a: nat, b: nat)
    ensures var x := BitXor(a, b); x / 2 == BitXor(a / 2, b / 2) && x % 2 == (a + b) % 2
  {
  }

  lemma {:induction false} XorTwice(a: nat, b: nat)
    ensures BitXor(BitXor(a, b), b) == a
    decreases a + b
  {
    if a != 0 || b != 0 {
      hide BitXor;
      var x := BitXor(a, b);
      XorTwice(a / 2, b / 2);
      XorStep(a, b);
      XorStep(x, b);
      ParityTwice(a, b, x, BitXor(x, b));
    }
  }

  function BitAt(n: nat, k: nat): nat {
    n / Pow2(k) % 2
  }

  lemma BitAtHalf(n: nat, k: nat)
    requires k > 0
    ensures BitAt(n, k) == BitAt(n / 2, k - 1)
  {
    DivTwice(n, Pow2(k - 1));
  }

  lemma BitAtZero(n: nat)
    ensures BitAt(n, 0) == n % 2
  {
  }

  /** Bit k of a ^ b tells whether bits k of a and b differ. */
  lemma {:induction false} XorBits(a: nat, b: nat, k: nat)
    ensures BitAt(BitXor(a, b), k) == (BitAt(a, k) + BitAt(b, k)) % 2
  {
    hide BitXor, BitAt, Pow2;
    XorStep(a, b);
    if k == 0 {
      BitAtZero(a);
      BitAtZero(b);
      BitAtZero(BitXor(a, b));
    } else {
      XorBits(a / 2, b / 2, k - 1);
      BitAtHalf(a, k);
      BitAtHalf(b, k);
      BitAtHalf(BitXor(a, b), k);
    }
  }

  lemma ParityTwice(a: nat, b: nat, x: nat, y: nat)
    requires x % 2 == (a + b) % 2 && y / 2 == a / 2 && y % 2 == (x + b) % 2
    ensures y == a
  {
  }
}
