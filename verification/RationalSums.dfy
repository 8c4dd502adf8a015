/**
 Sums and differences of mixed numbers, also when the least common denominator
 overflows its register: what the register keeps of it rounds both fractions
 down, and the exact conditions say when that does no harm.
 */
module RationalSums {
  import opened Modular
  import opened Divisors
  import opened RationalModel

  // ---- the common denominator -----------------------------------------------------------------

  /** The least common denominator and the factors that lead to it. */
  lemma CommonDenominator(d1: nat, d2: nat) returns (p: nat, q: nat, g: nat)
    requires 0 < d1 && 0 < d2
    ensures Coprime(p, q) && 0 < g && 0 < p && 0 < q && d1 == p * g && d2 == q * g
    ensures var l := LcdOf(d1, d2); 0 < l && l == q * d1 == p * d2 && l / d1 == q && l / d2 == p && d1 * d2 == g * l
  {
    hide GcdOf, Coprime;
    g := GcdOf(d1, d2);
    p, q := GcdSplits(d1, d2);
    DivModUnique(d1, g, p, 0);
    var l := LcdOf(d1, d2);
    assert l == p * d2;
    assert p * (q * g) == q * (p * g);
    assert p != 0 && q != 0;
    assert l > 0;
    DivModUnique(l, d1, q, 0);
    DivModUnique(l, d2, p, 0);
    assert d1 * d2 == p * g * d2 == g * (p * d2);
  }

  ghost predicate LcdFits(a: Number, b: Number)
    requires 0 < a.denominator
  {
    LcdOf(a.denominator, b.denominator) < TWO_64
  }

  /** What a register keeps of the least common denominator. */
  function KeptLcd(a: Number, b: Number): Word64
    requires 0 < a.denominator
  {
    Cut(LcdOf(a.denominator, b.denominator))
  }

  lemma OddIsCoprimeToTwo(q: nat)
    requires q % 2 == 1
    ensures Coprime(2, q)
  {
    forall d: nat | Divides(d, 2) && Divides(d, q)
      ensures d == 1
    {
      DivisorNotAbove(d, 2);
      if d == 2 {
        EvenIf(q);
      }
    }
  }

  lemma EvenIf(x: nat)
    ensures Divides(2, x) <==> x % 2 == 0
  {
    if x % 2 == 0 {
      MultipleOf(x / 2, 2, x);
    }
  }

  /** An odd number has nothing in common with two to the 64. */
  lemma OddIsCoprime(q: nat)
    requires q % 2 == 1
    ensures Coprime(TWO_64, q)
  {
    hide Coprime;
    OddIsCoprimeToTwo(q);
    CoprimeProduct(2, 2, q);
    CoprimeProduct(4, 4, q);
    CoprimeProduct(0x10, 0x10, q);
    CoprimeProduct(0x100, 0x100, q);
    CoprimeProduct(0x1_0000, 0x1_0000, q);
    CoprimeProduct(0x1_0000_0000, 0x1_0000_0000, q);
  }

  lemma OddFactorKeeps(q: nat, d: Word64, l: nat)
    requires q % 2 == 1 && 0 < d && l == q * d
    ensures 0 < Cut(l)
  {
    hide Coprime, Divides;
    if Cut(l) == 0 {
      OddIsCoprime(q);
      MultipleOf(l / TWO_64, TWO_64, q * d);
      Gauss(TWO_64, q, d);
      DivisorNotAbove(TWO_64, d);
    }
  }

  lemma OneIsOdd(p: nat, q: nat)
    requires Coprime(p, q)
    ensures p % 2 == 1 || q % 2 == 1
  {
    hide Divides;
    EvenIf(p);
    EvenIf(q);
  }

  /** No least common denominator of 64-bit numbers is a multiple of two to the 64, so its register never reads zero. */
  lemma LcdNeverVanishes(a: Number, b: Number)
    requires 0 < a.denominator && 0 < b.denominator
    ensures 0 < KeptLcd(a, b)
  {
    hide GcdOf, LcdOf, Coprime, Cut;
    var p, q, g := CommonDenominator(a.denominator, b.denominator);
    OneIsOdd(p, q);
    if q % 2 == 1 {
      OddFactorKeeps(q, a.denominator, LcdOf(a.denominator, b.denominator));
    } else {
      OddFactorKeeps(p, b.denominator, LcdOf(a.denominator, b.denominator));
    }
  }

  /**
   A number over `l`, rounded down to it, and what that takes from it, over the product
   of denominators `d` and `e`.
   */
  lemma RoundedOver(x: Number, e: nat, l: nat)
    requires x.numerator < x.denominator && 0 < l
    ensures OnLcd(x, l) < l
    ensures (x.integer * l + OnLcd(x, l)) * (x.denominator * e) + x.numerator * e * (l % x.denominator)
         == Whole(x) * e * l
  {
    var i: int, n: int, d: int := x.integer, x.numerator, x.denominator;
    var m, r := DivParts(l, x.denominator);
    RoundedBelow(x.numerator, x.denominator, m, l);
    RoundedParts(i, n, d, e, m, r, l);
  }

  lemma RoundedBelow(n: nat, d: nat, m: nat, l: nat)
    requires n < d && m * d <= l && 0 < l
    ensures n * m < l
  {
    if m > 0 {
      ProductOrder(n, d, m);
    }
  }

  lemma RoundedParts(i: int, n: int, d: int, e: int, m: int, r: int, l: int)
    requires l == m * d + r
    ensures (i * l + n * m) * (d * e) + n * e * r == (i * d + n) * e * l
  {
    assert n * m * (d * e) == n * e * (m * d);
    assert n * e * l == n * e * (m * d) + n * e * r;
    assert i * l * (d * e) == i * d * e * l;
  }

  /** Two equations with the factors `d` and `l` added and subtracted. */
  lemma AddOver(x: int, r1: int, s: int, y: int, r2: int, t: int, d: int, l: int)
    requires x * d + r1 == s * l && y * d + r2 == t * l
    ensures (x + y) * d + (r1 + r2) == (s + t) * l
    ensures (x - y) * d + (r1 - r2) == (s - t) * l
  {
  }

  lemma LcdIsLeast(d1: nat, d2: nat, l: nat)
    requires 0 < d1 && 0 < d2 && 0 < l && l % d1 == 0 && l % d2 == 0
    ensures LcdOf(d1, d2) <= l
  {
    hide GcdOf, Coprime;
    var g := GcdOf(d1, d2);
    var p, q := GcdSplits(d1, d2);
    DivModUnique(d1, g, p, 0);
    var m1, r1 := DivParts(l, d1);
    var m2, r2 := DivParts(l, d2);
    SmallestMultiple(p, q, g, m1, m2);
  }

  /** A common multiple of `p * g` and `q * g` is at least `p * q * g` when `p` and `q` have no common divisor. */
  lemma SmallestMultiple(p: nat, q: nat, g: nat, m1: nat, m2: nat)
    requires Coprime(p, q) && 0 < g && m1 * (p * g) == m2 * (q * g) && 0 < m1 * (p * g)
    ensures p * (q * g) <= m1 * (p * g)
  {
    hide Coprime, Divides;
    FactorOut(m1, p, m2, q, g);
    MultipleOf(m2, q, p * m1);
    CoprimeCommutes(p, q);
    Gauss(q, p, m1);
    assert m1 != 0;
    DivisorNotAbove(q, m1);
    ScaledNotAbove(q, m1, p * g);
    Exchange(p, q, g);
  }

  lemma Exchange(p: int, q: int, g: int)
    ensures p * (q * g) == q * (p * g)
  {
  }

  lemma FactorOut(m1: nat, p: nat, m2: nat, q: nat, g: nat)
    requires 0 < g && m1 * (p * g) == m2 * (q * g)
    ensures m1 * p == m2 * q
  {
    assert m1 * (p * g) == m1 * p * g && m2 * (q * g) == m2 * q * g;
    SameFactor(m1 * p, m2 * q, g);
  }

  lemma ScaledNotAbove(q: nat, m: nat, x: nat)
    requires q <= m
    ensures q * x <= m * x
  {
    assert (m - q) * x >= 0;
  }

  // ---- sums -----------------------------------------------------------------------------------

  /** The fractions over `l`, each rounded down to it, added. */
  function FractionSum(a: Number, b: Number, l: nat): nat
    requires 0 < a.denominator && 0 < b.denominator
  {
    OnLcd(a, l) + OnLcd(b, l)
  }

  /** Bringing the fraction over `l` does not round it. */
  predicate Divisible(x: Number, l: nat)
    requires 0 < x.denominator
  {
    x.numerator == 0 || l % x.denominator == 0
  }

  /**
   What the register keeps of the least common denominator is one of the
   fractions' common denominators still, and the sum of the fractions and the sum
   of the integers, with the carry, fit their registers.
   */
  predicate SumFits(a: Number, b: Number)
    requires 0 < a.denominator && 0 < b.denominator
  {
    var l := KeptLcd(a, b);
    && Divisible(a, l) && Divisible(b, l)
    && FractionSum(a, b, l) < TWO_64
    && a.integer + b.integer + (if FractionSum(a, b, l) >= l then 1 else 0) < TWO_64
  }

  lemma NotAbove(c: int, i: int, m: int, n: int, l: nat)
    requires c <= i && m <= n
    ensures c * l + m <= i * l + n
  {
    assert (i - c) * l >= 0;
  }

  /** With `k` and `j` register overflows dropped, the value is right exactly when there were none. */
  lemma DropsNothingIff(r: Number, i: nat, n: nat, c: int, m: int, k: nat, j: nat, l: nat)
    requires 0 < l && 0 < r.denominator && Is(r, c * l + m, l)
    requires c == i - k * TWO_64 && m == n - j * TWO_64
    ensures Is(r, i * l + n, l) <==> k == 0 && j == 0
  {
    hide Is;
    if Is(r, i * l + n, l) {
      IsUnique(r, i * l + n, c * l + m, l);
      assert c * l == i * l - k * l * TWO_64;
      assert k * l + j == 0;
      assert k > 0 ==> k * l >= l;
    }
  }

  lemma CarryIs(i: nat, n: nat, k: nat, k': nat, j: nat, whole: nat, l: nat)
    requires 0 < l < TWO_64 && n < l + l
    requires Cut(n) == n - j * TWO_64 && (j == 0 <==> n < TWO_64)
    requires Cut(i) == i - k * TWO_64 && (k == 0 <==> i < TWO_64)
    requires k' == 0 <==> Cut(i) + whole < TWO_64
    requires whole * l <= Cut(n) < whole * l + l
    ensures k + k' == 0 && j == 0 <==> n < TWO_64 && i + (if n >= l then 1 else 0) < TWO_64
  {
    assert whole >= 2 ==> whole * l >= 2 * l;
    assert whole == 1 ==> whole * l == l;
  }

  /** A sum cut to registers is worth the sum exactly when nothing was cut, and less when something was. */
  lemma CutSumExactIff(i: nat, n: nat, l: Word64) returns (c: int)
    requires 0 < l && n < l + l
    ensures var r := Normalised(Cut(i), Cut(n), l);
      && r.Ok? && Normal(r.value) && 0 < r.value.denominator && Is(r.value, c, l) && c <= i * l + n
      && (Is(r.value, i * l + n, l) <==> n < TWO_64 && i + (if n >= l then 1 else 0) < TWO_64)
  {
    hide Normalised, Cut, Is, Normal;
    var j := CutParts(n);
    var k := CutParts(i);
    var k', whole := NormalisedIs(Cut(i), Cut(n), l);
    c := (Cut(i) - k' * TWO_64) * l + Cut(n);
    NotAbove(Cut(i) - k' * TWO_64, i, Cut(n), n, l);
    DropsNothingIff(Normalised(Cut(i), Cut(n), l).value, i, n, Cut(i) - k' * TWO_64, Cut(n), k + k', j, l);
    CarryIs(i, n, k, k', j, whole, l);
  }

  /** What a sum loses to rounding. */
  function SumRest(a: Number, b: Number, l: nat): (r: int)
    requires 0 < a.denominator && 0 < b.denominator
  {
    a.numerator * b.denominator * (l % a.denominator) + b.numerator * a.denominator * (l % b.denominator)
  }

  /** The sum of the rounded fractions and what it misses make up the sum of the numbers. */
  lemma SumRounds(a: Number, b: Number, l: nat)
    requires a.numerator < a.denominator && b.numerator < b.denominator && 0 < l
    ensures OnLcd(a, l) < l && OnLcd(b, l) < l
    ensures ((a.integer + b.integer) * l + FractionSum(a, b, l)) * (a.denominator * b.denominator) + SumRest(a, b, l)
         == (Whole(a) * b.denominator + Whole(b) * a.denominator) * l
  {
    hide Whole, OnLcd;
    RoundedOver(a, b.denominator, l);
    RoundedOver(b, a.denominator, l);
    AddOver(a.integer * l + OnLcd(a, l), a.numerator * b.denominator * (l % a.denominator), Whole(a) * b.denominator,
            b.integer * l + OnLcd(b, l), b.numerator * a.denominator * (l % b.denominator), Whole(b) * a.denominator,
            a.denominator * b.denominator, l);
  }

  lemma ProductIsNone(n: nat, e: nat, r: nat)
    requires 0 < e
    ensures 0 <= n * e * r && (n * e * r == 0 <==> n == 0 || r == 0)
  {
    if n > 0 && r > 0 {
      PositiveProduct(n, e);
      PositiveProduct(n * e, r);
    }
  }

  lemma RestIsNone(a: Number, b: Number, l: nat)
    requires 0 < a.denominator && 0 < b.denominator
    ensures 0 <= SumRest(a, b, l)
    ensures SumRest(a, b, l) == 0 <==> Divisible(a, l) && Divisible(b, l)
  {
    ProductIsNone(a.numerator, b.denominator, l % a.denominator);
    ProductIsNone(b.numerator, a.denominator, l % b.denominator);
  }

  /** A value that is at most `x / l` is `(x * d + rest) / (l * d)` only if it is `x / l` and there is no rest. */
  lemma NoRest(r: Number, c: int, x: int, l: int, s: int, d: int, rest: int)
    requires 0 < r.denominator && 0 < l && 0 < d && 0 <= rest
    requires Is(r, c, l) && c <= x && x * d + rest == s * l
    ensures Is(r, s, d) <==> Is(r, x, l) && rest == 0
  {
    hide Is;
    if Is(r, s, d) {
      SameRatioOf(r, c, l, s, d);
      assert (x - c) * d + rest == 0 && (x - c) * d >= 0;
      assert x - c > 0 ==> (x - c) * d > 0;
    }
    if Is(r, x, l) && rest == 0 {
      IsSameRatio(r, x, l, s, d);
    }
  }

  /**
   For all numbers: the sum is exact if and only if what is left of the least
   common denominator rounds neither fraction and the sums fit.  For fractions
   that are not zero this is the least common denominator fitting its register
   (`SumNeedsLcd`).
   */
  lemma SumExactIff(a: Number, b: Number)
    requires Normal(a) && Normal(b)
    ensures var r := AddSubOf(a, b, true);
      && r.Ok? && Normal(r.value)
      && (Is(r.value, Whole(a) * b.denominator + Whole(b) * a.denominator, a.denominator * b.denominator)
          <==> SumFits(a, b))
  {
    hide Coprime, LcdOf, Normalised, Cut, Is, Whole, OnLcd, SumRest, Divisible;
    var l := KeptLcd(a, b);
    LcdNeverVanishes(a, b);
    SumRounds(a, b, l);
    CutSmall(OnLcd(a, l));
    CutSmall(OnLcd(b, l));
    var c := CutSumExactIff(a.integer + b.integer, FractionSum(a, b, l), l);
    RestIsNone(a, b, l);
    PositiveProduct(a.denominator, b.denominator);
    NoRest(AddSubOf(a, b, true).value, c, (a.integer + b.integer) * l + FractionSum(a, b, l), l,
           Whole(a) * b.denominator + Whole(b) * a.denominator, a.denominator * b.denominator, SumRest(a, b, l));
  }

  /** A number that both denominators divide is no less than their least common denominator. */
  lemma SumNeedsLcd(a: Number, b: Number)
    requires Normal(a) && Normal(b) && 0 < a.numerator && 0 < b.numerator && SumFits(a, b)
    ensures LcdFits(a, b)
  {
    hide LcdOf, Coprime, OnLcd, GcdOf;
    LcdNeverVanishes(a, b);
    LcdIsLeast(a.denominator, b.denominator, KeptLcd(a, b));
  }

  lemma FittingLcdDivides(a: Number, b: Number)
    requires 0 < a.denominator && 0 < b.denominator && LcdFits(a, b)
    ensures KeptLcd(a, b) == LcdOf(a.denominator, b.denominator)
    ensures KeptLcd(a, b) % a.denominator == 0 && KeptLcd(a, b) % b.denominator == 0
  {
    hide LcdOf, Cut;
    var p, q, g := CommonDenominator(a.denominator, b.denominator);
    var l := LcdOf(a.denominator, b.denominator);
    CutSmall(l);
    DivModUnique(l, a.denominator, q, 0);
    DivModUnique(l, b.denominator, p, 0);
  }

  /** When the least common denominator fits, nothing is rounded and only the sums have to fit. */
  lemma SumFitsWithLcd(a: Number, b: Number)
    requires Normal(a) && Normal(b) && LcdFits(a, b)
    ensures var l := LcdOf(a.denominator, b.denominator);
      SumFits(a, b)
      <==> FractionSum(a, b, l) < TWO_64
           && a.integer + b.integer + (if FractionSum(a, b, l) >= l then 1 else 0) < TWO_64
  {
    hide LcdOf, OnLcd, Coprime, Cut;
    FittingLcdDivides(a, b);
  }

  // ---- differences ----------------------------------------------------------------------------

  /** The difference over `l`, from the fractions rounded down to it. */
  function DifferenceOn(a: Number, b: Number, l: nat): int
    requires 0 < a.denominator && 0 < b.denominator
  {
    (a.integer - b.integer) * l + (OnLcd(a, l) - OnLcd(b, l))
  }

  /** What rounding takes from the first fraction less what it takes from the second. */
  function DifferenceRest(a: Number, b: Number, l: nat): int
    requires 0 < a.denominator && 0 < b.denominator
  {
    a.numerator * b.denominator * (l % a.denominator) - b.numerator * a.denominator * (l % b.denominator)
  }

  /** What the register keeps of the least common denominator rounds both fractions by the same amount. */
  predicate RoundsAlike(a: Number, b: Number)
    requires 0 < a.denominator && 0 < b.denominator
  {
    DifferenceRest(a, b, KeptLcd(a, b)) == 0
  }

  /** The difference of the rounded fractions and what it misses make up the difference of the numbers. */
  lemma DifferenceRounds(a: Number, b: Number, l: nat)
    requires a.numerator < a.denominator && b.numerator < b.denominator && 0 < l
    ensures OnLcd(a, l) < l && OnLcd(b, l) < l
    ensures DifferenceOn(a, b, l) * (a.denominator * b.denominator) + DifferenceRest(a, b, l)
         == (Whole(a) * b.denominator - Whole(b) * a.denominator) * l
  {
    hide Whole, OnLcd;
    RoundedOver(a, b.denominator, l);
    RoundedOver(b, a.denominator, l);
    AddOver(a.integer * l + OnLcd(a, l), a.numerator * b.denominator * (l % a.denominator), Whole(a) * b.denominator,
            b.integer * l + OnLcd(b, l), b.numerator * a.denominator * (l % b.denominator), Whole(b) * a.denominator,
            a.denominator * b.denominator, l);
  }

  /** The sign of a mixed difference. */
  lemma MixedSign(i: int, m: int, l: int)
    requires -l < m < l
    ensures i * l + m < 0 <==> i < 0 || (i == 0 && m < 0)
  {
    assert i >= 1 ==> i * l >= l;
    assert i <= -1 ==> i * l + l <= 0;
  }

  /** Integer and numerator of a difference that is not negative, borrowing if need be. */
  function Borrowed(a: Number, b: Number, l: nat): (int, int)
    requires 0 < a.denominator && 0 < b.denominator
  {
    if OnLcd(a, l) >= OnLcd(b, l) then (a.integer - b.integer, OnLcd(a, l) - OnLcd(b, l))
    else (a.integer - b.integer - 1, OnLcd(a, l) - OnLcd(b, l) + l)
  }

  lemma BorrowKeeps(i: int, n: int, l: int)
    ensures (i - 1) * l + (n + l) == i * l + n
  {
  }

  lemma DifferenceForm(a: Number, b: Number, l: Word64)
    requires 0 < a.denominator && 0 < b.denominator && l == KeptLcd(a, b)
    requires OnLcd(a, l) < l && OnLcd(b, l) < l
    ensures DifferenceOn(a, b, l) < 0 ==> AddSubOf(a, b, false) == Throw(Negative)
    ensures DifferenceOn(a, b, l) >= 0 ==>
      var (i, n) := Borrowed(a, b, l);
      && 0 <= i < TWO_64 && 0 <= n < l && i * l + n == DifferenceOn(a, b, l)
      && AddSubOf(a, b, false) == Normalised(i, n, l)
  {
    hide LcdOf, OnLcd, Cut, Normalised;
    CutSmall(OnLcd(a, l));
    CutSmall(OnLcd(b, l));
    MixedSign(a.integer - b.integer, OnLcd(a, l) - OnLcd(b, l), l);
    if OnLcd(a, l) < OnLcd(b, l) {
      BorrowKeeps(a.integer - b.integer, OnLcd(a, l) - OnLcd(b, l), l);
      CutSmall(OnLcd(a, l) + l - OnLcd(b, l));
    }
  }

  /** Subtraction throws when the rounded difference is negative, and is worth it otherwise. */
  lemma DifferenceIs(a: Number, b: Number, l: Word64)
    requires 0 < a.denominator && 0 < b.denominator && l == KeptLcd(a, b) && 0 < l
    requires OnLcd(a, l) < l && OnLcd(b, l) < l
    ensures var r, c := AddSubOf(a, b, false), DifferenceOn(a, b, l);
      && (c < 0 ==> r == Throw(Negative))
      && (c >= 0 ==> r.Ok? && Normal(r.value) && 0 < r.value.denominator && Is(r.value, c, l))
  {
    hide Coprime, LcdOf, Normalised, Cut, Is, Normal, OnLcd, AddSubOf, DifferenceOn, Borrowed;
    DifferenceForm(a, b, l);
    if DifferenceOn(a, b, l) >= 0 {
      var (i, n) := Borrowed(a, b, l);
      var k, whole := NormalisedIs(i, n, l);
      SmallWhole(whole, n, l);
    }
  }

  lemma SameSign(c: int, d: int, s: int, l: int)
    requires c * d == s * l && 0 < d && 0 < l
    ensures c < 0 <==> s < 0
  {
    assert c < 0 ==> (-c) * d > 0;
    assert s < 0 ==> (-s) * l > 0;
    assert c >= 0 ==> c * d >= 0;
    assert s >= 0 ==> s * l >= 0;
  }

  /** A value `c / l` is `s / m` exactly when nothing is missing between them. */
  lemma IsWithoutRest(r: Number, c: int, l: int, s: int, m: int, rest: int)
    requires 0 < r.denominator && 0 < l && Is(r, c, l) && c * m + rest == s * l
    ensures Is(r, s, m) <==> rest == 0
  {
    hide Is;
    if Is(r, s, m) {
      SameRatioOf(r, c, l, s, m);
    }
    if rest == 0 {
      IsSameRatio(r, c, l, s, m);
    }
  }

  /**
   For all numbers, also when the least common denominator overflows: subtraction
   is exact if and only if the fractions are rounded by the same amount and the
   result would not be negative, and then a negative result throws.
   */
  lemma DifferenceExactIff(a: Number, b: Number)
    requires Normal(a) && Normal(b)
    ensures var r := AddSubOf(a, b, false);
      && (r.Ok? ==> Normal(r.value))
      && (r.Throw? ==> r.error.Negative?)
      && (r.Ok? && Is(r.value, Whole(a) * b.denominator - Whole(b) * a.denominator, a.denominator * b.denominator)
          <==> RoundsAlike(a, b) && !Below(a, b))
      && (RoundsAlike(a, b) && Below(a, b) ==> r == Throw(Negative))
  {
    hide Coprime, LcdOf, Cut, Is, Whole, OnLcd, AddSubOf, DifferenceOn, DifferenceRest;
    var l, r := KeptLcd(a, b), AddSubOf(a, b, false);
    var c, m := DifferenceOn(a, b, l), a.denominator * b.denominator;
    var s := Whole(a) * b.denominator - Whole(b) * a.denominator;
    LcdNeverVanishes(a, b);
    DifferenceRounds(a, b, l);
    DifferenceIs(a, b, l);
    PositiveProduct(a.denominator, b.denominator);
    if RoundsAlike(a, b) {
      SameSign(c, m, s, l);
    }
    if c >= 0 {
      IsWithoutRest(r.value, c, l, s, m, DifferenceRest(a, b, l));
    }
  }

  /**
   When the least common denominator fits, subtraction throws exactly when the result
   would be negative, and is exact otherwise.
   */
  lemma DifferenceExact(a: Number, b: Number)
    requires Normal(a) && Normal(b) && LcdFits(a, b)
    ensures var r := AddSubOf(a, b, false);
      && (Below(a, b) ==> r == Throw(Negative))
      && (!Below(a, b) ==>
        && r.Ok? && Normal(r.value)
        && Is(r.value, Whole(a) * b.denominator - Whole(b) * a.denominator, a.denominator * b.denominator))
  {
    hide Coprime, LcdOf, Cut, Is, Whole, AddSubOf, Below;
    RoundsAlikeWithLcd(a, b);
    DifferenceExactIff(a, b);
  }

  lemma RoundsAlikeWithLcd(a: Number, b: Number)
    requires 0 < a.denominator && 0 < b.denominator && LcdFits(a, b)
    ensures RoundsAlike(a, b)
  {
    hide LcdOf, Cut, LcdFits;
    FittingLcdDivides(a, b);
  }

  lemma GcdOfSame(d: nat)
    requires 0 < d
    ensures GcdOf(d, d) == d
  {
    DivModUnique(d, d, 1, 0);
  }

  lemma LcdOfSame(d: nat)
    requires 0 < d
    ensures LcdOf(d, d) == d
  {
    hide GcdOf;
    GcdOfSame(d);
    DivModUnique(d, d, 1, 0);
  }

  /** A number less itself keeps its denominator: only for integers is the difference the usual zero. */
  lemma SelfDifferenceIff(a: Number)
    requires Normal(a)
    ensures AddSubOf(a, a, false) == Ok(Number(0, 0, a.denominator))
    ensures AddSubOf(a, a, false) == Normalised(0, 0, 1) <==> a.denominator == 1
  {
    hide Coprime, Normalised, OnLcd, Cut;
    LcdOfSame(a.denominator);
    CutSmall(a.denominator);
    ZeroNormalised(a.denominator);
    ZeroNormalised(1);
  }

  /** No sum or difference is left that is not normal, whatever its registers drop. */
  lemma SumsAreNormal(a: Number, b: Number, isAdd: bool)
    requires 0 < a.denominator && 0 < b.denominator
    ensures var r := AddSubOf(a, b, isAdd); r.Ok? ==> Normal(r.value)
  {
    hide Normalised, Normal, Cut, LcdOf;
    forall i: Word64, n: Word64, d: Word64 {
      NormalisedNormal(i, n, d);
    }
  }
}
