/**
 Order and equality of mixed numbers, and the subtraction that undoes a sum.
 */
module RationalOrder {
  import opened Divisors
  import opened RationalModel
  import opened RationalSums

  // ---- order ----------------------------------------------------------------------------------

  lemma ProductBelow(n: nat, d: nat, q: nat)
    requires n < d && 0 < q
    ensures n * q < q * d
  {
    assert (d - n) * q > 0;
  }

  /** With different integers the fractions do not matter for the order. */
  lemma IntegersDecide(a: Number, b: Number)
    requires a.numerator < a.denominator && b.numerator < b.denominator && a.integer != b.integer
    ensures Below(a, b) <==> a.integer < b.integer
  {
    var x: int, y: int := a.denominator, b.denominator;
    ProductBelow(a.numerator, x, y);
    ProductBelow(b.numerator, y, x);
    SidesDiffer(a.integer, x, a.numerator, b.integer, y, b.numerator);
    MixedSign(a.integer - b.integer, a.numerator * y - b.numerator * x, x * y);
  }

  /**
   What rounding takes from one fraction more than from the other does not
   outweigh the distance of the rounded numerators.
   */
  predicate RoundingHarmless(a: Number, b: Number)
    requires 0 < a.denominator && 0 < b.denominator
  {
    var l := KeptLcd(a, b);
    var distance := (OnLcd(a, l) - OnLcd(b, l)) * (a.denominator * b.denominator);
    if distance < 0 then DifferenceRest(a, b, l) < -distance else -DifferenceRest(a, b, l) <= distance
  }

  lemma SignOfProduct(n: int, d: int)
    requires 0 < d
    ensures n < 0 <==> n * d < 0
  {
    assert n < 0 ==> (-n) * d > 0;
    assert n >= 0 ==> n * d >= 0;
  }

  /** For all numbers: `<` is the order of the values if and only if the integers differ or rounding is harmless. */
  lemma OrderExactIff(a: Number, b: Number)
    requires Normal(a) && Normal(b)
    ensures (LessThan(a, b) <==> Below(a, b)) <==> a.integer != b.integer || RoundingHarmless(a, b)
  {
    hide Coprime, LcdOf, Cut, Whole, OnLcd, DifferenceRest;
    if a.integer != b.integer {
      IntegersDecide(a, b);
    } else {
      var l := KeptLcd(a, b);
      LcdNeverVanishes(a, b);
      DifferenceRounds(a, b, l);
      CutSmall(OnLcd(a, l));
      CutSmall(OnLcd(b, l));
      PositiveProduct(a.denominator, b.denominator);
      SignOfProduct(OnLcd(a, l) - OnLcd(b, l), a.denominator * b.denominator);
      SignOfProduct(Whole(a) * b.denominator - Whole(b) * a.denominator, l);
    }
  }

  /** Fractions rounded by the same amount, as when the least common denominator fits, are compared right. */
  lemma OrderIsValueOrder(a: Number, b: Number)
    requires Normal(a) && Normal(b) && (a.integer == b.integer ==> RoundsAlike(a, b))
    ensures LessThan(a, b) <==> Below(a, b)
  {
    hide Coprime, LcdOf, Cut, Whole, Below, OnLcd, DifferenceRest, LessThan;
    OrderExactIff(a, b);
  }

  /** Two fractions just above 2^-32, whose least common denominator is just above 2^64. */
  const SMALLER := Number(0, 1, 0x1_0000_0003)
  const LARGER := Number(0, 1, 0x1_0000_0001)

  lemma SmallLcd()
    ensures LcdOf(0x1_0000_0003, 0x1_0000_0001) == 0x1_0000_0004_0000_0003
    ensures Cut(0x1_0000_0004_0000_0003) == 0x4_0000_0003
    ensures OnLcd(SMALLER, 0x4_0000_0003) == OnLcd(LARGER, 0x4_0000_0003) == 3
  {
    assert GcdOf(2, 1) == GcdOf(1, 0) == 1;
    assert GcdOf(0x1_0000_0001, 2) == GcdOf(2, 1);
    assert GcdOf(0x1_0000_0003, 0x1_0000_0001) == GcdOf(0x1_0000_0001, 2);
  }

  lemma OneIsNormal(d: Word64)
    requires 1 < d
    ensures Normal(Number(0, 1, d))
  {
    forall k: nat | Divides(k, 1) && Divides(k, d)
      ensures k == 1
    {
      DivisorNotAbove(k, 1);
    }
  }

  /** When the least common denominator does not fit, `<` and the sign check of subtraction can be wrong. */
  lemma OrderNeedsLcd()
    ensures Normal(SMALLER) && Normal(LARGER) && !LcdFits(SMALLER, LARGER)
    ensures Below(SMALLER, LARGER) && !LessThan(SMALLER, LARGER)
    ensures AddSubOf(SMALLER, LARGER, false) == Ok(Number(0, 0, 0x4_0000_0003))
  {
    hide LcdOf, OnLcd, Normal, Cut, Normalised;
    SmallLcd();
    OneIsNormal(0x1_0000_0003);
    OneIsNormal(0x1_0000_0001);
    CutSmall(3);
    ZeroNormalised(0x4_0000_0003);
  }

  // ---- equality -------------------------------------------------------------------------------

  lemma SidesDiffer(i: int, x: int, n: int, j: int, y: int, m: int)
    ensures (i * x + n) * y - (j * y + m) * x == (i - j) * (x * y) + n * y - m * x
  {
    assert (i * x + n) * y == i * (x * y) + n * y;
    assert (j * y + m) * x == j * (x * y) + m * x;
  }

  lemma ParityOfSides(d: int, m: nat, u: nat, v: nat)
    requires u < m && v < m
    ensures d * m + u - v == 0 <==> d == 0 && u == v
  {
    assert d >= 1 ==> d * m >= m;
    assert d <= -1 ==> d * m + m <= 0;
  }

  lemma SameParts(a: Number, b: Number)
    requires a.numerator < a.denominator && b.numerator < b.denominator
    ensures SameValue(a, b) <==> a.integer == b.integer && a.numerator * b.denominator == b.numerator * a.denominator
  {
    hide Coprime;
    var x: int, y: int := a.denominator, b.denominator;
    ProductBelow(a.numerator, x, y);
    ProductBelow(b.numerator, y, x);
    SidesDiffer(a.integer, x, a.numerator, b.integer, y, b.numerator);
    ParityOfSides(a.integer - b.integer, x * y, a.numerator * y, b.numerator * x);
  }

  lemma ZeroTogether(m: nat, d: nat, n: nat, e: nat)
    requires m * d == n * e && 0 < d && 0 < e
    ensures m == 0 <==> n == 0
  {
    assert m > 0 ==> m * d > 0;
    assert n > 0 ==> n * e > 0;
  }

  /** `==` is equality of the values, except that zero fractions also compare the denominators they have left. */
  lemma EqualIffSameValue(a: Number, b: Number)
    requires Normal(a) && Normal(b)
    ensures a == b <==> SameValue(a, b) && (0 < a.numerator || a.denominator == b.denominator)
  {
    hide Coprime, Whole, SameValue;
    SameParts(a, b);
    if SameValue(a, b) {
      ZeroTogether(a.numerator, b.denominator, b.numerator, a.denominator);
      if 0 < a.numerator {
        LowestTermsUnique(a.numerator, a.denominator, b.numerator, b.denominator);
      }
    }
  }

  // ---- sums undone ----------------------------------------------------------------------------

  lemma SameValueCommutes(a: Number, b: Number)
    ensures SameValue(a, b) <==> SameValue(b, a)
  {
  }

  /** If `ws / z` is `wa / x + wb / y` then `ws / z` less `wb / y` is `wa / x`. */
  lemma LessB(ws: int, z: int, wa: int, x: int, wb: int, y: int)
    requires ws * (x * y) == (wa * y + wb * x) * z
    ensures (ws * y - wb * z) * x == wa * (z * y)
  {
    assert ws * (x * y) == ws * y * x;
    assert (wa * y + wb * x) * z == wa * (z * y) + wb * z * x;
    assert (ws * y - wb * z) * x == ws * y * x - wb * z * x;
  }

  lemma FactorSign(d: int, x: int, p: int)
    requires d * x == p && 0 < x && 0 <= p
    ensures 0 <= d
  {
    assert d < 0 ==> (-d) * x > 0;
  }

  lemma ThreeFactors(wa: nat, z: nat, y: nat)
    ensures 0 <= wa * (z * y)
    ensures 0 < z && 0 < y ==> 0 < z * y
  {
    assert 0 <= z * y;
  }

  lemma SumNotBelow(s: Number, a: Number, b: Number)
    requires 0 < s.denominator && 0 < a.denominator && 0 < b.denominator
    requires Is(s, Whole(a) * b.denominator + Whole(b) * a.denominator, a.denominator * b.denominator)
    ensures !Below(s, b)
  {
    hide Whole;
    var x: int, y: int, z: int := a.denominator, b.denominator, s.denominator;
    LessB(Whole(s), z, Whole(a), x, Whole(b), y);
    ThreeFactors(Whole(a), z, y);
    FactorSign(Whole(s) * y - Whole(b) * z, x, Whole(a) * (z * y));
  }

  /** `(a + b) - b` has the value of `a` exactly when the subtraction is exact. */
  lemma CancelB(r: Number, s: Number, a: Number, b: Number)
    requires 0 < r.denominator && 0 < s.denominator && 0 < a.denominator && 0 < b.denominator
    requires Is(s, Whole(a) * b.denominator + Whole(b) * a.denominator, a.denominator * b.denominator)
    ensures Is(r, Whole(s) * b.denominator - Whole(b) * s.denominator, s.denominator * b.denominator)
            <==> SameValue(r, a)
  {
    hide Whole;
    var x: int, y: int, z: int := a.denominator, b.denominator, s.denominator;
    var d := Whole(s) * y - Whole(b) * z;
    LessB(Whole(s), z, Whole(a), x, Whole(b), y);
    ThreeFactors(Whole(a), z, y);
    if Is(r, d, z * y) {
      IsSameRatio(r, d, z * y, Whole(a), x);
    }
    if SameValue(r, a) {
      assert Is(r, Whole(a), x);
      IsSameRatio(r, Whole(a), x, d, z * y);
    }
  }

  /**
   When the sum is exact, subtracting a number again gives the value of the other
   back if and only if the fractions are rounded by the same amount, and then the
   very number if it has a fraction.
   */
  lemma SumUndoneIff(a: Number, b: Number, s: Number)
    requires Normal(a) && Normal(b) && SumFits(a, b) && AddSubOf(a, b, true) == Ok(s)
    ensures 0 < s.denominator
    ensures var r := AddSubOf(s, b, false);
      && (r.Ok? && SameValue(r.value, a) <==> RoundsAlike(s, b))
      && (RoundsAlike(s, b) && 0 < a.numerator ==> r.value == a)
  {
    hide Coprime, LcdOf, AddSubOf, Whole, SumFits, Is, SameValue, Below, RoundsAlike;
    SumExactIff(a, b);
    DifferenceExactIff(s, b);
    SumNotBelow(s, a, b);
    var r := AddSubOf(s, b, false);
    if r.Ok? {
      CancelB(r.value, s, a, b);
      SameValueCommutes(a, r.value);
      EqualIffSameValue(a, r.value);
    }
  }
}
