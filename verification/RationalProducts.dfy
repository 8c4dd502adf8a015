/**
 Products and quotients: exact when the cross-reduced products fit their
 registers, and for numbers as they are usually made only then.
 */
module RationalProducts {
  import opened Modular
  import opened Divisors
  import opened RationalModel

  predicate WholesFit(a: Number, b: Number) {
    Whole(a) < TWO_64 && Whole(b) < TWO_64
  }

  /** The numerators and denominators that cross reduction leaves, multiplied, fit their registers. */
  predicate ProductFits(x: Fraction, y: Fraction) {
    x.top * y.top < TWO_64 && y.bottom * x.bottom < TWO_64
  }

  predicate MulFits(a: Number, b: Number)
    requires WholesFit(a, b)
  {
    var x, y := Reduced(Whole(a), b.denominator), Reduced(Whole(b), a.denominator);
    x.Ok? && y.Ok? ==> ProductFits(x.value, y.value)
  }

  predicate DivFits(a: Number, b: Number)
    requires WholesFit(a, b)
  {
    var x, y := Reduced(Whole(a), Whole(b)), Reduced(a.denominator, b.denominator);
    x.Ok? && y.Ok? ==> x.value.top * y.value.bottom < TWO_64 && y.value.top * x.value.bottom < TWO_64
  }

  lemma WholeFits(whole: nat, n: nat, d: nat)
    requires whole * d <= n && 0 < d
    ensures whole <= n
  {
    assert whole * (d - 1) >= 0;
  }

  /** A normalised fraction is worth what it was made of. */
  lemma FractionExact(n: Word64, d: Word64)
    requires 0 < d
    ensures var r := Normalised(0, n, d); r.Ok? && Normal(r.value) && Is(r.value, n, d)
  {
    hide Coprime, Normalised, Is, Cut;
    var whole := NormalisedParts(0, n, d);
    WholeFits(whole, n, d);
    CutSmall(whole);
    ValueOver(Normalised(0, n, d).value, 0, whole, n, d);
  }

  /** Cross reduction keeps the ratio. */
  lemma CrossRatio(w1: nat, e2: nat, x: nat, y: nat, w2: nat, e1: nat, u: nat, v: nat)
    requires x * e2 == w1 * y && u * e1 == w2 * v
    ensures (x * u) * (e1 * e2) == (w1 * w2) * (v * y)
  {
    assert (x * u) * (e1 * e2) == (x * e2) * (u * e1) == (w1 * y) * (w2 * v) == (w1 * w2) * (v * y);
  }

  lemma RatioFlips(y: Fraction, i1: nat, i2: nat)
    requires y.top * i2 == i1 * y.bottom
    ensures y.bottom * i1 == i2 * y.top
  {
  }

  /** A fraction that fits its registers is normalised to any other fraction of its value. */
  lemma FittingFraction(n: nat, d: nat, w: nat, m: nat)
    requires n < TWO_64 && 0 < d < TWO_64 && n * m == w * d
    ensures var r := Normalised(0, Cut(n), Cut(d)); r.Ok? && Normal(r.value) && Is(r.value, w, m)
  {
    hide Coprime, Normalised, Is, Cut;
    CutSmall(n);
    CutSmall(d);
    FractionExact(n, d);
    IsSameRatio(Normalised(0, n, d).value, n, d, w, m);
  }

  /** Cross-reduced fractions whose products fit are normalised to the product of what they were reduced from. */
  lemma CrossFraction(x: Fraction, y: Fraction, w1: nat, e2: nat, w2: nat, e1: nat)
    requires 0 < x.bottom && 0 < y.bottom && ProductFits(x, y)
    requires x.top * e2 == w1 * x.bottom && y.top * e1 == w2 * y.bottom
    ensures var r := Normalised(0, Cut(x.top * y.top), Cut(y.bottom * x.bottom));
      r.Ok? && Normal(r.value) && Is(r.value, w1 * w2, e1 * e2)
  {
    hide Coprime, Normalised, Is, Cut, Normal;
    PositiveProduct(y.bottom, x.bottom);
    CrossRatio(w1, e2, x.top, x.bottom, w2, e1, y.top, y.bottom);
    FittingFraction(x.top * y.top, y.bottom * x.bottom, w1 * w2, e1 * e2);
  }

  lemma ProductExact(a: Number, b: Number)
    requires Normal(a) && Normal(b) && WholesFit(a, b) && MulFits(a, b)
    ensures var r := MulDivOf(a, b, true);
      r.Ok? && Normal(r.value) && Is(r.value, Whole(a) * Whole(b), a.denominator * b.denominator)
  {
    hide Coprime, Normalised, Reduced, Is, Cut, Whole, ProductFits;
    CutSmall(Whole(a));
    CutSmall(Whole(b));
    ReducedRatio(Whole(a), b.denominator);
    ReducedRatio(Whole(b), a.denominator);
    CrossFraction(Reduced(Whole(a), b.denominator).value, Reduced(Whole(b), a.denominator).value,
                  Whole(a), b.denominator, Whole(b), a.denominator);
  }

  lemma PositiveQuotient(a: Number, b: Number)
    requires Normal(a) && Normal(b) && WholesFit(a, b) && DivFits(a, b) && 0 < Whole(b)
    ensures var r := MulDivOf(a, b, false);
      r.Ok? && Normal(r.value) && Is(r.value, Whole(a) * b.denominator, a.denominator * Whole(b))
  {
    hide Coprime, Normalised, Reduced, Is, Cut, Whole;
    CutSmall(Whole(a));
    CutSmall(Whole(b));
    ReducedRatio(Whole(a), Whole(b));
    ReducedRatio(a.denominator, b.denominator);
    var x, y := Reduced(Whole(a), Whole(b)).value, Reduced(a.denominator, b.denominator).value;
    RatioFlips(y, a.denominator, b.denominator);
    CrossFraction(x, Fraction(y.bottom, y.top), Whole(a), Whole(b), b.denominator, a.denominator);
  }

  lemma ByZero(a: Number, b: Number)
    requires 0 < a.denominator && 0 < b.denominator && Whole(a) < TWO_64 && Whole(b) == 0
    ensures MulDivOf(a, b, false) == Throw(if Whole(a) == 0 then ZeroDenominator else DivisionByZero)
  {
    hide GcdOf, Whole;
    ReducedRatio(a.denominator, b.denominator);
  }

  /** Division throws exactly when the divisor is zero, and is exact otherwise. */
  lemma QuotientExact(a: Number, b: Number)
    requires Normal(a) && Normal(b) && WholesFit(a, b) && DivFits(a, b)
    ensures var r := MulDivOf(a, b, false);
      && (Whole(b) == 0 ==> r == Throw(if Whole(a) == 0 then ZeroDenominator else DivisionByZero))
      && (Whole(b) > 0 ==>
        && r.Ok? && Normal(r.value)
        && Is(r.value, Whole(a) * b.denominator, a.denominator * Whole(b)))
  {
    hide Coprime, Reduced, Is, Cut, Whole, MulDivOf, DivFits;
    if Whole(b) == 0 {
      ByZero(a, b);
    } else {
      PositiveQuotient(a, b);
    }
  }

  // ---- when a product fits --------------------------------------------------------------------

  /**
   A normal number whose fraction, if zero, is over one, as every number is made unless
   its numerator is given as zero.
   */
  ghost predicate Canonical(x: Number) {
    Normal(x) && (x.numerator == 0 ==> x.denominator == 1)
  }

  lemma WholeCoprime(x: Number)
    requires Canonical(x)
    ensures Coprime(Whole(x), x.denominator)
  {
    hide Divides;
    forall d: nat | Divides(d, Whole(x)) && Divides(d, x.denominator)
      ensures d == 1
    {
      if x.numerator == 0 {
        DivisorNotAbove(d, 1);
      } else {
        DividesSum(d, x.denominator, x.integer, x.numerator, Whole(x));
      }
    }
  }

  /** What reducing leaves are divisors of what it was given. */
  lemma ReducedDivides(i1: Word64, i2: Word64)
    requires 0 < i1 && 0 < i2
    ensures var r := Reduced(i1, i2); r.Ok? && Divides(r.value.top, i1) && Divides(r.value.bottom, i2)
  {
    hide GcdOf, Coprime;
    var g := GcdOf(i1, i2);
    var p, q := GcdSplits(i1, i2);
    DivModUnique(i1, g, p, 0);
    DivModUnique(i2, g, q, 0);
    MultipleOf(g, p, i1);
    MultipleOf(g, q, i2);
  }

  /** No smaller fraction has the value of one in lowest terms. */
  lemma LowestIsLeast(n: nat, d: nat, m: nat, e: nat)
    requires Coprime(n, d) && n * e == m * d && 0 < e && e <= d
    ensures n == m && d == e
  {
    hide Coprime, Divides;
    CoprimeCommutes(n, d);
    MultipleOf(m, d, n * e);
    Gauss(d, n, e);
    DivisorNotAbove(d, e);
    SameFactor(n, m, d);
  }

  /** A fraction in lowest terms survives being cut to registers exactly when it fits them. */
  lemma CutFractionIff(n: nat, d: nat)
    requires 0 < n && 0 < d && Coprime(n, d)
    ensures var r := Normalised(0, Cut(n), Cut(d)); r.Ok? && Is(r.value, n, d) <==> n < TWO_64 && d < TWO_64
  {
    hide Coprime, Normalised, Is, Cut;
    var r := Normalised(0, Cut(n), Cut(d));
    if n < TWO_64 && d < TWO_64 {
      CutSmall(n);
      CutSmall(d);
      FractionExact(n, d);
    } else if Cut(d) == 0 {
      NoDenominator(Cut(n));
    } else {
      FractionExact(Cut(n), Cut(d));
      if Is(r.value, n, d) {
        CutBelow(n);
        CutBelow(d);
        SameRatioOf(r.value, n, d, Cut(n), Cut(d));
        LowestIsLeast(n, d, Cut(n), Cut(d));
      }
    }
  }

  lemma CutProductIff(n: nat, d: nat, w: nat, m: nat)
    requires 0 < n && 0 < d && 0 < m && Coprime(n, d) && n * m == w * d
    ensures var r := Normalised(0, Cut(n), Cut(d)); r.Ok? && Is(r.value, w, m) <==> n < TWO_64 && d < TWO_64
  {
    hide Coprime, Normalised, Is, Cut;
    CutFractionIff(n, d);
    var r := Normalised(0, Cut(n), Cut(d));
    if r.Ok? {
      if Is(r.value, n, d) {
        IsSameRatio(r.value, n, d, w, m);
      }
      if Is(r.value, w, m) {
        IsSameRatio(r.value, w, m, n, d);
      }
    }
  }

  /** Two fractions cross-reduced from numbers in lowest terms have products in lowest terms, of the same ratio. */
  lemma CrossLowest(w1: nat, e2: nat, x: Fraction, w2: nat, e1: nat, y: Fraction)
    requires 0 < w1 && 0 < e2 && 0 < w2 && 0 < e1
    requires Divides(x.top, w1) && Divides(x.bottom, e2) && Coprime(x.top, x.bottom) && x.top * e2 == w1 * x.bottom
    requires Divides(y.top, w2) && Divides(y.bottom, e1) && Coprime(y.top, y.bottom) && y.top * e1 == w2 * y.bottom
    requires Coprime(w1, e1) && Coprime(w2, e2)
    ensures var n, d := x.top * y.top, y.bottom * x.bottom;
      0 < n && 0 < d && Coprime(n, d) && n * (e1 * e2) == (w1 * w2) * d
  {
    hide Coprime, Divides;
    CoprimeDivisors(x.top, w1, y.bottom, e1);
    CoprimeDivisors(y.top, w2, x.bottom, e2);
    CoprimeProducts(x.top, y.top, y.bottom, x.bottom);
    CrossRatio(w1, e2, x.top, x.bottom, w2, e1, y.top, y.bottom);
    DivisorNotAbove(x.top, w1);
    DivisorNotAbove(y.top, w2);
    DivisorNotAbove(x.bottom, e2);
    DivisorNotAbove(y.bottom, e1);
    PositiveProduct(x.top, y.top);
    PositiveProduct(y.bottom, x.bottom);
  }

  lemma PositiveProductIff(a: Number, b: Number)
    requires Canonical(a) && Canonical(b) && WholesFit(a, b) && 0 < Whole(a) && 0 < Whole(b)
    ensures var r := MulDivOf(a, b, true);
      r.Ok? && Is(r.value, Whole(a) * Whole(b), a.denominator * b.denominator) <==> MulFits(a, b)
  {
    hide Coprime, Normalised, Reduced, Is, Cut, Whole, Divides;
    ReducedRatio(Whole(a), b.denominator);
    ReducedRatio(Whole(b), a.denominator);
    var x, y := Reduced(Whole(a), b.denominator).value, Reduced(Whole(b), a.denominator).value;
    CutSmall(Whole(a));
    CutSmall(Whole(b));
    WholeCoprime(a);
    WholeCoprime(b);
    ReducedDivides(Whole(a), b.denominator);
    ReducedDivides(Whole(b), a.denominator);
    CrossLowest(Whole(a), b.denominator, x, Whole(b), a.denominator, y);
    PositiveProduct(a.denominator, b.denominator);
    CutProductIff(x.top * y.top, y.bottom * x.bottom, Whole(a) * Whole(b), a.denominator * b.denominator);
  }

  lemma ZeroOverOne(x: Number)
    requires Canonical(x) && Whole(x) == 0
    ensures x.denominator == 1
  {
    hide Times, Coprime;
  }

  /** Reducing a zero, or by one, leaves a denominator that is there already. */
  lemma ReducedZero(i: Word64)
    requires 0 < i
    ensures Reduced(0, i) == Ok(Fraction(0, i))
    ensures Reduced(i, 1) == Ok(Fraction(i, 1)) && Reduced(1, i) == Ok(Fraction(1, i))
  {
    ReducedRatio(i, 1);
    ReducedRatio(1, i);
    var r := Reduced(1, i).value;
    assert r.top * i == r.bottom;
    assert r.top >= 2 ==> r.top * i >= 2 * i;
  }

  lemma ZeroFits(a: Number, b: Number)
    requires Canonical(a) && Canonical(b) && WholesFit(a, b)
    ensures Whole(a) == 0 || Whole(b) == 0 ==> MulFits(a, b)
    ensures Whole(a) == 0 && 0 < Whole(b) ==> DivFits(a, b)
  {
    hide Coprime, Reduced, Whole;
    if Whole(a) == 0 {
      ZeroOverOne(a);
      ReducedZero(b.denominator);
      if 0 < Whole(b) {
        ReducedZero(Whole(b));
      }
    }
    if Whole(b) == 0 {
      ZeroOverOne(b);
      ReducedZero(a.denominator);
      if 0 < Whole(a) {
        ReducedZero(Whole(a));
      }
    }
  }

  /** For canonical operands whose values fit, the product is exact if and only if the cross-reduced products fit. */
  lemma ProductExactIff(a: Number, b: Number)
    requires Canonical(a) && Canonical(b) && WholesFit(a, b)
    ensures var r := MulDivOf(a, b, true);
      r.Ok? && Is(r.value, Whole(a) * Whole(b), a.denominator * b.denominator) <==> MulFits(a, b)
  {
    hide Coprime, Normalised, Reduced, Is, Cut, Whole, MulDivOf, MulFits;
    if Whole(a) == 0 || Whole(b) == 0 {
      ZeroFits(a, b);
      ProductExact(a, b);
    } else {
      PositiveProductIff(a, b);
    }
  }

  lemma PositiveQuotientIff(a: Number, b: Number)
    requires Canonical(a) && Canonical(b) && WholesFit(a, b) && 0 < Whole(a) && 0 < Whole(b)
    ensures var r := MulDivOf(a, b, false);
      r.Ok? && Is(r.value, Whole(a) * b.denominator, a.denominator * Whole(b)) <==> DivFits(a, b)
  {
    hide Coprime, Normalised, Reduced, Is, Cut, Whole, Divides;
    ReducedRatio(Whole(a), Whole(b));
    ReducedRatio(a.denominator, b.denominator);
    var x, y := Reduced(Whole(a), Whole(b)).value, Reduced(a.denominator, b.denominator).value;
    CutSmall(Whole(a));
    CutSmall(Whole(b));
    WholeCoprime(a);
    WholeCoprime(b);
    CoprimeCommutes(Whole(b), b.denominator);
    CoprimeCommutes(y.top, y.bottom);
    ReducedDivides(Whole(a), Whole(b));
    ReducedDivides(a.denominator, b.denominator);
    RatioFlips(y, a.denominator, b.denominator);
    CrossLowest(Whole(a), Whole(b), x, b.denominator, a.denominator, Fraction(y.bottom, y.top));
    PositiveProduct(a.denominator, Whole(b));
    CutProductIff(x.top * y.bottom, y.top * x.bottom, Whole(a) * b.denominator, a.denominator * Whole(b));
  }

  /** The same for the quotient by a number that is not zero. */
  lemma QuotientExactIff(a: Number, b: Number)
    requires Canonical(a) && Canonical(b) && WholesFit(a, b) && 0 < Whole(b)
    ensures var r := MulDivOf(a, b, false);
      r.Ok? && Is(r.value, Whole(a) * b.denominator, a.denominator * Whole(b)) <==> DivFits(a, b)
  {
    hide Coprime, Normalised, Reduced, Is, Cut, Whole, MulDivOf, DivFits;
    if Whole(a) == 0 {
      ZeroFits(a, b);
      QuotientExact(a, b);
    } else {
      PositiveQuotientIff(a, b);
    }
  }

  // ---- for all operands ---------------------------------------------------------------------------

  /** Registers that drop something of a fraction drop it in proportion. */
  predicate KeepsRatio(n: nat, d: nat) {
    0 < Cut(d) && Cut(n) * d == n * Cut(d)
  }

  /** A fraction cut to registers is normalised to its value exactly when they keep its ratio. */
  lemma CutRatioIff(n: nat, d: nat, w: nat, m: nat)
    requires 0 < d && 0 < m && n * m == w * d
    ensures var r := Normalised(0, Cut(n), Cut(d)); r.Ok? && Is(r.value, w, m) <==> KeepsRatio(n, d)
  {
    hide Coprime, Normalised, Is, Cut;
    var r := Normalised(0, Cut(n), Cut(d));
    if Cut(d) == 0 {
      NoDenominator(Cut(n));
    } else {
      FractionExact(Cut(n), Cut(d));
      if Is(r.value, w, m) {
        IsSameRatio(r.value, w, m, n, d);
        SameRatioOf(r.value, n, d, Cut(n), Cut(d));
      }
      if KeepsRatio(n, d) {
        IsSameRatio(r.value, Cut(n), Cut(d), n, d);
        IsSameRatio(r.value, n, d, w, m);
      }
    }
  }

  /** The products of numerators and of denominators that cross reduction leaves. */
  function CrossProducts(x: Fraction, y: Fraction): (nat, nat) {
    (x.top * y.top, y.bottom * x.bottom)
  }

  lemma CrossProductsIff(x: Fraction, y: Fraction, w1: nat, e2: nat, w2: nat, e1: nat)
    requires 0 < x.bottom && 0 < y.bottom && 0 < e1 && 0 < e2
    requires x.top * e2 == w1 * x.bottom && y.top * e1 == w2 * y.bottom
    ensures var (n, d) := CrossProducts(x, y);
      var r := Normalised(0, Cut(n), Cut(d)); r.Ok? && Is(r.value, w1 * w2, e1 * e2) <==> KeepsRatio(n, d)
  {
    hide Normalised, Is, Cut, KeepsRatio;
    PositiveProduct(y.bottom, x.bottom);
    PositiveProduct(e1, e2);
    CrossRatio(w1, e2, x.top, x.bottom, w2, e1, y.top, y.bottom);
    CutRatioIff(x.top * y.top, y.bottom * x.bottom, w1 * w2, e1 * e2);
  }

  /** For all operands whose values fit, zero fractions over any denominator included. */
  lemma ProductExactForAll(a: Number, b: Number)
    requires Normal(a) && Normal(b) && WholesFit(a, b)
    ensures Reduced(Whole(a), b.denominator).Ok? && Reduced(Whole(b), a.denominator).Ok?
    ensures var (n, d) := CrossProducts(Reduced(Whole(a), b.denominator).value, Reduced(Whole(b), a.denominator).value);
      var r := MulDivOf(a, b, true);
      r.Ok? && Is(r.value, Whole(a) * Whole(b), a.denominator * b.denominator) <==> KeepsRatio(n, d)
  {
    hide Coprime, Normalised, Reduced, Is, Cut, Whole, KeepsRatio;
    CutSmall(Whole(a));
    CutSmall(Whole(b));
    ReducedRatio(Whole(a), b.denominator);
    ReducedRatio(Whole(b), a.denominator);
    CrossProductsIff(Reduced(Whole(a), b.denominator).value, Reduced(Whole(b), a.denominator).value,
                     Whole(a), b.denominator, Whole(b), a.denominator);
  }

  lemma QuotientExactForAll(a: Number, b: Number)
    requires Normal(a) && Normal(b) && WholesFit(a, b) && 0 < Whole(b)
    ensures Reduced(Whole(a), Whole(b)).Ok? && Reduced(a.denominator, b.denominator).Ok?
    ensures var x, y := Reduced(Whole(a), Whole(b)).value, Reduced(a.denominator, b.denominator).value;
      var (n, d) := CrossProducts(x, Fraction(y.bottom, y.top));
      var r := MulDivOf(a, b, false);
      r.Ok? && Is(r.value, Whole(a) * b.denominator, a.denominator * Whole(b)) <==> KeepsRatio(n, d)
  {
    hide Coprime, Normalised, Reduced, Is, Cut, Whole, KeepsRatio;
    CutSmall(Whole(a));
    CutSmall(Whole(b));
    ReducedRatio(Whole(a), Whole(b));
    ReducedRatio(a.denominator, b.denominator);
    var x, y := Reduced(Whole(a), Whole(b)).value, Reduced(a.denominator, b.denominator).value;
    RatioFlips(y, a.denominator, b.denominator);
    CrossProductsIff(x, Fraction(y.bottom, y.top), Whole(a), Whole(b), b.denominator, a.denominator);
  }

  /** A zero that has kept a large denominator can overflow and still be zero: the condition is not necessary for it. */
  lemma ZeroSurvivesOverflow()
    ensures var zero := Number(0, 0, 3 * 0x8000_0000);
      Normal(zero) && WholesFit(zero, zero) && !MulFits(zero, zero)
      && MulDivOf(zero, zero, true) == Ok(Number(0, 0, 0x4000_0000_0000_0000))
  {
    assert Reduced(0, 3 * 0x8000_0000) == Ok(Fraction(0, 3 * 0x8000_0000));
  }

  /** No product or quotient is left that is not normal, whatever its registers drop. */
  lemma ProductsAreNormal(a: Number, b: Number, isMultiply: bool)
    ensures var r := MulDivOf(a, b, isMultiply); r.Ok? ==> Normal(r.value)
  {
    hide Normalised, Normal, Cut, Reduced, Whole;
    forall i: Word64, n: Word64, d: Word64 {
      NormalisedNormal(i, n, d);
    }
  }
}
