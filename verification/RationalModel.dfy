/**
 Mixed numbers of unsigned 64-bit parts: an integer and a fraction below one,
 kept in lowest terms by Euclid's algorithm.  The operations as functions, and
 what normalising leaves; `RationalSums`, `RationalOrder` and `RationalProducts`
 have the theorems.
 */
module RationalModel {
  import opened Modular
  import opened Divisors

  const TWO_64 := 0x1_0000_0000_0000_0000

  type Word64 = x: nat | x < TWO_64

  /** What a 64-bit register keeps of a number. */
  function Cut(x: int): Word64 {
    x % TWO_64
  }

  datatype Error = ZeroDenominator | DivisionByZero | Negative

  datatype Result<+T> = Ok(value: T) | Throw(error: Error)

  datatype Fraction = Fraction(top: Word64, bottom: Word64)

  datatype Number = Number(integer: Word64, numerator: Word64, denominator: Word64)

  // ---- the operations -------------------------------------------------------------------------

  /** The least common denominator, before a register cuts it. */
  function LcdOf(d1: nat, d2: nat): nat
    requires 0 < d1
  {
    d1 / GcdOf(d1, d2) * d2
  }

  function Divided(i: Word64, g: nat): Word64
    requires 0 < g
  {
    QuotientNotAbove(i, g);
    i / g
  }

  lemma QuotientNotAbove(i: nat, g: nat)
    requires 0 < g
    ensures 0 <= i / g <= i
  {
    ProductNotBelow(i / g, g, i % g, i);
  }

  lemma ProductNotBelow(q: int, g: nat, r: nat, i: nat)
    requires i == q * g + r && r < g
    ensures 0 <= q <= i
  {
    assert q < 0 ==> q * g + g <= 0;
    assert q >= 0 ==> q * (g - 1) >= 0;
  }

  /** `reduce`. */
  function Reduced(i1: Word64, i2: Word64): Result<Fraction> {
    if i1 == 0 then Ok(Fraction(i1, i2))
    else if i2 == 0 then Throw(DivisionByZero)
    else Ok(Fraction(Divided(i1, GcdOf(i1, i2)), Divided(i2, GcdOf(i1, i2))))
  }

  /** `init`. */
  function Normalised(integer: Word64, numerator: Word64, denominator: Word64): Result<Number> {
    if denominator == 0 then Throw(ZeroDenominator)
    else
      match Reduced(numerator, denominator)
      case Throw(e) => Throw(e)
      case Ok(f) =>
        if f.bottom == 0 then Throw(ZeroDenominator)
        else Ok(Number(Cut(integer + f.top / f.bottom), f.top % f.bottom, f.bottom))
  }

  /** The numerator over a multiple of the denominator. */
  function OnLcd(x: Number, l: nat): nat
    requires 0 < x.denominator
  {
    Times(x.numerator, l / x.denominator)
  }

  /** `add_sub`. */
  function AddSubOf(a: Number, b: Number, isAdd: bool): Result<Number>
    requires 0 < a.denominator && 0 < b.denominator
  {
    var l := Cut(LcdOf(a.denominator, b.denominator));
    var n1, n2 := Cut(OnLcd(a, l)), Cut(OnLcd(b, l));
    if isAdd then Normalised(Cut(a.integer + b.integer), Cut(n1 + n2), l)
    else if a.integer < b.integer then Throw(Negative)
    else if n1 >= n2 then Normalised(a.integer - b.integer, n1 - n2, l)
    else if a.integer == b.integer then Throw(Negative)
    else Normalised(a.integer - b.integer - 1, Cut(n1 + l - n2), l)
  }

  /** The number over its own denominator. */
  function Whole(x: Number): nat {
    Times(x.integer, x.denominator) + x.numerator
  }

  /** `mul_div`. */
  function MulDivOf(a: Number, b: Number, isMultiply: bool): Result<Number> {
    var w1, w2 := Cut(Whole(a)), Cut(Whole(b));
    if isMultiply then
      match Reduced(w1, b.denominator)
      case Throw(e) => Throw(e)
      case Ok(x) =>
        match Reduced(w2, a.denominator)
        case Throw(e) => Throw(e)
        case Ok(y) => Normalised(0, Cut(x.top * y.top), Cut(y.bottom * x.bottom))
    else
      match Reduced(w1, w2)
      case Throw(e) => Throw(e)
      case Ok(x) =>
        match Reduced(a.denominator, b.denominator)
        case Throw(e) => Throw(e)
        case Ok(y) => Normalised(0, Cut(x.top * y.bottom), Cut(y.top * x.bottom))
  }

  /** `operator<`. */
  function LessThan(a: Number, b: Number): bool
    requires 0 < a.denominator && 0 < b.denominator
  {
    if a.integer == b.integer then
      var l := Cut(LcdOf(a.denominator, b.denominator));
      Cut(OnLcd(a, l)) < Cut(OnLcd(b, l))
    else a.integer < b.integer
  }

  // ---- values ---------------------------------------------------------------------------------

  /** A fraction below one, in lowest terms unless it is zero: what every operation leaves. */
  ghost predicate Normal(x: Number) {
    && x.numerator < x.denominator
    && (0 < x.numerator ==> Coprime(x.numerator, x.denominator))
  }

  /** The number is `n / d`. */
  predicate Is(x: Number, n: int, d: int) {
    Whole(x) * d == n * x.denominator
  }

  /** One number is below another. */
  predicate Below(a: Number, b: Number) {
    Whole(a) * b.denominator < Whole(b) * a.denominator
  }

  predicate SameValue(a: Number, b: Number) {
    Whole(a) * b.denominator == Whole(b) * a.denominator
  }

  lemma IsUnique(x: Number, n1: int, n2: int, d: int)
    requires 0 < x.denominator && Is(x, n1, d) && Is(x, n2, d)
    ensures n1 == n2
  {
    hide Whole;
    SameFactor(n1, n2, x.denominator);
  }

  /** If `w / q` is `n / d` and `n / d` is `m / e`, then `w / q` is `m / e`. */
  lemma RatioCancels(w: int, q: int, n: int, d: int, m: int, e: int)
    requires 0 < d && w * d == n * q && n * e == m * d
    ensures w * e == m * q
  {
    Swap(w, e, d);
    Swap(n, q, e);
    Swap(m, q, d);
    SameFactor(w * e, m * q, d);
  }

  /** One value over two denominators. */
  lemma IsSameRatio(x: Number, n: int, d: int, m: int, e: int)
    requires 0 < d && Is(x, n, d) && n * e == m * d
    ensures Is(x, m, e)
  {
    hide Whole;
    RatioCancels(Whole(x), x.denominator, n, d, m, e);
  }

  lemma SameRatioOf(x: Number, n: int, d: int, m: int, e: int)
    requires 0 < x.denominator && Is(x, n, d) && Is(x, m, e)
    ensures n * e == m * d
  {
    hide Whole;
    var w: int, q: int := Whole(x), x.denominator;
    Swap(n, e, q);
    Swap(m, d, q);
    Swap(w, d, e);
    SameFactor(n * e, m * d, q);
  }

  lemma PositiveProduct(a: nat, b: nat)
    requires 0 < a && 0 < b
    ensures 0 < a * b
  {
  }

  // ---- registers ------------------------------------------------------------------------------

  lemma CutParts(x: nat) returns (k: nat)
    ensures Cut(x) == x - k * TWO_64
    ensures k == 0 <==> x < TWO_64
  {
    k := x / TWO_64;
  }

  lemma CutSmall(x: nat)
    requires x < TWO_64
    ensures Cut(x) == x
  {
  }

  lemma CutBelow(x: nat)
    ensures Cut(x) <= x && Cut(x) < TWO_64
  {
  }

  // ---- normalising ----------------------------------------------------------------------------

  lemma ReducedRatio(i1: Word64, i2: Word64)
    requires 0 < i2
    ensures var r := Reduced(i1, i2);
      && r.Ok? && r.value.top * i2 == i1 * r.value.bottom && 0 < r.value.bottom <= i2
      && (0 < i1 ==> 0 < r.value.top && Coprime(r.value.top, r.value.bottom))
      && (i1 == 0 ==> r.value == Fraction(0, i2))
  {
    hide GcdOf, Coprime;
    if 0 < i1 {
      var g := GcdOf(i1, i2);
      var p, q := GcdSplits(i1, i2);
      DivModUnique(i1, g, p, 0);
      DivModUnique(i2, g, q, 0);
      assert p * (q * g) == p * g * q;
      assert p != 0 && q != 0;
      QuotientNotAbove(i2, g);
    }
  }

  /** The remainder of a fraction in lowest terms is in lowest terms. */
  lemma RemainderLowest(top: nat, bottom: nat, q: nat, r: nat)
    requires top == q * bottom + r && Coprime(top, bottom)
    ensures Coprime(r, bottom)
  {
    hide Divides;
    forall d: nat | Divides(d, r) && Divides(d, bottom)
      ensures d == 1
    {
      DividesSum(d, bottom, q, r, top);
    }
  }

  lemma DivParts(x: nat, m: nat) returns (q: nat, r: nat)
    requires 0 < m
    ensures q == x / m && r == x % m && r < m && x == q * m + r
  {
    QuotientNotAbove(x, m);
    q, r := x / m, x % m;
  }

  lemma WholeBounds(whole: nat, rest: nat, bottom: nat, n: nat, d: nat)
    requires 0 < d && rest < bottom && (whole * bottom + rest) * d == n * bottom
    ensures whole * d <= n < whole * d + d
  {
    var x := n - whole * d;
    assert x * bottom == rest * d by {
      assert (whole * bottom + rest) * d == whole * d * bottom + rest * d;
    }
    assert rest * d >= 0 && (bottom - rest) * d > 0;
    assert x < 0 ==> (-x) * bottom > 0;
    assert x >= d ==> (x - d) * bottom >= 0;
  }

  /** The whole part that normalising carries from the fraction to the integer. */
  lemma NormalisedParts(integer: Word64, numerator: Word64, denominator: Word64) returns (whole: nat)
    requires 0 < denominator
    ensures var r := Normalised(integer, numerator, denominator);
      && r.Ok? && Normal(r.value) && r.value.integer == Cut(integer + whole)
      && (whole * r.value.denominator + r.value.numerator) * denominator == numerator * r.value.denominator
      && (numerator == 0 ==> r.value.denominator == denominator)
    ensures whole * denominator <= numerator < whole * denominator + denominator
  {
    hide GcdOf, Coprime, Cut, Reduced;
    ReducedRatio(numerator, denominator);
    var f := Reduced(numerator, denominator).value;
    var rest: nat;
    whole, rest := DivParts(f.top, f.bottom);
    if numerator == 0 {
      DivModUnique(0, f.bottom, 0, 0);
    } else {
      RemainderLowest(f.top, f.bottom, whole, rest);
    }
    WholeBounds(whole, rest, f.bottom, numerator, denominator);
  }

  /** The value of a normalised number over the denominator it was given, when registers may have dropped multiples. */
  lemma ValueOver(x: Number, integer: int, whole: int, n: int, l: int)
    requires x.integer == integer + whole
    requires (whole * x.denominator + x.numerator) * l == n * x.denominator
    ensures Is(x, integer * l + n, l)
  {
    assert Whole(x) * l == (integer * x.denominator + (whole * x.denominator + x.numerator)) * l
                        == integer * l * x.denominator + n * x.denominator;
  }

  /** What normalising leaves is worth what it was given, less the `k` turns its integer register made. */
  lemma NormalisedIs(i: Word64, n: Word64, l: Word64) returns (k: nat, whole: nat)
    requires 0 < l
    ensures var r := Normalised(i, n, l);
      r.Ok? && Normal(r.value) && 0 < r.value.denominator && Is(r.value, (i - k * TWO_64) * l + n, l)
    ensures k == 0 <==> i + whole < TWO_64
    ensures whole * l <= n < whole * l + l
  {
    hide Coprime, Normalised, Cut, Is;
    whole := NormalisedParts(i, n, l);
    k := CutParts(i + whole);
    ValueOver(Normalised(i, n, l).value, i - k * TWO_64, whole, n, l);
  }

  lemma SmallWhole(whole: nat, n: nat, l: nat)
    requires n < l && whole * l <= n
    ensures whole == 0
  {
    assert whole > 0 ==> whole * l >= l;
  }

  lemma NormalisedNormal(integer: Word64, numerator: Word64, denominator: Word64)
    ensures var r := Normalised(integer, numerator, denominator); r.Ok? ==> Normal(r.value)
  {
    hide Normal, Reduced, Cut;
    if 0 < denominator {
      var whole := NormalisedParts(integer, numerator, denominator);
    }
  }

  lemma NoDenominator(n: Word64)
    ensures Normalised(0, n, 0) == Throw(ZeroDenominator)
  {
  }

  lemma ZeroNormalised(d: Word64)
    requires 0 < d
    ensures Normalised(0, 0, d) == Ok(Number(0, 0, d))
  {
    DivModUnique(0, d, 0, 0);
  }
}
