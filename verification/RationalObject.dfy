/**
 The rational arithmetic as its source has it: loops over registers, and an
 object that is assigned only when an operation succeeds.
 */
module RationalObject {
  import opened Modular
  import opened Divisors
  import opened RationalModel

  method Gcd(a: Word64, b: Word64) returns (r: Word64)
    ensures r == GcdOf(a, b)
  {
    var x, y := a, b;
    if a < b {
      DivModUnique(a, b, 0, a);
      x, y := b, a;
    }
    while y != 0
      invariant GcdOf(x, y) == GcdOf(a, b)
      decreases y
    {
      x, y := y, x % y;
    }
    r := x;
  }

  method Lcd(d1: Word64, d2: Word64) returns (r: Word64)
    requires 0 < d1
    ensures r == Cut(LcdOf(d1, d2))
  {
    var g := Gcd(d1, d2);
    r := Cut(Divided(d1, g) * d2);
  }

  function PowerOfTwo(n: nat): (r: nat)
    ensures 0 < r
  {
    if n == 0 then 1 else 2 * PowerOfTwo(n - 1)
  }

  lemma HalfScale(half: nat, x: nat, p: nat)
    requires x == 2 * half
    ensures x * p == half * (2 * p)
  {
  }

  /** Halves both numbers while both are even: at most one power of two, the largest common one, is taken out. */
  method ReduceTwo(i1: Word64, i2: Word64) returns (o1: Word64, o2: Word64, count: nat)
    requires 0 < i1 || 0 < i2
    ensures i1 == o1 * PowerOfTwo(count) && i2 == o2 * PowerOfTwo(count)
    ensures o1 % 2 == 1 || o2 % 2 == 1
  {
    o1, o2, count := i1, i2, 0;
    while o1 % 2 == 0 && o2 % 2 == 0
      invariant 0 < o1 || 0 < o2
      invariant i1 == o1 * PowerOfTwo(count) && i2 == o2 * PowerOfTwo(count)
      decreases o1 + o2
    {
      HalfScale(o1 / 2, o1, PowerOfTwo(count));
      HalfScale(o2 / 2, o2, PowerOfTwo(count));
      o1, o2, count := o1 / 2, o2 / 2, count + 1;
    }
  }

  /** Taking out a common factor first does not change what Euclid's algorithm leaves. */
  lemma FactorFirst(i: nat, o: nat, g: nat, p: nat, q: nat)
    requires i == o * p && o == q * g && 0 < p && 0 < g
    ensures i / (g * p) == o / g
  {
    assert g * p > 0;
    assert i == q * (g * p);
    DivModUnique(i, g * p, q, 0);
    DivModUnique(o, g, q, 0);
  }

  lemma FactorsFirst(i1: Word64, i2: Word64, o1: nat, o2: nat, p: nat)
    requires 0 < i1 && 0 < i2 && 0 < p && i1 == o1 * p && i2 == o2 * p
    ensures 0 < GcdOf(o1, o2)
    ensures Reduced(i1, i2) == Ok(Fraction(i1 / GcdOf(i1, i2), i2 / GcdOf(i1, i2)))
    ensures i1 / GcdOf(i1, i2) == o1 / GcdOf(o1, o2) && i2 / GcdOf(i1, i2) == o2 / GcdOf(o1, o2)
  {
    hide GcdOf, Coprime;
    GcdScales(o1, o2, p);
    assert o1 != 0;
    var q1, q2 := GcdSplits(o1, o2);
    FactorFirst(i1, o1, GcdOf(o1, o2), p, q1);
    FactorFirst(i2, o2, GcdOf(o1, o2), p, q2);
  }

  method Reduce(i1: Word64, i2: Word64) returns (r: Result<Fraction>)
    ensures r == Reduced(i1, i2)
  {
    if i1 == 0 {
      return Ok(Fraction(i1, i2));
    }
    if i2 == 0 {
      return Throw(DivisionByZero);
    }
    var o1, o2, count := ReduceTwo(i1, i2);
    FactorsFirst(i1, i2, o1, o2, PowerOfTwo(count));
    var g := Gcd(o1, o2);
    r := Ok(Fraction(Divided(o1, g), Divided(o2, g)));
  }

  lemma CutAgain(x: int, y: int)
    ensures Cut(Cut(x) - y) == Cut(x - y)
  {
  }

  class Rational {
    var integer: Word64
    var numerator: Word64
    var denominator: Word64

    function View(): Number
      reads this
    {
      Number(integer, numerator, denominator)
    }

    constructor ()
      ensures View() == Number(0, 0, 1)
    {
      integer, numerator, denominator := 0, 0, 1;
    }

    /** The object holds what `r` found, or is unchanged and the exception is passed on. */
    ghost predicate Holds(r: Result<Number>, was: Number, thrown: Result<()>)
      reads this
    {
      match r
      case Ok(x) => View() == x && thrown == Ok(())
      case Throw(e) => View() == was && thrown == Throw(e)
    }

    method Init(i: Word64, n: Word64, d: Word64) returns (thrown: Result<()>)
      modifies this
      ensures Holds(Normalised(i, n, d), old(View()), thrown)
    {
      if d == 0 {
        return Throw(ZeroDenominator);
      }
      var f := Reduce(n, d);
      ReducedRatio(n, d);
      var quotient, rest := f.value.top / f.value.bottom, f.value.top % f.value.bottom;
      QuotientNotAbove(f.value.top, f.value.bottom);
      assert rest == f.value.top - quotient * f.value.bottom;
      integer, numerator, denominator := Cut(i + quotient), f.value.top - quotient * f.value.bottom, f.value.bottom;
      return Ok(());
    }

    static method AddSub(a: Number, b: Number, isAdd: bool) returns (r: Result<Number>)
      requires 0 < a.denominator && 0 < b.denominator
      ensures r == AddSubOf(a, b, isAdd)
    {
      hide LcdOf, Normalised, OnLcd, Cut;
      var l := Lcd(a.denominator, b.denominator);
      var n1: int, n2: int := Cut(OnLcd(a, l)), Cut(OnLcd(b, l));
      var i: nat, n: nat;
      if isAdd {
        i, n := Cut(a.integer + b.integer), Cut(n1 + n2);
      } else {
        if a.integer < b.integer {
          return Throw(Negative);
        }
        i := a.integer - b.integer;
        if n1 < n2 {
          if i < 1 {
            return Throw(Negative);
          }
          i := i - 1;
          CutAgain(n1 + l, n2);
          n1 := Cut(n1 + l);
        } else {
          CutSmall(n1 - n2);
        }
        n := Cut(n1 - n2);
      }
      var ret := new Rational();
      var thrown := ret.Init(i, n, l);
      r := if thrown.Ok? then Ok(ret.View()) else Throw(thrown.error);
    }

    static method MulDiv(a: Number, b: Number, isMultiply: bool) returns (r: Result<Number>)
      ensures r == MulDivOf(a, b, isMultiply)
    {
      hide Reduced, Normalised, Cut, Whole;
      var n1, n2 := Cut(Whole(a)), Cut(Whole(b));
      var x := Reduce(n1, if isMultiply then b.denominator else n2);
      if x.Throw? {
        return Throw(x.error);
      }
      var y, n, d;
      if isMultiply {
        y := Reduce(n2, a.denominator);
      } else {
        y := Reduce(a.denominator, b.denominator);
      }
      if y.Throw? {
        return Throw(y.error);
      }
      if isMultiply {
        n, d := Cut(x.value.top * y.value.top), Cut(y.value.bottom * x.value.bottom);
      } else {
        n, d := Cut(x.value.top * y.value.bottom), Cut(y.value.top * x.value.bottom);
      }
      var ret := new Rational();
      var thrown := ret.Init(0, n, d);
      r := if thrown.Ok? then Ok(ret.View()) else Throw(thrown.error);
    }

    /** `+=` and `-=`, of any number including the object itself. */
    method AddSubAssign(num: Rational, isAdd: bool) returns (thrown: Result<()>)
      requires 0 < denominator && 0 < num.denominator
      modifies this
      ensures Holds(AddSubOf(old(View()), old(num.View()), isAdd), old(View()), thrown)
    {
      hide AddSubOf;
      var ret := AddSub(View(), num.View(), isAdd);
      thrown := Assign(ret);
    }

    /** `*=` and `/=`. */
    method MulDivAssign(num: Rational, isMultiply: bool) returns (thrown: Result<()>)
      modifies this
      ensures Holds(MulDivOf(old(View()), old(num.View()), isMultiply), old(View()), thrown)
    {
      hide MulDivOf;
      var ret := MulDiv(View(), num.View(), isMultiply);
      thrown := Assign(ret);
    }

    method Assign(ret: Result<Number>) returns (thrown: Result<()>)
      modifies this
      ensures Holds(ret, old(View()), thrown)
    {
      if ret.Throw? {
        return Throw(ret.error);
      }
      integer, numerator, denominator := ret.value.integer, ret.value.numerator, ret.value.denominator;
      thrown := Ok(());
    }

    method Less(num: Rational) returns (r: bool)
      requires 0 < denominator && 0 < num.denominator
      ensures r == LessThan(View(), num.View())
    {
      hide LcdOf;
      if integer != num.integer {
        return integer < num.integer;
      }
      var l := Lcd(denominator, num.denominator);
      r := Cut(OnLcd(View(), l)) < Cut(OnLcd(num.View(), l));
    }
  }
}
