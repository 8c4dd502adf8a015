/**
 Euclid's algorithm and the number theory behind it: what the greatest common
 divisor is, and that a fraction has one form in lowest terms.
 */
module Divisors {
  import opened Modular

  function Times(a: nat, b: nat): nat {
    a * b
  }

  ghost predicate Divides(d: nat, x: nat) {
    exists k: nat :: Times(k, d) == x
  }

  /** Euclid's algorithm. */
  function GcdOf(a: nat, b: nat): (g: nat)
    ensures g == 0 <==> a == 0 && b == 0
    decreases b
  {
    if b == 0 then a else GcdOf(b, a % b)
  }

  /** The divisors of `g` are exactly the common divisors of `a` and `b`. */
  ghost predicate IsGcd(g: nat, a: nat, b: nat) {
    forall d: nat :: Divides(d, g) <==> Divides(d, a) && Divides(d, b)
  }

  /** One is the only common divisor. */
  ghost predicate Coprime(a: nat, b: nat) {
    forall d: nat :: Divides(d, a) && Divides(d, b) ==> d == 1
  }

  lemma DividesSum(d: nat, x: nat, q: nat, r: nat, y: nat)
    requires Divides(d, x) && y == q * x + r
    ensures Divides(d, r) <==> Divides(d, y)
  {
    hide Divides;
    if Divides(d, r) {
      DividesMultipleAnd(d, x, q, r, y);
    }
    if Divides(d, y) {
      DividesMultipleAnd(d, x, -(q as int), y, r);
    }
  }

  lemma DividesMultipleAnd(d: nat, x: nat, q: int, r: nat, y: nat)
    requires Divides(d, x) && Divides(d, r) && y == q * x + r
    ensures Divides(d, y)
  {
    var k: nat :| Times(k, d) == x;
    var j: nat :| Times(j, d) == r;
    SumOfMultiples(q, k, d, j);
    MultipleOf(q * k + j, d, y);
  }

  lemma SumOfMultiples(q: int, k: int, d: int, j: int)
    ensures (q * k + j) * d == q * (k * d) + j * d
  {
    assert q * k * d == q * (k * d);
  }

  lemma MultipleOf(i: int, a: nat, c: nat)
    requires i * a == c
    ensures Divides(a, c)
  {
    if i < 0 {
      assert (-i) * a >= 0;
      assert Times(0, a) == c;
    } else {
      assert Times(i, a) == c;
    }
  }

  lemma DividesZero(d: nat)
    ensures Divides(d, 0)
  {
    assert Times(0, d) == 0;
  }

  lemma DividesItself(x: nat)
    ensures Divides(x, x)
  {
    assert Times(1, x) == x;
  }

  lemma DivisorNotAbove(d: nat, x: nat)
    requires Divides(d, x) && 0 < x
    ensures 0 < d <= x
  {
    var k: nat :| Times(k, d) == x;
    assert k > 0 && d > 0 by {
      assert 0 * d == 0 && k * 0 == 0;
    }
    assert k * d == d + (k - 1) * d;
    assert (k - 1) * d >= 0;
  }

  /** Euclid's algorithm finds the greatest common divisor: the one whose divisors are all the common ones. */
  lemma {:induction false} EuclidFindsGcd(a: nat, b: nat)
    ensures IsGcd(GcdOf(a, b), a, b)
    decreases b
  {
    if b == 0 {
      forall d: nat
        ensures Divides(d, GcdOf(a, b)) <==> Divides(d, a) && Divides(d, b)
      {
        DividesZero(d);
      }
    } else {
      var q, r := a / b, a % b;
      assert a == q * b + r;
      EuclidFindsGcd(b, r);
      GcdStep(a, b, q, r, GcdOf(b, r));
    }
  }

  lemma GcdStep(a: nat, b: nat, q: nat, r: nat, g: nat)
    requires a == q * b + r && IsGcd(g, b, r)
    ensures IsGcd(g, a, b)
  {
    hide Divides;
    forall d: nat
      ensures Divides(d, g) <==> Divides(d, a) && Divides(d, b)
    {
      if Divides(d, b) {
        DividesSum(d, b, q, r, a);
      }
    }
  }

  /** It divides both numbers, is not zero unless they are, and its quotients have no common divisor. */
  lemma GcdSplits(a: nat, b: nat) returns (p: nat, q: nat)
    requires 0 < a || 0 < b
    ensures var g := GcdOf(a, b); 0 < g && a == p * g && b == q * g && Coprime(p, q)
  {
    hide GcdOf;
    var g := GcdOf(a, b);
    EuclidFindsGcd(a, b);
    DividesItself(g);
    assert Divides(g, a) && Divides(g, b);
    assert g != 0 by {
    }
    p :| Times(p, g) == a;
    q :| Times(q, g) == b;
    QuotientsCoprime(a, b, g, p, q);
  }

  lemma QuotientsCoprime(a: nat, b: nat, g: nat, p: nat, q: nat)
    requires IsGcd(g, a, b) && 0 < g && a == p * g && b == q * g
    ensures Coprime(p, q)
  {
    hide IsGcd, Divides;
    forall d: nat | Divides(d, p) && Divides(d, q)
      ensures d == 1
    {
      DividesScaled(d, p, g);
      DividesScaled(d, q, g);
      assert Divides(d * g, g) by {
        CommonDivides(d * g, g, a, b);
      }
      DivisorNotAbove(d * g, g);
      assert d == 0 ==> d * g == 0;
      assert d >= 2 ==> d * g >= 2 * g;
    }
  }

  lemma CommonDivides(d: nat, g: nat, a: nat, b: nat)
    requires IsGcd(g, a, b) && Divides(d, a) && Divides(d, b)
    ensures Divides(d, g)
  {
  }

  lemma DividesScaled(d: nat, x: nat, g: nat)
    requires Divides(d, x)
    ensures Divides(d * g, x * g)
  {
    var k: nat :| Times(k, d) == x;
    assert k * d * g == k * (d * g);
    assert Times(k, d * g) == x * g;
  }

  lemma GcdOne(a: nat, b: nat)
    ensures b == 0 ==> GcdOf(a, b) == a
    ensures b > 0 ==> GcdOf(a, b) == GcdOf(b, a % b)
  {
  }

  /** Quotient stays and remainder scales when both numbers of a division are scaled. */
  lemma RemainderScales(a: nat, b: nat, c: nat)
    requires 0 < b && 0 < c
    ensures 0 < b * c && (a * c) % (b * c) == (a % b) * c
  {
    var q, r := a / b, a % b;
    ProductOrder(r, b, c);
    assert a == q * b + r;
    assert a * c == q * (b * c) + r * c;
    DivModUnique(a * c, b * c, q, r * c);
  }

  lemma ProductOrder(r: nat, b: nat, c: nat)
    requires r < b && 0 < c
    ensures 0 <= r * c < b * c
  {
    assert (b - r) * c > 0;
  }

  /** Scaling both numbers scales their greatest common divisor. */
  lemma {:induction false} GcdScales(a: nat, b: nat, c: nat)
    requires 0 < c
    ensures GcdOf(a * c, b * c) == GcdOf(a, b) * c
    decreases b
  {
    hide GcdOf;
    GcdOne(a, b);
    GcdOne(a * c, b * c);
    if b > 0 {
      RemainderScales(a, b, c);
      GcdScales(b, a % b, c);
    } else {
      assert b * c == 0;
    }
  }

  /** The greatest common divisor is a sum of multiples of the two numbers. */
  lemma {:induction false} Bezout(a: nat, b: nat) returns (x: int, y: int)
    ensures x * a + y * b == GcdOf(a, b)
    decreases b
  {
    if b == 0 {
      x, y := 1, 0;
    } else {
      var q, r := a / b, a % b;
      var u, v := Bezout(b, r);
      assert a == q * b + r;
      x, y := v, u - v * q;
      assert v * a == v * q * b + v * r;
      assert (u - v * q) * b == u * b - v * q * b;
    }
  }

  lemma CoprimeGcd(a: nat, b: nat)
    requires Coprime(a, b)
    ensures GcdOf(a, b) == 1
  {
    hide GcdOf, Divides;
    EuclidFindsGcd(a, b);
    DividesItself(GcdOf(a, b));
  }

  lemma BezoutTimes(x: int, a: int, y: int, b: int, c: int, k: int)
    requires x * a + y * b == 1 && k * a == b * c
    ensures (x * c + y * k) * a == c
  {
    assert (x * c + y * k) * a == x * a * c + y * (k * a);
    assert x * a * c + y * (b * c) == (x * a + y * b) * c;
  }

  /** A number that divides a product and has nothing in common with one factor divides the other. */
  lemma Gauss(a: nat, b: nat, c: nat)
    requires Coprime(a, b) && Divides(a, b * c)
    ensures Divides(a, c)
  {
    hide GcdOf, Coprime;
    CoprimeGcd(a, b);
    var x, y := Bezout(a, b);
    var k: nat :| Times(k, a) == b * c;
    BezoutTimes(x, a, y, b, c, k);
    MultipleOf(x * c + y * k, a, c);
  }

  lemma SameFactor(x: int, y: int, g: nat)
    requires 0 < g && x * g == y * g
    ensures x == y
  {
    assert x < y ==> (y - x) * g >= g;
    assert x > y ==> (x - y) * g >= g;
  }

  lemma Swap(a: int, b: int, c: int)
    ensures a * b * c == a * c * b
  {
  }

  /** Fractions in lowest terms that are equal are the same fraction. */
  lemma LowestTermsUnique(n1: nat, d1: nat, n2: nat, d2: nat)
    requires 0 < d1 && 0 < d2 && Coprime(n1, d1) && Coprime(n2, d2)
    requires n1 * d2 == n2 * d1
    ensures n1 == n2 && d1 == d2
  {
    hide Coprime, Divides;
    CoprimeCommutes(n1, d1);
    CoprimeCommutes(n2, d2);
    assert Divides(d1, n1 * d2) by {
      MultipleOf(n2, d1, n1 * d2);
    }
    Gauss(d1, n1, d2);
    assert Divides(d2, n2 * d1) by {
      MultipleOf(n1, d2, n2 * d1);
    }
    Gauss(d2, n2, d1);
    DivisorNotAbove(d1, d2);
    DivisorNotAbove(d2, d1);
    SameFactor(n1, n2, d2);
  }

  lemma CoprimeCommutes(a: nat, b: nat)
    requires Coprime(a, b)
    ensures Coprime(b, a)
  {
  }

  lemma DividesThrough(d: nat, p: nat, a: nat)
    requires Divides(d, p) && Divides(p, a)
    ensures Divides(d, a)
  {
    var j: nat :| Times(j, d) == p;
    var k: nat :| Times(k, p) == a;
    assert k * (j * d) == k * j * d;
    assert Times(k * j, d) == a;
  }

  /** Divisors of numbers with no common divisor have none. */
  lemma CoprimeDivisors(p: nat, a: nat, q: nat, b: nat)
    requires Divides(p, a) && Divides(q, b) && Coprime(a, b)
    ensures Coprime(p, q)
  {
    hide Divides;
    forall d: nat | Divides(d, p) && Divides(d, q)
      ensures d == 1
    {
      DividesThrough(d, p, a);
      DividesThrough(d, q, b);
    }
  }

  lemma CoprimeProduct(a: nat, b: nat, c: nat)
    requires Coprime(a, c) && Coprime(b, c)
    ensures Coprime(a * b, c)
  {
    hide Divides;
    forall d: nat | Divides(d, a * b) && Divides(d, c)
      ensures d == 1
    {
      DividesItself(a);
      CoprimeCommutes(a, c);
      CoprimeDivisors(d, c, a, a);
      Gauss(d, a, b);
    }
  }

  lemma CoprimeProducts(a: nat, b: nat, c: nat, d: nat)
    requires Coprime(a, c) && Coprime(a, d) && Coprime(b, c) && Coprime(b, d)
    ensures Coprime(a * b, c * d)
  {
    hide Coprime;
    CoprimeProduct(a, b, c);
    CoprimeProduct(a, b, d);
    CoprimeCommutes(a * b, c);
    CoprimeCommutes(a * b, d);
    CoprimeProduct(c, d, a * b);
    CoprimeCommutes(c * d, a * b);
  }
}
