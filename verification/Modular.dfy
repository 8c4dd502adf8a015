/**
 Remainders by repeated subtraction, and the facts about them that the ring and
 number-space modules use.  Keeping division out of the definition keeps every
 statement about positions and numbers linear.
 */
module Modular {

  /** The remainder of `x` modulo `m`, never negative, as unsigned modular arithmetic has it. */
  function Wrap(x: int, m: int): (r: int)
    requires 0 < m
    ensures 0 <= r < m
    decreases if x < 0 then m - x else x
  {
    if x < 0 then Wrap(x + m, m)
    else if x < m then x
    else Wrap(x - m, m)
  }

  lemma {:induction false} WrapIsRemainder(x: int, m: int)
    requires 0 < m
    ensures Wrap(x, m) == x % m
    decreases if x < 0 then m - x else x
  {
    if x < 0 {
      WrapIsRemainder(x + m, m);
      DivModUnique(x, m, (x + m) / m - 1, (x + m) % m);
    } else if x < m {
      DivModUnique(x, m, 0, x);
    } else {
      WrapIsRemainder(x - m, m);
      DivModUnique(x, m, (x - m) / m + 1, (x - m) % m);
    }
  }

  /** The quotient and remainder of a division are unique. */
  lemma DivModUnique(x: int, m: int, q: int, r: int)
    requires 0 < m && 0 <= r < m && x == q * m + r
    ensures x % m == r && x / m == q
  {
    var d := x / m - q;
    assert d * m == r - x % m by {
      assert x == (x / m) * m + x % m;
    }
    assert d >= 1 ==> d * m >= m;
    assert d <= -1 ==> d * m <= -m;
  }

  lemma WrapSmall(x: int, m: int)
    requires 0 <= x < m
    ensures Wrap(x, m) == x
  {
  }

  /** One turn further is the same place. */
  lemma WrapTurn(x: int, m: int)
    requires 0 < m
    ensures Wrap(x + m, m) == Wrap(x, m)
  {
  }

  /** Stepping a remainder is stepping it and wrapping to zero at the modulus. */
  lemma {:induction false} WrapStep(x: int, m: int)
    requires 0 < m
    ensures Wrap(x + 1, m) == if Wrap(x, m) + 1 == m then 0 else Wrap(x, m) + 1
    decreases if x < 0 then m - x else x
  {
    if x < 0 {
      WrapStep(x + m, m);
      WrapTurn(x + 1, m);
    } else if x >= m {
      WrapStep(x - m, m);
    } else {
      WrapTurn(0, m);
    }
  }

  /** The remainder stands for the number under any further addition. */
  lemma {:induction false} WrapAdd(x: int, d: int, m: int)
    requires 0 < m
    ensures Wrap(Wrap(x, m) + d, m) == Wrap(x + d, m)
    decreases if x < 0 then m - x else x
  {
    if x < 0 {
      WrapAdd(x + m, d, m);
      WrapTurn(x + d, m);
    } else if x >= m {
      WrapAdd(x - m, d, m);
      WrapTurn(x - m + d, m);
    }
  }

  /** ... and under subtraction from anything. */
  lemma {:induction false} WrapSub(x: int, y: int, m: int)
    requires 0 < m
    ensures Wrap(x - Wrap(y, m), m) == Wrap(x - y, m)
    decreases if y < 0 then m - y else y
  {
    if y < 0 {
      WrapSub(x, y + m, m);
      WrapTurn(x - y - m, m);
    } else if y >= m {
      WrapSub(x, y - m, m);
      WrapTurn(x - y, m);
    }
  }

  /** Equal remainders stay equal when the same amount is added. */
  lemma WrapShift(x: int, y: int, d: int, m: int)
    requires 0 < m && Wrap(x, m) == Wrap(y, m)
    ensures Wrap(x + d, m) == Wrap(y + d, m)
  {
    WrapAdd(x, d, m);
    WrapAdd(y, d, m);
  }

  /** Numbers less than `m` apart with one remainder are equal. */
  lemma WrapInjective(x: int, y: int, m: int)
    requires 0 < m && -m < x - y < m
    requires Wrap(x, m) == Wrap(y, m)
    ensures x == y
  {
    WrapShift(x, y, -y, m);
    assert Wrap(0, m) == 0;
  }

  /** A number less than the modulus, found again from its distance to another. */
  lemma WrapDistance(number: int, from: int, m: int)
    requires 0 <= number < m
    ensures Wrap(from + Wrap(number - Wrap(from, m), m), m) == number
  {
    WrapSub(number, from, m);
    WrapAdd(number - from, from, m);
  }

  /** Whole turns of `w` make up a number that `w` divides. */
  lemma {:induction false} WrapAcross(x: int, m: int, w: int)
    requires 0 < w && 0 <= m && Wrap(m, w) == 0
    ensures Wrap(x + m, w) == Wrap(x, w)
    decreases m
  {
    if m >= w {
      WrapAcross(x, m - w, w);
      WrapTurn(x + m - w, w);
    }
  }

  lemma {:induction false} WrapOfWrap(x: int, m: int, w: int)
    requires 0 < m && 0 < w && Wrap(m, w) == 0
    ensures Wrap(Wrap(x, m), w) == Wrap(x, w)
    decreases if x < 0 then m - x else x
  {
    if x < 0 {
      WrapOfWrap(x + m, m, w);
      WrapAcross(x, m, w);
    } else if x >= m {
      WrapOfWrap(x - m, m, w);
      WrapAcross(x - m, m, w);
    }
  }
}
