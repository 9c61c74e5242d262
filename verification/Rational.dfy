/** Approximating a fraction within limits by continued fractions: what the
    AD9545 driver asks of rational_best_approximation can always be had. */
module Rational {
  import opened PllMath

  const MAX: nat := AD9545_DPLL_MAX_FRAC

  /** The last two convergents and the pair of remainders still to be divided. */
  datatype Expansion = Expansion(n0: nat, d0: nat, n1: nat, d1: nat, n: nat, d: nat)

  /** The convergents and the remainders make up the fraction, and neighbouring
      convergents have determinant 1 or -1. */
  ghost predicate Expands(e: Expansion, num: nat, den: nat)
  {
    && num == e.n1 * e.n + e.n0 * e.d
    && den == e.d1 * e.n + e.d0 * e.d
    && (e.n1 * e.d0 - e.n0 * e.d1 == 1 || e.n1 * e.d0 - e.n0 * e.d1 == -1)
  }

  /** One division step. */
  function Divided(e: Expansion): Expansion
    requires e.d > 0
  {
    DivParts(e.n, e.d);
    DivLargest(e.n, e.d, 0);
    MulMono(0, e.n / e.d, e.n1);
    MulMono(0, e.n / e.d, e.d1);
    Expansion(e.n1, e.d1, e.n0 + e.n / e.d * e.n1, e.d0 + e.n / e.d * e.d1, e.d, e.n % e.d)
  }

  lemma DividedExpands(e: Expansion, num: nat, den: nat)
    requires e.d > 0 && Expands(e, num, den)
    ensures Expands(Divided(e), num, den)
  {
    var a, r := e.n / e.d, e.n % e.d;
    DivParts(e.n, e.d);
    Regroup(e.n0, e.n1, a, e.d, r, e.n);
    Regroup(e.d0, e.d1, a, e.d, r, e.n);
    var t := Divided(e);
    Determinant(e.n0, e.d0, e.n1, e.d1, a);
  }

  lemma Regroup(x0: int, x1: int, a: int, d: int, r: int, n: int)
    requires n == d * a + r
    ensures (x0 + a * x1) * d + x1 * r == x1 * n + x0 * d
  {
    assert (x0 + a * x1) * d == x0 * d + a * x1 * d;
    Assoc(a, x1, d);
    assert x1 * n == x1 * (d * a) + x1 * r;
    Assoc(x1, d, a);
  }

  lemma Determinant(n0: int, d0: int, n1: int, d1: int, a: int)
    ensures (n0 + a * n1) * d1 - n1 * (d0 + a * d1) == -(n1 * d0 - n0 * d1)
  {
    assert (n0 + a * n1) * d1 == n0 * d1 + a * n1 * d1;
    assert n1 * (d0 + a * d1) == n1 * d0 + n1 * (a * d1);
    Assoc(a, n1, d1);
  }

  // How far combinations of the two convergents are from the fraction

  function Numer(e: Expansion, u: int, v: int): int { e.n1 * u + e.n0 * v }

  function Denom(e: Expansion, u: int, v: int): int { e.d1 * u + e.d0 * v }

  lemma MissIs(e: Expansion, num: nat, den: nat, u: int, v: int)
    requires Expands(e, num, den)
    ensures Miss(num, den, Numer(e, u, v), Denom(e, u, v)) == Abs(u * e.d - v * e.n)
  {
    CrossTerms(e.n1, e.n0, e.d1, e.d0, e.n, e.d, u, v);
    SignDropped(e.n1 * e.d0 - e.n0 * e.d1, u * e.d - v * e.n);
  }

  lemma SignDropped(sign: int, x: int)
    requires sign == 1 || sign == -1
    ensures Abs(sign * x) == Abs(x)
  {
  }

  lemma CrossTerms(n1: int, n0: int, d1: int, d0: int, n: int, d: int, u: int, v: int)
    ensures (n1 * u + n0 * v) * (d1 * n + d0 * d) - (n1 * n + n0 * d) * (d1 * u + d0 * v)
         == (n1 * d0 - n0 * d1) * (u * d - v * n)
  {
  }

  /** Every fraction is such a combination: Cramer's rule with determinant 1 or -1. */
  lemma Combination(e: Expansion, num: nat, den: nat, a: int, b: int) returns (u: int, v: int)
    requires Expands(e, num, den)
    ensures a == Numer(e, u, v) && b == Denom(e, u, v)
  {
    var det := e.n1 * e.d0 - e.n0 * e.d1;
    u, v := det * (a * e.d0 - b * e.n0), det * (b * e.n1 - a * e.d1);
    Cramer(e.n1, e.n0, e.d1, e.d0, a, b);
  }

  lemma Cramer(n1: int, n0: int, d1: int, d0: int, a: int, b: int)
    ensures n1 * (a * d0 - b * n0) + n0 * (b * n1 - a * d1) == a * (n1 * d0 - n0 * d1)
    ensures d1 * (a * d0 - b * n0) + d0 * (b * n1 - a * d1) == b * (n1 * d0 - n0 * d1)
  {
  }

  /** a/b is at least as close to num/den as a'/b'. */
  predicate Closer(num: int, den: int, a: int, b: int, a': int, b': int)
  {
    Miss(num, den, a, b) * b' <= Miss(num, den, a', b') * b
  }

  lemma CloserTransitive(num: int, den: int, a: int, b: int, a': int, b': int, a'': int, b'': int)
    requires b > 0 && b' > 0 && b'' > 0
    requires Closer(num, den, a, b, a', b') && Closer(num, den, a', b', a'', b'')
    ensures Closer(num, den, a, b, a'', b'')
  {
    CrossMultiply(Miss(num, den, a, b), b, Miss(num, den, a', b'), b', Miss(num, den, a'', b''), b'');
  }

  lemma CrossMultiply(x: nat, p: nat, y: nat, q: nat, z: nat, r: nat)
    requires p > 0 && q > 0 && r > 0 && x * q <= y * p && y * r <= z * q
    ensures x * r <= z * p
  {
    assert x * r * q <= y * p * r by { Assoc(x, r, q); MulMono(x * q, y * p, r); }
    assert y * p * r <= z * p * q by { Assoc(y, p, r); Assoc(z, p, q); MulMono(y * r, z * q, p); }
    if x * r > z * p { MulMono(z * p + 1, x * r, q); }
  }

  // The candidates: the last convergent, and semiconvergents with t times its terms

  predicate Within(e: Expansion, t: int)
  {
    Numer(e, t, 1) <= MAX && Denom(e, t, 1) <= MAX
  }

  /** Whatever takes a share of the last convergent but one is no closer than the
      largest semiconvergent within the limits; anything else no closer than the
      last convergent. */
  lemma BestOfTwo(e: Expansion, num: nat, den: nat, t: nat, a: nat, b: nat)
    requires Expands(e, num, den) && (e.d1 > 0 ==> e.d < e.n) && t * e.d <= e.n
    requires forall u :: Within(e, u) ==> u <= t
    requires a <= MAX && 0 < b <= MAX
    ensures (Denom(e, t, 1) > 0 && Closer(num, den, Numer(e, t, 1), Denom(e, t, 1), a, b))
            || (e.d1 > 0 && Closer(num, den, e.n1, e.d1, a, b))
  {
    var u, v := Combination(e, num, den, a, b);
    MissIs(e, num, den, u, v);
    if v >= 1 {
      if u >= 0 {
        MulMono(1, v, e.n0);
        MulMono(1, v, e.d0);
        assert Within(e, u);
        MulMono(1, v, t);
      } else {
        MulMono(0, t, v);
      }
      PositiveDenom(e, t, u, v);
      SemiCloser(e, num, den, t, u, v);
    } else {
      MulMono(v, 0, e.d0);
      if e.d1 > 0 { LastCloser(e, num, den, u, v); }
    }
  }

  lemma PositiveDenom(e: Expansion, t: nat, u: int, v: int)
    requires v >= 1 && u <= t * v && Denom(e, u, v) > 0
    ensures Denom(e, t, 1) > 0
  {
    MulMono(0, t, e.d1);
    if Denom(e, t, 1) == 0 {
      assert e.d0 == 0 && e.d1 * t == 0;
      MulMono(u, t * v, e.d1);
      Assoc(e.d1, t, v);
      assert false;
    }
  }

  lemma SemiCloser(e: Expansion, num: nat, den: nat, t: nat, u: int, v: int)
    requires Expands(e, num, den) && t * e.d <= e.n && v >= 1 && u <= t * v
    ensures Closer(num, den, Numer(e, t, 1), Denom(e, t, 1), Numer(e, u, v), Denom(e, u, v))
  {
    MissIs(e, num, den, t, 1);
    MissIs(e, num, den, u, v);
    MulMono(u, t * v, e.d);
    MulMono(t * e.d, e.n, v);
    Assoc(t, v, e.d);
    assert Abs(u * e.d - v * e.n) == v * e.n - u * e.d;
    SemiTerms(e.d1, e.d0, e.n, e.d, t, u, v);
    MulMono(0, t * v - u, den);
  }

  lemma SemiTerms(d1: int, d0: int, n: int, d: int, t: int, u: int, v: int)
    ensures (v * n - u * d) * (d1 * t + d0 * 1) - (n - t * d) * (d1 * u + d0 * v) == (t * v - u) * (d1 * n + d0 * d)
  {
  }

  lemma LastCloser(e: Expansion, num: nat, den: nat, u: int, v: int)
    requires Expands(e, num, den) && e.d1 > 0 && v <= 0 && Denom(e, u, v) > 0
    ensures Closer(num, den, e.n1, e.d1, Numer(e, u, v), Denom(e, u, v))
  {
    MissIs(e, num, den, 1, 0);
    assert Numer(e, 1, 0) == e.n1 && Denom(e, 1, 0) == e.d1;
    MissIs(e, num, den, u, v);
    MulMono(v, 0, e.d0);
    MulMono(v, 0, e.n);
    if u < 0 { MulMono(u, 0, e.d1); }
    MulMono(0, u, e.d);
    LastTerms(e.d1, e.d0, e.n, e.d, u, v);
    MulMono(v, 0, den);
  }

  lemma LastTerms(d1: int, d0: int, n: int, d: int, u: int, v: int)
    ensures (u * d - v * n) * d1 - d * (d1 * u + d0 * v) == -v * (d1 * n + d0 * d)
  {
  }

  /** The test for which of the two is closer. */
  predicate TakesSemi(e: Expansion, t: int)
    requires e.d > 0
  {
    e.d1 == 0 || 2 * t > e.n / e.d || (2 * t == e.n / e.d && e.d0 * e.d > e.d1 * (e.n % e.d))
  }

  lemma TestIsRight(e: Expansion, num: nat, den: nat, t: nat)
    requires Expands(e, num, den) && 0 < e.d < e.n && e.d0 <= e.d1 && e.d1 > 0 && t * e.d <= e.n
    ensures
      var semi, last := (Numer(e, t, 1), Denom(e, t, 1)), (e.n1, e.d1);
      if TakesSemi(e, t) then Closer(num, den, semi.0, semi.1, last.0, last.1)
      else Closer(num, den, last.0, last.1, semi.0, semi.1)
  {
    MissIs(e, num, den, t, 1);
    MissIs(e, num, den, 1, 0);
    assert Numer(e, 1, 0) == e.n1 && Denom(e, 1, 0) == e.d1;
    var a, r := e.n / e.d, e.n % e.d;
    DivParts(e.n, e.d);
    TestTerms(e.d1, e.d0, e.d, a, r, t);
    TestSign(e.d1, e.d0, e.d, a, r, t);
  }

  lemma TestSign(d1: nat, d0: nat, d: nat, a: int, r: nat, t: int)
    requires r < d && d0 <= d1
    ensures
      var x := (2 * t - a) * (d * d1) + d0 * d - d1 * r;
      if 2 * t > a || (2 * t == a && d0 * d > d1 * r) then x >= 0 else x <= 0
  {
    MulMono(r, d, d1);
    MulMono(d0, d1, d);
    MulMono(0, d0, d);
    MulMono(0, r, d1);
    MulMono(0, d, d1);
    if 2 * t > a { MulMono(1, 2 * t - a, d * d1); }
    if 2 * t < a { MulMono(2 * t - a, -1, d * d1); }
  }

  lemma TestTerms(d1: int, d0: int, d: int, a: int, r: int, t: int)
    ensures d * (d1 * t + d0 * 1) - (d * a + r - t * d) * d1 == (2 * t - a) * (d * d1) + d0 * d - d1 * r
  {
  }

  /** The largest t for which the semiconvergent is within the limits. */
  method Largest(e: Expansion) returns (t: nat)
    requires e.n0 <= MAX && e.d0 <= MAX && e.n1 + e.d1 > 0
    ensures Within(e, t) && forall u :: Within(e, u) ==> u <= t
  {
    var limit: nat := 0xFFFF_FFFF_FFFF_FFFF;
    t := limit;
    if e.d1 > 0 {
      Multiples(e.d0, e.d1);
      t := (MAX - e.d0) / e.d1;
    }
    if e.n1 > 0 {
      Multiples(e.n0, e.n1);
      if (MAX - e.n0) / e.n1 < t { t := (MAX - e.n0) / e.n1; }
    }
    forall u | Within(e, u)
      ensures u <= t
    {
      if e.d1 > 0 { DivLargest(MAX - e.d0, e.d1, u); }
      if e.n1 > 0 { DivLargest(MAX - e.n0, e.n1, u); }
    }
    if e.d1 > 0 { MulMono(t, (MAX - e.d0) / e.d1, e.d1); }
    if e.n1 > 0 { MulMono(t, (MAX - e.n0) / e.n1, e.n1); }
  }

  lemma Multiples(x0: nat, x1: nat)
    requires x0 <= MAX && x1 > 0
    ensures 0 <= (MAX - x0) / x1 <= MAX && x0 + x1 * ((MAX - x0) / x1) <= MAX
  {
    DivLargest(MAX - x0, x1, 0);
    DivMono(MAX - x0, MAX - x0, 1, x1);
    DivLargest(MAX - x0, x1, (MAX - x0) / x1);
  }

  /** The largest semiconvergent within the limits, if it is closer than the last convergent. */
  method Semiconvergent(e: Expansion, ghost num: nat, ghost den: nat) returns (frac: nat, mod: nat)
    requires e.d > 0 && Expands(e, num, den) && Convergents(e)
    requires Divided(e).n1 > MAX || Divided(e).d1 > MAX
    ensures Approximates(num, den, frac, mod)
  {
    var t := Largest(e);
    var a, r := e.n / e.d, e.n % e.d;
    Chosen(e, num, den, t);
    if e.d1 == 0 || 2 * t > a || (2 * t == a && e.d0 * e.d > e.d1 * r) {
      frac, mod := e.n0 + t * e.n1, e.d0 + t * e.d1;
    } else {
      frac, mod := e.n1, e.d1;
    }
  }

  /** What the loop below keeps of the two convergents. */
  predicate Convergents(e: Expansion)
  {
    && e.n0 <= MAX && e.d0 <= MAX && e.n1 <= MAX && e.d1 <= MAX
    && if e.d1 == 0 then e.n0 == 0 && e.d0 == 1 && e.n1 == 1 else e.d < e.n && e.d0 <= e.d1
  }

  lemma SmallerThanQuotient(e: Expansion, t: nat)
    requires e.d > 0 && Convergents(e) && Within(e, t)
    requires Divided(e).n1 > MAX || Divided(e).d1 > MAX
    ensures t * e.d <= e.n
    ensures TakesSemi(e, t) ==> Denom(e, t, 1) > 0
  {
    var a := e.n / e.d;
    if t >= a {
      MulMono(a, t, e.n1);
      MulMono(a, t, e.d1);
    }
    DivLargest(e.n, e.d, t);
    DivLargest(e.n, e.d, 1);
    if e.d1 > 0 && t > 0 { MulMono(1, t, e.d1); }
  }

  lemma TheBetterOfTwo(e: Expansion, num: nat, den: nat, t: nat, a: nat, b: nat)
    requires e.d > 0 && Expands(e, num, den) && Convergents(e) && t * e.d <= e.n
    requires forall u :: Within(e, u) ==> u <= t
    requires TakesSemi(e, t) ==> Denom(e, t, 1) > 0
    requires a <= MAX && 0 < b <= MAX
    ensures if TakesSemi(e, t) then Closer(num, den, Numer(e, t, 1), Denom(e, t, 1), a, b)
            else e.d1 > 0 && Closer(num, den, e.n1, e.d1, a, b)
  {
    hide Expands, Within, Numer, Denom, Closer, TakesSemi;
    BestOfTwo(e, num, den, t, a, b);
    var semi, last := (Numer(e, t, 1), Denom(e, t, 1)), (e.n1, e.d1);
    if e.d1 == 0 {
      FirstTakesSemi(e, t);
    } else {
      TestIsRight(e, num, den, t);
      if TakesSemi(e, t) && Closer(num, den, e.n1, e.d1, a, b) {
        CloserTransitive(num, den, semi.0, semi.1, last.0, last.1, a, b);
      } else if !TakesSemi(e, t) && semi.1 > 0 && Closer(num, den, semi.0, semi.1, a, b) {
        CloserTransitive(num, den, last.0, last.1, semi.0, semi.1, a, b);
      }
    }
  }

  /** Whichever the test says is closest. */
  lemma Chosen(e: Expansion, num: nat, den: nat, t: nat)
    requires e.d > 0 && Expands(e, num, den) && Convergents(e)
    requires Divided(e).n1 > MAX || Divided(e).d1 > MAX
    requires Within(e, t) && forall u :: Within(e, u) ==> u <= t
    ensures if TakesSemi(e, t) then Approximates(num, den, e.n0 + t * e.n1, e.d0 + t * e.d1)
            else Approximates(num, den, e.n1, e.d1)
  {
    SmallerThanQuotient(e, t);
    var best := if TakesSemi(e, t) then (Numer(e, t, 1), Denom(e, t, 1)) else (e.n1, e.d1);
    InLimits(e, t);
    forall a: int, b: int | 0 <= a <= MAX && 0 < b <= MAX
      ensures Miss(num, den, best.0, best.1) * b <= Miss(num, den, a, b) * best.1
    {
      hide Expands, Within, Numer, Denom, TakesSemi, Divided, Miss;
      TheBetterOfTwo(e, num, den, t, a, b);
    }
  }

  lemma InLimits(e: Expansion, t: nat)
    requires e.d > 0 && Convergents(e) && Within(e, t)
    ensures Numer(e, t, 1) == e.n0 + t * e.n1 && Denom(e, t, 1) == e.d0 + t * e.d1
    ensures 0 <= Numer(e, t, 1) <= MAX && 0 <= Denom(e, t, 1) <= MAX
  {
    MulMono(0, t, e.n1);
    MulMono(0, t, e.d1);
  }

  lemma FirstTakesSemi(e: Expansion, t: int)
    requires e.d > 0 && e.d1 == 0
    ensures TakesSemi(e, t)
  {
  }

  /** Continued fractions, the last convergent replaced by the largest
      semiconvergent within the limits if that is closer. */
  method BestApproximation(num: nat, den: nat) returns (frac: nat, mod: nat)
    requires den > 0
    ensures Approximates(num, den, frac, mod)
  {
    var e := Expansion(0, 1, 1, 0, num, den);
    while e.d != 0
      invariant Expands(e, num, den) && Convergents(e)
      decreases e.d
    {
      var next := Divided(e);
      DividedExpands(e, num, den);
      DivParts(e.n, e.d);
      if next.n1 > MAX || next.d1 > MAX {
        frac, mod := Semiconvergent(e, num, den);
        return;
      }
      DividedConvergents(e);
      e := next;
    }
    frac, mod := e.n1, e.d1;
    ExactEnd(e, num, den);
  }

  lemma DividedConvergents(e: Expansion)
    requires e.d > 0 && Convergents(e) && Divided(e).n1 <= MAX && Divided(e).d1 <= MAX
    ensures Convergents(Divided(e))
  {
    DivParts(e.n, e.d);
    DivLargest(e.n, e.d, 1);
    if e.d1 > 0 { MulMono(1, e.n / e.d, e.d1); }
  }

  lemma ExactEnd(e: Expansion, num: nat, den: nat)
    requires Expands(e, num, den) && Convergents(e) && e.d == 0 && den > 0
    ensures Approximates(num, den, e.n1, e.d1)
  {
    MissIs(e, num, den, 1, 0);
    assert Numer(e, 1, 0) == e.n1 && Denom(e, 1, 0) == e.d1;
    assert Miss(num, den, e.n1, e.d1) == 0;
    forall a: int, b: int | 0 <= a <= MAX && 0 < b <= MAX
      ensures Miss(num, den, e.n1, e.d1) * b <= Miss(num, den, a, b) * e.d1
    {
      MulMono(0, Miss(num, den, a, b), e.d1);
    }
  }
}
