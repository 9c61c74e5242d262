/** AD9545 PLL arithmetic: the phase-buildout decomposition of a rate, and the
    translation of the active profile to one driven by an auxiliary NCO.
    Every product and difference is truncated as its C type is. */
module PllMath {
  import opened Registers

  const PFD_LOW: nat := 162_000_000
  const PFD_HIGH: nat := 350_000_000
  const AD9545_APLL_M_DIV_MAX: nat := 255
  const AD9545_DPLL_MAX_N: nat := 1_073_741_823
  const AD9545_DPLL_MAX_FRAC: nat := 16_777_215
  const AD9545_DPLL_MAX_MOD: nat := 16_777_215

  function ApllLow(pll: nat): U32 { if pll == 0 then 2_424_000_000 else 3_232_000_000 }

  function ApllHigh(pll: nat): U32 { if pll == 0 then 3_232_000_000 else 4_040_000_000 }

  function Clamp(v: int, lo: int, hi: int): int
  {
    var v := if v < lo then lo else v;
    if v > hi then hi else v
  }

  function Abs(x: int): nat { if x < 0 then -x else x }

  // Division

  lemma DivUnique(a: int, d: int, q: int)
    requires d > 0 && d * q <= a < d * q + d
    ensures a / d == q && a % d == a - d * q
  {
    DivModUnique(a, d, q, a - d * q);
  }

  lemma DivParts(a: int, d: int)
    requires d > 0
    ensures a == d * (a / d) + a % d && 0 <= a % d < d
  {
  }

  lemma MulMono(a: int, b: int, c: int)
    requires a <= b && 0 <= c
    ensures a * c <= b * c && c * a <= c * b
  {
    assert (b - a) * c >= 0;
  }

  /** The quotient is the largest q with d q <= a. */
  lemma DivLargest(a: int, d: int, q: int)
    requires d > 0
    ensures q <= a / d <==> d * q <= a
  {
    DivParts(a, d);
    if q <= a / d {
      MulMono(q, a / d, d);
    } else {
      MulMono(a / d + 1, q, d);
      assert d * (a / d + 1) == d * (a / d) + d;
    }
  }

  lemma DivMono(a: int, b: int, c: int, d: int)
    requires 0 <= a <= b && 0 < c <= d
    ensures 0 <= a / d <= b / c
  {
    DivLargest(a, d, 0);
    DivLargest(a, d, a / d);
    MulMono(c, d, a / d);
    DivLargest(b, c, a / d);
  }

  /** Dividing twice is dividing by the product. */
  lemma NestedFloor(a: nat, b: nat, c: nat)
    requires b > 0 && c > 0
    ensures b * c > 0 && a / b / c == a / (b * c)
  {
    assert b * c > 0;
    var q := a / (b * c);
    DivLargest(a, b * c, q);
    DivLargest(a, b * c, q + 1);
    assert b * c * q == b * (c * q) && b * c * (q + 1) == b * (c * (q + 1));
    DivLargest(a, b, c * q);
    DivLargest(a, b, c * (q + 1));
    DivLargest(a / b, c, q);
    DivLargest(a / b, c, q + 1);
  }

  lemma Assoc(a: int, b: int, c: int)
    ensures a * b * c == a * (b * c) == b * c * a == a * c * b
  {
  }

  // The M divider

  /** ad9545_calc_m_div; clamp_t(u8, ..) first converts the quotient to 8 bits. */
  function MDiv(rate: U64): (m: U32)
    ensures 1 <= m <= AD9545_APLL_M_DIV_MAX
  {
    Clamp(Low32(rate / (PFD_LOW / 2 + PFD_HIGH / 2)) % 0x100, 1, AD9545_APLL_M_DIV_MAX)
  }

  ghost predicate PfdInRange(rate: U64)
  {
    PFD_LOW * MDiv(rate) <= rate <= PFD_HIGH * MDiv(rate)
  }

  /** Exactly which rates M brings into the range of the phase detector. */
  lemma PfdRange(rate: U64)
    ensures PfdInRange(rate) <==>
      && PFD_LOW <= rate < 256 * 256_000_000
      && !(PFD_HIGH < rate < 512_000_000) && !(2 * PFD_HIGH < rate < 768_000_000)
  {
    hide MDiv;
    if rate < 256 * 256_000_000 {
      MDivIs(rate);
    } else if rate <= PFD_HIGH * AD9545_APLL_M_DIV_MAX {
      MDivWraps(rate);
    }
  }

  /** From 256 on the quotient loses its upper bits. */
  lemma MDivWraps(rate: U64)
    requires 256 * 256_000_000 <= rate <= PFD_HIGH * AD9545_APLL_M_DIV_MAX
    ensures MDiv(rate) <= 92
  {
    Fits32(rate / 256_000_000);
    assert 256 <= rate / 256_000_000 <= 348;
  }

  lemma MDivIs(rate: U64)
    requires rate < 256 * 256_000_000
    ensures MDiv(rate) == if rate < 256_000_000 then 1 else rate / 256_000_000
    ensures rate / 256_000_000 <= 255
  {
    Fits32(rate / 256_000_000);
  }

  predicate InApllRange(pll: nat, doubled: int)
  {
    ApllLow(pll) <= doubled <= ApllHigh(pll)
  }

  /** The two PLLs cover 2.424 to 4.04 GHz between them and share one rate. */
  lemma ApllRanges(doubled: int)
    ensures InApllRange(0, doubled) || InApllRange(1, doubled) <==> 2_424_000_000 <= doubled <= 4_040_000_000
    ensures InApllRange(0, doubled) && InApllRange(1, doubled) <==> doubled == 3_232_000_000
    ensures InApllRange(0, doubled) ==> doubled <= 3_232_000_000
  {
  }

  lemma ApllPfd(pll: nat, doubled: U64)
    requires InApllRange(pll, doubled)
    ensures 9 <= MDiv(doubled) <= 15 && PfdInRange(doubled)
  {
    hide MDiv;
    MDivIs(doubled);
  }

  // Phase buildout

  datatype Params = Params(m: U32, n: U32, num: U64, den: U64)

  /** The divisors ad9545_calc_pll_params passes to div64_u64 and div_u64; the
      latter takes a 32-bit divisor. */
  function Divisor(rate: U64, parent: U64): U64 { Low64(parent * MDiv(Low64(2 * rate))) }

  function MinDivisor(parent: U64): U32 { Low32(AD9545_APLL_M_DIV_MAX * parent) }

  function RawN(rate: U64, parent: U64): U32
    requires Divisor(rate, parent) != 0
  {
    Low32(Low64(2 * rate) / Divisor(rate, parent))
  }

  function MinN(pll: nat, parent: U64): U32
    requires MinDivisor(parent) != 0
  {
    Low32(ApllLow(pll) / MinDivisor(parent))
  }

  /** ad9545_calc_pll_params in phase-buildout mode up to the approximation. */
  function CalcParams(pll: nat, rate: U64, parent: U64): Params
    requires Divisor(rate, parent) != 0 && MinDivisor(parent) != 0
  {
    var doubled := Low64(2 * rate);
    var m := MDiv(doubled);
    var n := Clamp(RawN(rate, parent), MinN(pll, parent), AD9545_DPLL_MAX_N);
    Params(m, n, Low64(doubled - Low64(Low32(n * m) * parent)), Low64(m * parent))
  }

  /** The rate the chosen parameters give, doubled. */
  function OutputRate(p: Params, parent: U64, frac: nat, mod: nat): U64
    requires mod > 0
  {
    Low64(Low64(Low64(frac * parent) * p.m / mod) + Low64(Low64(parent * p.n) * p.m))
  }

  function ReturnedRate(output: U64): U32 { Low32(Low64(output + 1) / 2) }

  predicate SameRatio(a: int, b: int, num: int, den: int) { a * den == b * num }

  /** How far a/b is from num/den, times b den. */
  function Miss(num: int, den: int, a: int, b: int): nat { Abs(a * den - num * b) }

  /** What is asked of rational_best_approximation: a fraction within the limits,
      and none within the limits is closer. */
  ghost predicate Approximates(num: int, den: int, frac: int, mod: int)
  {
    && 0 <= frac <= AD9545_DPLL_MAX_FRAC && 0 < mod <= AD9545_DPLL_MAX_MOD
    && forall a, b :: 0 <= a <= AD9545_DPLL_MAX_FRAC && 0 < b <= AD9545_DPLL_MAX_MOD ==>
         Miss(num, den, frac, mod) * b <= Miss(num, den, a, b) * mod
  }

  /** Some fraction within the limits is exact. */
  ghost predicate Attainable(num: int, den: int)
  {
    exists a, b :: 0 <= a <= AD9545_DPLL_MAX_FRAC && 0 < b <= AD9545_DPLL_MAX_MOD && SameRatio(a, b, num, den)
  }

  /** It is exact if any fraction within the limits is. */
  lemma ExactIfAny(num: int, den: int, frac: int, mod: int)
    requires Approximates(num, den, frac, mod) && Attainable(num, den)
    ensures SameRatio(frac, mod, num, den)
  {
    var a, b :| 0 <= a <= AD9545_DPLL_MAX_FRAC && 0 < b <= AD9545_DPLL_MAX_MOD && SameRatio(a, b, num, den);
    assert Miss(num, den, a, b) == 0;
    if Miss(num, den, frac, mod) >= 1 { MulMono(1, Miss(num, den, frac, mod), b); }
  }

  /** It is not above 1 if num/den is not. */
  lemma NotAboveOne(num: nat, den: nat, frac: int, mod: int)
    requires Approximates(num, den, frac, mod) && num <= den && den > 0
    ensures frac <= mod
  {
    assert Miss(num, den, frac, mod) * 1 <= Miss(num, den, 1, 1) * mod;
    assert (den - num) * mod == den * mod - num * mod;
    if frac > mod { MulMono(mod + 1, frac, den); }
  }

  /** It is off by at most half a step of the largest denominator. */
  lemma WithinHalfStep(num: nat, den: nat, frac: int, mod: int)
    requires Approximates(num, den, frac, mod) && num <= den && den > 0
    ensures 2 * AD9545_DPLL_MAX_MOD * Miss(num, den, frac, mod) <= mod * den
  {
    hide Miss;
    var a := Nearest(num, den);
    var miss := Miss(num, den, a, AD9545_DPLL_MAX_MOD);
    MulMono(2 * miss, den, mod);
    Assoc(2, miss, mod);
  }

  /** The multiple of the smallest step that is nearest to num/den. */
  lemma Nearest(num: nat, den: nat) returns (a: nat)
    requires num <= den && den > 0
    ensures a <= AD9545_DPLL_MAX_MOD && 2 * Miss(num, den, a, AD9545_DPLL_MAX_MOD) <= den
  {
    var x, d := 2 * (num * AD9545_DPLL_MAX_MOD) + den, 2 * den;
    MulMono(num, den, AD9545_DPLL_MAX_MOD);
    DivLargest(x, d, 0);
    a := x / d;
    DivLargest(x, d, AD9545_DPLL_MAX_MOD + 1);
    DivParts(x, d);
    Assoc(2, den, a);
  }

  /** The lower clamp on N leaves the quotient alone, and nothing overflows. */
  predicate Unclamped(pll: nat, rate: U64, parent: U64)
  {
    && parent * MDiv(Low64(2 * rate)) < 0x1_0000_0000_0000_0000
    && MinDivisor(parent) != 0
    && Divisor(rate, parent) != 0
    && MinN(pll, parent) <= RawN(rate, parent)
  }

  /** In numbers: the lowest APLL rate over the 32 bits left of 255 parents does not
      exceed what N has to be, M being the doubled rate over 256 MHz. */
  lemma UnclampedIff(pll: nat, rate: U64, parent: U64)
    requires InApllRange(pll, 2 * rate)
    ensures
      var low := if pll == 0 then 2_424_000_000 else 3_232_000_000;
      var den, cut := parent * (2 * rate / 256_000_000), 255 * parent % 0x1_0000_0000;
      Unclamped(pll, rate, parent)
      <==> 0 < den < 0x1_0000_0000_0000_0000 && cut != 0 && low / cut <= 2 * rate / den
  {
    hide MDiv;
    Fits64(2 * rate);
    MDivIs(2 * rate);
    assert MDiv(2 * rate) == 2 * rate / 256_000_000 >= 9;
    if 0 < parent && parent * MDiv(2 * rate) < 0x1_0000_0000_0000_0000 {
      DivisorIs(pll, rate, parent);
      if MinDivisor(parent) != 0 { MinNIs(pll, parent); }
    }
  }

  lemma MinNIs(pll: nat, parent: U64)
    requires MinDivisor(parent) != 0
    ensures MinN(pll, parent) == ApllLow(pll) / (255 * parent % 0x1_0000_0000)
  {
    DivMono(ApllLow(pll), ApllLow(pll), 1, MinDivisor(parent));
    Fits32(ApllLow(pll) / MinDivisor(parent));
  }

  /** Parents below 2^32 / 255 Hz never meet the clamp. */
  lemma SlowParentUnclamped(pll: nat, rate: U64, parent: U64)
    requires InApllRange(pll, 2 * rate)
    requires 0 < parent && AD9545_APLL_M_DIV_MAX * parent < 0x1_0000_0000
    ensures Unclamped(pll, rate, parent)
  {
    hide MDiv, Low64, Low32;
    ApllPfd(pll, 2 * rate);
    DivisorIs(pll, rate, parent);
    Fits32(AD9545_APLL_M_DIV_MAX * parent);
    var den := parent * MDiv(2 * rate);
    MulMono(MDiv(2 * rate), AD9545_APLL_M_DIV_MAX, parent);
    DivMono(ApllLow(pll), 2 * rate, den, AD9545_APLL_M_DIV_MAX * parent);
    Fits32(ApllLow(pll) / (AD9545_APLL_M_DIV_MAX * parent));
  }

  /** In the APLL range the quotient itself never overflows or meets the upper clamp. */
  lemma DivisorIs(pll: nat, rate: U64, parent: U64)
    requires InApllRange(pll, 2 * rate) && 0 < parent && parent * MDiv(2 * rate) < 0x1_0000_0000_0000_0000
    ensures Low64(2 * rate) == 2 * rate
    ensures 0 < Divisor(rate, parent) == parent * MDiv(2 * rate) <= 15 * parent
    ensures RawN(rate, parent) == 2 * rate / (parent * MDiv(2 * rate)) <= AD9545_DPLL_MAX_N
  {
    hide MDiv, Low64, Low32;
    ApllPfd(pll, 2 * rate);
    Fits64(2 * rate);
    var den := parent * MDiv(2 * rate);
    MulMono(MDiv(2 * rate), 15, parent);
    MulMono(9, MDiv(2 * rate), parent);
    Fits64(den);
    DivMono(2 * rate, 2 * rate, 9, den);
    Fits32(2 * rate / den);
  }

  /** A faster parent can: the divisor of the minimum is cut to 32 bits, 254
      here, and N becomes 9543307 where 16 was wanted. */
  lemma FastParentClamped()
    ensures InApllRange(0, 2 * 1_500_000_000)
    ensures Divisor(1_500_000_000, 16_843_010) != 0 && MinDivisor(16_843_010) != 0
    ensures !Unclamped(0, 1_500_000_000, 16_843_010)
    ensures CalcParams(0, 1_500_000_000, 16_843_010).n == 9_543_307
    ensures 2 * 1_500_000_000 / (16_843_010 * MDiv(2 * 1_500_000_000)) == 16
  {
    hide Low64;
    DivisorIs(0, 1_500_000_000, 16_843_010);
    MDivIs(3_000_000_000);
    assert MDiv(3_000_000_000) == 11;
    assert MinDivisor(16_843_010) == 254;
  }

  /** N is the whole part and num/den the fraction of doubled rate / (M parent),
      exactly when the product fits and the lower clamp leaves the quotient alone. */
  lemma Decomposition(pll: nat, rate: U64, parent: U64)
    requires InApllRange(pll, 2 * rate) && Divisor(rate, parent) != 0 && MinDivisor(parent) != 0
    ensures
      var p := CalcParams(pll, rate, parent);
      && 9 <= p.m == 2 * rate / 256_000_000 <= 15 && p.n <= AD9545_DPLL_MAX_N
      && (p.den == p.m * parent && 2 * rate == p.den * p.n + p.num && p.num < p.den <==> Unclamped(pll, rate, parent))
  {
    hide MDiv, Low64, RawN, MinN, MinDivisor;
    ApllPfd(pll, 2 * rate);
    MDivIs(2 * rate);
    Fits64(2 * rate);
    var m, p := MDiv(2 * rate), CalcParams(pll, rate, parent);
    if m * parent >= 0x1_0000_0000_0000_0000 {
      Low64Range(m * parent);
    } else {
      NarrowDecomposition(pll, rate, parent);
    }
  }

  lemma Low64Range(x: int)
    ensures 0 <= Low64(x) < 0x1_0000_0000_0000_0000
  {
  }

  lemma NarrowDecomposition(pll: nat, rate: U64, parent: U64)
    requires InApllRange(pll, 2 * rate) && Divisor(rate, parent) != 0 && MinDivisor(parent) != 0
    requires parent * MDiv(2 * rate) < 0x1_0000_0000_0000_0000
    ensures 0 < parent
    ensures
      var p := CalcParams(pll, rate, parent);
      && p.den == p.m * parent > 0 && p.m == MDiv(2 * rate)
      && (2 * rate == p.den * p.n + p.num && p.num < p.den <==> Unclamped(pll, rate, parent))
      && (!Unclamped(pll, rate, parent) ==> p.n > 2 * rate / p.den)
  {
    hide MDiv, Low64, Low32, RawN, MinN, MinDivisor, Divisor;
    ApllPfd(pll, 2 * rate);
    PositiveParent(rate, parent);
    DivisorIs(pll, rate, parent);
    var m, q := MDiv(2 * rate), RawN(rate, parent);
    Fits64(m * parent);
    var p := CalcParams(pll, rate, parent);
    NearlyAll(2 * rate, parent, m);
    if Unclamped(pll, rate, parent) {
      Remainder(rate, parent, m, q);
    } else {
      TooLarge(2 * rate, m * parent, p.n, p.num);
    }
  }

  lemma NearlyAll(doubled: nat, parent: nat, m: nat)
    requires doubled < 0x1_0000_0000 && parent > 0 && m >= 9
    ensures parent * m > 0 && 0 <= doubled / (parent * m) < AD9545_DPLL_MAX_N
  {
    MulMono(1, parent, m);
    DivMono(doubled, doubled, 9, parent * m);
  }

  lemma PositiveParent(rate: U64, parent: U64)
    requires Divisor(rate, parent) != 0
    ensures parent > 0
  {
    if parent == 0 { Fits64(0); }
  }

  lemma TooLarge(x: int, den: int, n: int, num: nat)
    requires den > 0 && n > x / den
    ensures x != den * n + num
  {
    DivLargest(x, den, n);
  }

  /** With N the quotient, none of the products of the remainder overflows. */
  lemma Remainder(rate: U64, parent: U64, m: U32, n: U32)
    requires 2 * rate < 0x1_0000_0000 && 0 < m <= 15 && 0 < parent
    requires 0 < parent * m < 0x1_0000_0000_0000_0000 && n == 2 * rate / (parent * m)
    ensures Low64(2 * rate - Low64(Low32(n * m) * parent)) == 2 * rate - parent * m * n
    ensures 0 <= 2 * rate - parent * m * n < parent * m
  {
    hide Low64, Low32;
    var den := parent * m;
    DivParts(2 * rate, den);
    assert n * m * parent == den * n by { Assoc(n, m, parent); }
    assert n * m <= n * m * parent by { MulMono(1, parent, n * m); }
    Fits32(n * m);
    Fits64(den * n);
    Fits64(2 * rate - den * n);
  }

  /** The rate returned is the rate asked for when any fraction within the limits
      is exact; otherwise the output is off by less than half a step of the largest
      denominator and one rounding, and the rate returned by half of that and two. */
  lemma BuildoutRate(pll: nat, rate: U64, parent: U64, frac: nat, mod: nat)
    requires InApllRange(pll, 2 * rate) && Unclamped(pll, rate, parent) && parent < 0x100_0000_0000
    requires Approximates(CalcParams(pll, rate, parent).num, CalcParams(pll, rate, parent).den, frac, mod)
    ensures
      var p := CalcParams(pll, rate, parent);
      && (Attainable(p.num, p.den) ==> ReturnedRate(OutputRate(p, parent, frac, mod)) == rate)
      && Accurate(p, parent, frac, mod, rate)
      && 4 * AD9545_DPLL_MAX_MOD * Abs(ReturnedRate(OutputRate(p, parent, frac, mod)) - rate)
         < p.den + 4 * AD9545_DPLL_MAX_MOD
  {
    hide CalcParams, OutputRate, Abs, Low64, Low32, RawN, MinN, Divisor, MinDivisor, ReturnedRate, Miss, SameRatio;
    var p := CalcParams(pll, rate, parent);
    Decomposition(pll, rate, parent);
    NotAboveOne(p.num, p.den, frac, mod);
    WithinHalfStep(p.num, p.den, frac, mod);
    OutputError(p, rate, parent, frac, mod);
    var output := OutputRate(p, parent, frac, mod);
    Accuracy(mod, p.den, Miss(p.num, p.den, frac, mod), Abs(output - 2 * rate));
    NoOverflow(output, 2 * rate, p.den);
    ReturnedError(output, rate, p.den);
    if Attainable(p.num, p.den) { ExactIfAny(p.num, p.den, frac, mod); }
  }

  /** The output is off by less than den / (2 MAX_MOD) + 1 Hz. */
  predicate Accurate(p: Params, parent: U64, frac: nat, mod: nat, rate: U64)
    requires mod > 0
  {
    2 * AD9545_DPLL_MAX_MOD * Abs(OutputRate(p, parent, frac, mod) - 2 * rate) < p.den + 2 * AD9545_DPLL_MAX_MOD
  }

  /** For parents below 2^28 Hz - the reference inputs take less - the output is
      that accurate if and only if the lower clamp leaves the quotient alone. */
  lemma AccurateIffUnclamped(pll: nat, rate: U64, parent: U64, frac: nat, mod: nat)
    requires InApllRange(pll, 2 * rate) && 0 < parent < 0x1000_0000
    requires Divisor(rate, parent) != 0 && MinDivisor(parent) != 0
    requires Approximates(CalcParams(pll, rate, parent).num, CalcParams(pll, rate, parent).den, frac, mod)
    ensures Accurate(CalcParams(pll, rate, parent), parent, frac, mod, rate) <==> Unclamped(pll, rate, parent)
  {
    hide CalcParams, OutputRate, Abs, Low64, Low32, RawN, MinN, Divisor, MinDivisor, Approximates, MDiv;
    if Unclamped(pll, rate, parent) {
      BuildoutRate(pll, rate, parent, frac, mod);
    } else {
      ClampedRate(pll, rate, parent, frac, mod);
      FarOff(OutputRate(CalcParams(pll, rate, parent), parent, frac, mod), 2 * rate, CalcParams(pll, rate, parent).den);
    }
  }

  lemma FarOff(output: nat, doubled: nat, den: nat)
    requires output > doubled + AD9545_DPLL_MAX_FRAC * den
    ensures 2 * AD9545_DPLL_MAX_MOD * Abs(output - doubled) >= den + 2 * AD9545_DPLL_MAX_MOD
  {
  }

  /** Otherwise the remainder wraps around, the fraction is the largest there is,
      and the output is too high by millions of times the PFD rate. */
  lemma ClampedRate(pll: nat, rate: U64, parent: U64, frac: nat, mod: nat)
    requires InApllRange(pll, 2 * rate) && 0 < parent < 0x1000_0000
    requires Divisor(rate, parent) != 0 && MinDivisor(parent) != 0 && !Unclamped(pll, rate, parent)
    requires Approximates(CalcParams(pll, rate, parent).num, CalcParams(pll, rate, parent).den, frac, mod)
    ensures
      var p := CalcParams(pll, rate, parent);
      && frac == AD9545_DPLL_MAX_FRAC && mod == 1 && p.den > 0
      && OutputRate(p, parent, frac, mod) > 2 * rate + AD9545_DPLL_MAX_FRAC * p.den
  {
    hide OutputRate, CalcParams, Low64, Low32, RawN, MinN, Divisor, MinDivisor, Approximates, MDiv;
    ApllPfd(pll, 2 * rate);
    MulMono(MDiv(2 * rate), 15, parent);
    Fits64(2 * rate);
    NarrowDecomposition(pll, rate, parent);
    var p := CalcParams(pll, rate, parent);
    SmallN(pll, rate, parent);
    DivLargest(2 * rate, p.den, p.n);
    MulMono(p.den, 15 * parent, p.n);
    MulMono(p.n, 0x200_0000, 15 * parent);
    WrappedRemainder(pll, rate, parent);
    LargeFraction(p.num, p.den, frac, mod);
    LargeOutput(p, parent);
  }

  /** The minimum divisor of such a parent is never less than 240. */
  lemma SmallN(pll: nat, rate: U64, parent: U64)
    requires 0 < parent < 0x1000_0000 && Divisor(rate, parent) != 0 && MinDivisor(parent) != 0
    requires InApllRange(pll, 2 * rate) && !Unclamped(pll, rate, parent)
    requires parent * MDiv(Low64(2 * rate)) < 0x1_0000_0000_0000_0000
    ensures CalcParams(pll, rate, parent).n < 0x200_0000
  {
    hide MDiv, Low64, Low32, RawN, Divisor;
    var k := AD9545_APLL_M_DIV_MAX * parent / 0x1_0000_0000;
    DivParts(AD9545_APLL_M_DIV_MAX * parent, 0x1_0000_0000);
    var s := MinDivisor(parent);
    assert s == AD9545_APLL_M_DIV_MAX * parent - 0x1_0000_0000 * k by { LowPart(AD9545_APLL_M_DIV_MAX * parent); }
    assert s >= 240;
    DivMono(ApllLow(pll), ApllLow(pll), 240, s);
    Fits32(ApllLow(pll) / s);
  }

  lemma LowPart(x: nat)
    ensures Low32(x) == x - x / 0x1_0000_0000 * 0x1_0000_0000
  {
  }

  lemma WrappedRemainder(pll: nat, rate: U64, parent: U64)
    requires Divisor(rate, parent) != 0 && MinDivisor(parent) != 0 && 2 * rate < 0x1_0000_0000
    requires
      var p := CalcParams(pll, rate, parent);
      && p.m <= 15 && p.n < 0x200_0000 && p.den == p.m * parent && 2 * rate < p.den * p.n < 0x200_0000_0000_0000
    ensures
      var p := CalcParams(pll, rate, parent);
      p.num == 0x1_0000_0000_0000_0000 + 2 * rate - p.den * p.n
  {
    hide MDiv, Low64, Low32, RawN, MinN, Divisor, MinDivisor;
    var p := CalcParams(pll, rate, parent);
    Fits64(2 * rate);
    Fits64(p.den * p.n);
    Borrowed(2 * rate - p.den * p.n);
    MulMono(0, p.n, p.m);
    MulMono(p.m, 15, p.n);
    Fits32(p.n * p.m);
    Assoc(p.n, p.m, parent);
    assert p.n * p.m * parent == p.den * p.n;
  }

  lemma Borrowed(x: int)
    requires -0x1_0000_0000_0000_0000 <= x < 0
    ensures Low64(x) == x + 0x1_0000_0000_0000_0000
  {
  }

  /** Of a fraction beyond the limits, the closest within is the largest. */
  lemma LargeFraction(num: nat, den: nat, frac: nat, mod: nat)
    requires den > 0 && num >= AD9545_DPLL_MAX_FRAC * den && Approximates(num, den, frac, mod)
    ensures frac == AD9545_DPLL_MAX_FRAC && mod == 1
  {
    assert Miss(num, den, frac, mod) * 1 <= Miss(num, den, AD9545_DPLL_MAX_FRAC, 1) * mod;
    MulMono(AD9545_DPLL_MAX_FRAC * den, num, mod);
    MulMono(frac, AD9545_DPLL_MAX_FRAC * mod, den);
    Assoc(AD9545_DPLL_MAX_FRAC, den, mod);
    assert (num - AD9545_DPLL_MAX_FRAC * den) * mod == num * mod - AD9545_DPLL_MAX_FRAC * den * mod;
    if frac < AD9545_DPLL_MAX_FRAC * mod {
      MulMono(frac + 1, AD9545_DPLL_MAX_FRAC * mod, den);
    }
  }

  lemma LargeOutput(p: Params, parent: U64)
    requires 0 < parent < 0x1000_0000 && p.m <= 15 && p.den == p.m * parent && p.den * p.n < 0x200_0000_0000_0000
    requires p.m > 0
    ensures OutputRate(p, parent, AD9545_DPLL_MAX_FRAC, 1) == AD9545_DPLL_MAX_FRAC * p.den + p.den * p.n
  {
    hide Low64;
    var a := AD9545_DPLL_MAX_FRAC * parent;
    Fits64(a);
    Assoc(AD9545_DPLL_MAX_FRAC, parent, p.m);
    MulMono(p.m, 15, parent);
    DivUnique(a * p.m, 1, a * p.m);
    Fits64(a * p.m);
    Assoc(parent, p.n, p.m);
    MulMono(1, p.m, parent * p.n);
    Fits64(parent * p.n);
    Fits64(p.den * p.n);
    Fits64(a * p.m + p.den * p.n);
  }

  lemma Accuracy(mod: nat, den: nat, miss: nat, error: nat)
    requires mod > 0 && mod * error < miss + mod && 2 * AD9545_DPLL_MAX_MOD * miss <= mod * den
    ensures 2 * AD9545_DPLL_MAX_MOD * error < den + 2 * AD9545_DPLL_MAX_MOD
  {
    var k := 2 * AD9545_DPLL_MAX_MOD;
    Assoc(k, mod, error);
    assert mod * (k * error) == k * (mod * error);
    assert mod * (den + k) == mod * den + k * mod;
    if k * error >= den + k { MulMono(den + k, k * error, mod); }
  }

  lemma NoOverflow(output: U64, doubled: int, den: nat)
    requires 2 * AD9545_DPLL_MAX_MOD * Abs(output - doubled) < den + 2 * AD9545_DPLL_MAX_MOD
    requires doubled < 0x1_0000_0000 && den <= 15 * 0x100_0000_0000
    ensures output < 0x1_FFFF_FFFF
  {
  }

  lemma OutputError(p: Params, rate: U64, parent: U64, frac: nat, mod: nat)
    requires 0 < parent < 0x100_0000_0000 && 0 < mod && frac <= mod && frac <= AD9545_DPLL_MAX_FRAC
    requires 0 < p.m <= 15 && p.den == p.m * parent && 2 * rate == p.den * p.n + p.num <= 0x1_0000_0000
    ensures
      var output := OutputRate(p, parent, frac, mod);
      && (SameRatio(frac, mod, p.num, p.den) ==> ReturnedRate(output) == rate)
      && mod * Abs(output - 2 * rate) < Miss(p.num, p.den, frac, mod) + mod
  {
    hide OutputRate, Abs, Low64, Low32;
    OutputIs(p, parent, frac, mod);
    FloorError(frac * p.den, mod, p.num);
    if SameRatio(frac, mod, p.num, p.den) {
      DivUnique(frac * p.den, mod, p.num);
      Fits64(2 * rate + 1);
      Fits32((2 * rate + 1) / 2);
    }
  }

  lemma ReturnedError(output: U64, rate: U64, den: nat)
    requires output < 0x1_FFFF_FFFF
    requires 2 * AD9545_DPLL_MAX_MOD * Abs(output - 2 * rate) < den + 2 * AD9545_DPLL_MAX_MOD
    ensures 4 * AD9545_DPLL_MAX_MOD * Abs(ReturnedRate(output) - rate) < den + 4 * AD9545_DPLL_MAX_MOD
  {
    hide Low64, Low32;
    Fits64(output + 1);
    Fits32((output + 1) / 2);
  }

  /** Rounding a/d down and comparing with x loses less than one unit of d. */
  lemma FloorError(a: nat, d: nat, x: int)
    requires d > 0
    ensures d * Abs(a / d - x) < Abs(a - x * d) + d
  {
    hide Abs;
    DivParts(a, d);
    assert d * (a / d - x) == (a - x * d) - a % d;
    AbsMul(d, a / d - x);
    AbsShift(a - x * d, a % d);
  }

  lemma AbsShift(x: int, r: nat)
    ensures Abs(x - r) <= Abs(x) + r
  {
  }

  lemma AbsMul(a: nat, x: int)
    ensures a * Abs(x) == Abs(a * x)
  {
    if x < 0 {
      MulMono(0, -x, a);
      assert a * (-x) == -(a * x);
    } else {
      MulMono(0, x, a);
    }
  }

  /** No step of the output computation overflows. */
  lemma OutputIs(p: Params, parent: U64, frac: nat, mod: nat)
    requires 0 < parent < 0x100_0000_0000 && 0 < mod && frac <= mod && frac <= AD9545_DPLL_MAX_FRAC
    requires 0 < p.m <= 15 && p.den == p.m * parent && p.den * p.n <= 0x1_0000_0000
    ensures OutputRate(p, parent, frac, mod) == frac * p.den / mod + p.den * p.n
  {
    hide Low64;
    MulMono(frac, AD9545_DPLL_MAX_FRAC, parent);
    Fits64(frac * parent);
    Assoc(frac, parent, p.m);
    MulMono(frac, mod, p.den);
    DivMono(frac * p.den, mod * p.den, mod, mod);
    DivUnique(mod * p.den, mod, p.den);
    MulMono(p.m, 15, parent);
    Fits64(frac * p.den / mod);
    Assoc(parent, p.n, p.m);
    MulMono(1, p.m, parent * p.n);
    Fits64(parent * p.n);
    Fits64(p.den * p.n);
    Fits64(frac * p.den / mod + p.den * p.n);
  }
}
