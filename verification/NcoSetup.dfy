/** After probe, profiles whose source is an auxiliary NCO are derived from the
    active profile so that both give the PLL the same frequency. */
module NcoSetup {
  import opened Registers
  import opened ProfileCodec
  import opened PllMath

  const AD9545_SOURCE_AUX_NCO0: nat := 8
  const EXTERNAL_REFS: nat := 4

  /** N + frac/mod as a fraction; mod 0 stands for no fraction. */
  function Numerator(p: Profile): U64
    ensures Numerator(p) > 0
  {
    Products(p.nDiv + 1, p.mod);
    if p.mod != 0 then (p.nDiv + 1) * p.mod + p.frac else p.nDiv + 1
  }

  lemma Products(n: nat, mod: U24)
    requires n <= 0x1_0000_0000
    ensures 0 <= n * mod <= 0x1_0000_0000 * 0x100_0000
    ensures n > 0 && mod > 0 ==> n * mod > 0
  {
    MulMono(n, 0x1_0000_0000, mod);
    if n > 0 { MulMono(1, n, mod); }
  }

  function Denominator(p: Profile): (d: U24)
    ensures d > 0
  {
    if p.mod != 0 then p.mod else 1
  }

  /** R - 1 is a 30-bit register field. */
  type RDiv = x: int | 1 <= x <= 0x4000_0000 witness 1

  /** ad9545_pll_get_active_freq: R * mod. */
  function Factor(rDiv: RDiv, p: Profile): (f: U64)
    ensures f > 0
  {
    Products(rDiv, Denominator(p));
    rDiv * Denominator(p)
  }

  // The translation

  /** [ref * n / (factor * freq)], as two truncating divisions of a 64-bit product. */
  function NcoDiv(ref: U64, n: U64, factor: U64, freq: U32): U64
    requires factor > 0 && freq > 0
  {
    Low64(Low64(ref * n) / factor / freq)
  }

  function NcoNum(ref: U64, n: U64, factor: U64, freq: U32): U64
    requires factor > 0 && freq > 0
  {
    Low64(Low64(ref * n) - Low64(Low64(factor * freq) * NcoDiv(ref, n, factor, freq)))
  }

  /** The profile for an NCO, derived from the active one. */
  function Translated(active: Profile, source: U5, nDiv: U64, frac: nat, mod: nat): Profile
  {
    var mod := if frac == 0 then 0 else mod;
    active.(source := source, nDiv := Low32(nDiv - 1), frac := frac % 0x100_0000, mod := mod % 0x100_0000)
  }

  /** The nested divisions give the floor of the quotient, and num/den its fraction. */
  lemma NcoDecomposition(ref: U64, n: U64, factor: U64, freq: U32)
    requires factor > 0 && freq > 0 && factor * freq < 0x1_0000_0000_0000_0000
    ensures
      var den := factor * freq;
      && den > 0
      && NcoDiv(ref, n, factor, freq) == Low64(ref * n) / den
      && NcoNum(ref, n, factor, freq) == Low64(ref * n) % den
  {
    hide Low64;
    var x := Low64(ref * n);
    NestedFloor(x, factor, freq);
    var den := factor * freq;
    DivParts(x, den);
    DivMono(x, x, 1, den);
    Fits64(x / den);
    Fits64(den);
    DivLargest(x, den, 0);
    MulMono(0, x / den, den);
    Fits64(den * (x / den));
    Fits64(x % den);
  }

  /** N as stored and decoded again: N - 1 is kept in 32 bits. */
  function StoredN(nDiv: U64): int { Low32(nDiv - 1) + 1 }

  /** What decoding the stored profile the way the active one is decoded gives. */
  lemma StoredQuotient(base: Profile, source: U5, nDiv: U64, num: nat, den: nat, frac: nat, mod: nat)
    requires den > 0
    requires frac <= AD9545_DPLL_MAX_FRAC && 0 < mod <= AD9545_DPLL_MAX_MOD
    requires SameRatio(frac, mod, num, den)
    ensures
      var p := Translated(base, source, nDiv, frac, mod);
      Numerator(p) * den == (den * StoredN(nDiv) + num) * Denominator(p)
  {
    var p, n := Translated(base, source, nDiv, frac, mod), StoredN(nDiv);
    if frac == 0 {
      assert num * mod == 0;
      MulZero(num, mod);
      assert Numerator(p) == n && Denominator(p) == 1;
    } else {
      assert Numerator(p) == n * mod + frac && Denominator(p) == mod;
      Distribute(n * mod, frac, den);
      Distribute(den * n, num, mod);
      Assoc(n, mod, den);
    }
  }

  lemma MulZero(a: nat, b: nat)
    requires a * b == 0 && b > 0
    ensures a == 0
  {
    if a > 0 { MulMono(1, a, b); }
  }

  lemma Distribute(a: int, b: int, c: int)
    ensures (a + b) * c == a * c + b * c
  {
  }

  /** The profile ad9545_plls_post_setup derives for an NCO of `freq` Hz: a copy
      of the driver's profile `base`, with the divider of the active registers. */
  function Derived(base: Profile, active: Profile, rDiv: RDiv, ref: U64, source: U5, freq: U32,
                   frac: nat, mod: nat): Profile
    requires freq > 0
  {
    Translated(base, source, NcoDiv(ref, Numerator(active), Factor(rDiv, active), freq), frac, mod)
  }

  /** The fraction frac/mod is what is left of ref n / (factor freq) after its floor. */
  ghost predicate ExactFraction(active: Profile, rDiv: RDiv, ref: U64, freq: U32, frac: nat, mod: nat)
    requires freq > 0
  {
    && frac <= AD9545_DPLL_MAX_FRAC && 0 < mod <= AD9545_DPLL_MAX_MOD
    && SameRatio(frac, mod, NcoNum(ref, Numerator(active), Factor(rDiv, active), freq),
                 Low64(Factor(rDiv, active) * freq))
  }

  /** The profile makes the PLL run at the active one's frequency. */
  ghost predicate SameFrequency(p: Profile, active: Profile, rDiv: RDiv, ref: U64, freq: U32)
  {
    freq * Numerator(p) * Factor(rDiv, active) == ref * Numerator(active) * Denominator(p)
  }

  /** N + frac/mod as decoded from a profile; mod 0 stands for no fraction. */
  lemma RatioIs(p: Profile)
    ensures Numerator(p) as real / Denominator(p) as real
         == (p.nDiv + 1) as real + if p.mod == 0 then 0.0 else p.frac as real / p.mod as real
  {
    if p.mod != 0 {
      var n, f, m := (p.nDiv + 1) as real, p.frac as real, p.mod as real;
      assert Numerator(p) as real == n * m + f;
      assert (n * m + f) / m == n + f / m;
    }
  }

  /** In Hz: the NCO's rate times the profile's N + frac/mod is the reference's rate
      over R times the active profile's. */
  lemma SameFrequencyInHz(p: Profile, active: Profile, rDiv: RDiv, ref: U64, freq: U32)
    ensures SameFrequency(p, active, rDiv, ref, freq) <==>
              freq as real * ((p.nDiv + 1) as real + if p.mod == 0 then 0.0 else p.frac as real / p.mod as real)
              == ref as real / rDiv as real *
                 ((active.nDiv + 1) as real + if active.mod == 0 then 0.0 else active.frac as real / active.mod as real)
  {
    hide Numerator, Denominator;
    RatioIs(p);
    RatioIs(active);
    var a, b := Numerator(p) as real, Denominator(p) as real;
    var c, d := Numerator(active) as real, Denominator(active) as real;
    CrossRatios(freq as real, a, b, ref as real, rDiv as real, c, d);
    assert (freq * Numerator(p) * Factor(rDiv, active)) as real == freq as real * a * (rDiv as real * d);
    assert (ref * Numerator(active) * Denominator(p)) as real == ref as real * c * b;
  }

  lemma CrossRatios(f: real, a: real, b: real, r: real, k: real, c: real, d: real)
    requires b > 0.0 && k > 0.0 && d > 0.0
    ensures f * a * (k * d) == r * c * b <==> f * (a / b) == r / k * (c / d)
  {
    var x, y := f * (a / b), r / k * (c / d);
    assert x * (b * (k * d)) == f * a * (k * d) by { assert a / b * b == a; }
    assert y * (b * (k * d)) == r * c * b by { assert r / k * k == r && c / d * d == c; }
    assert b * (k * d) > 0.0;
    if x != y { assert (x - y) * (b * (k * d)) != 0.0; }
  }

  /** No product overflows, nor the stored N; or N wraps around to 2^32, and that
      and the fraction happen to make up for exactly what the products have lost. */
  predicate Translatable(active: Profile, rDiv: RDiv, ref: U64, freq: U32)
    requires freq > 0
  {
    var n, den := Numerator(active), Factor(rDiv, active) * freq;
    var nDiv := NcoDiv(ref, n, Factor(rDiv, active), freq);
    || (den < 0x1_0000_0000_0000_0000 && ref * n < 0x1_0000_0000_0000_0000 && 1 <= nDiv <= 0x1_0000_0000)
    || (nDiv == 0 && den * (0x1_0000_0000 * Low64(den) + Low64(ref * n)) == ref * n * Low64(den))
  }

  /** The translated profile makes the PLL run at the same frequency,
      freq * (N + frac/mod) == ref * n / factor, exactly in those cases. */
  lemma FrequencyPreserved(
    base: Profile, active: Profile, rDiv: RDiv, ref: U64, source: U5, freq: U32, frac: nat, mod: nat)
    requires 0 < freq && Low64(Factor(rDiv, active) * freq) != 0
    requires ExactFraction(active, rDiv, ref, freq, frac, mod)
    ensures SameFrequency(Derived(base, active, rDiv, ref, source, freq, frac, mod), active, rDiv, ref, freq)
            <==> Translatable(active, rDiv, ref, freq)
  {
    hide Low64, Low32, Translated, Numerator, Denominator, Factor, NcoDiv, NcoNum, StoredN;
    var n, factor := Numerator(active), Factor(rDiv, active);
    var den, x := factor * freq, Low64(ref * n);
    var low := Low64(den);
    Low64Range(den);
    var nDiv := NcoDiv(ref, n, factor, freq);
    var num := NcoNum(ref, n, factor, freq);
    var p := Derived(base, active, rDiv, ref, source, freq, frac, mod);
    StoredQuotient(base, source, nDiv, num, low, frac, mod);
    SameProduct(freq, Numerator(p), factor, ref, n, Denominator(p), low, low * StoredN(nDiv) + num);
    MulMono(0, ref, n);
    if den < 0x1_0000_0000_0000_0000 {
      NarrowDivisor(ref, n, factor, freq);
    } else {
      WideDivisor(ref, n, factor, freq);
    }
  }

  /** With Numerator/Denominator == y/low, the equation of the frequencies is one of integers. */
  lemma SameProduct(freq: int, numer: int, factor: int, ref: int, n: int, denom: int, low: int, y: int)
    requires denom > 0 && low > 0 && numer * low == y * denom
    ensures freq * numer * factor == ref * n * denom <==> factor * freq * y == ref * n * low
  {
    var d, x := factor * freq, ref * n;
    assert freq * numer * factor == d * numer by { Assoc(freq, numer, factor); Assoc(factor, freq, numer); }
    assert d * y * denom == d * numer * low by { Assoc(d, y, denom); Assoc(d, numer, low); }
    assert x * low * denom == x * denom * low by { Assoc(x, low, denom); }
    SameFactor(d * y, x * low, denom);
    SameFactor(d * numer, x * denom, low);
  }

  lemma NarrowDivisor(ref: U64, n: U64, factor: U64, freq: U32)
    requires factor > 0 && freq > 0 && factor * freq < 0x1_0000_0000_0000_0000 && 0 <= ref * n
    ensures
      var den, x, nDiv := factor * freq, Low64(ref * n), NcoDiv(ref, n, factor, freq);
      den * (Low64(den) * StoredN(nDiv) + NcoNum(ref, n, factor, freq)) == ref * n * Low64(den)
      <==> (ref * n < 0x1_0000_0000_0000_0000 && 1 <= nDiv <= 0x1_0000_0000)
           || (nDiv == 0 && den * (0x1_0000_0000 * Low64(den) + x) == ref * n * Low64(den))
  {
    hide Low64, NcoDiv, NcoNum, StoredN;
    var den, x := factor * freq, Low64(ref * n);
    var nDiv := NcoDiv(ref, n, factor, freq);
    NcoDecomposition(ref, n, factor, freq);
    Fits64(den);
    DivParts(x, den);
    LowParts(ref * n);
    StoredMatches(den, nDiv, ref * n / 0x1_0000_0000_0000_0000);
    assert den * StoredN(nDiv) - den * nDiv == den * (StoredN(nDiv) - nDiv);
    SameFactor(den * StoredN(nDiv) + x % den, ref * n, den);
    SameFactor(0x1_0000_0000 * den + x, ref * n, den);
    if nDiv == 0 { StoredZero(); }
  }

  lemma StoredZero()
    ensures StoredN(0) == 0x1_0000_0000
  {
  }

  /** A divisor that takes more than 64 bits gives N = 0, stored as 2^32. */
  lemma WideDivisor(ref: U64, n: U64, factor: U64, freq: U32)
    requires factor > 0 && freq > 0 && factor * freq >= 0x1_0000_0000_0000_0000
    ensures NcoDiv(ref, n, factor, freq) == 0 && NcoNum(ref, n, factor, freq) == Low64(ref * n)
    ensures StoredN(0) == 0x1_0000_0000
  {
    hide Low64, StoredN;
    StoredZero();
    var x: int, den: int := Low64(ref * n), factor * freq;
    Low64Range(ref * n);
    NestedFloor(x, factor, freq);
    DivUnique(x, den, 0);
    Fits64(0);
    Fits64(x);
  }

  /** For reference rates up to 2^39 Hz, a divisor that takes more than 64 bits is
      always wrong: N + frac/mod is at least 2^32, the true quotient less. */
  lemma WrongIfLarge(
    base: Profile, active: Profile, rDiv: RDiv, ref: U64, source: U5, freq: U32, frac: nat, mod: nat)
    requires 0 < freq && Factor(rDiv, active) * freq >= 0x1_0000_0000_0000_0000 && ref <= 0x80_0000_0000
    requires frac <= AD9545_DPLL_MAX_FRAC && 0 < mod <= AD9545_DPLL_MAX_MOD
    ensures !SameFrequency(Derived(base, active, rDiv, ref, source, freq, frac, mod), active, rDiv, ref, freq)
  {
    hide Low64, Numerator, Denominator, Factor, NcoDiv;
    var n, factor := Numerator(active), Factor(rDiv, active);
    var den := factor * freq;
    WideDivisor(ref, n, factor, freq);
    var p := Derived(base, active, rDiv, ref, source, freq, frac, mod);
    WrappedQuotient(base, source, frac, mod);
    NumeratorBound(active);
    MulMono(ref, 0x80_0000_0000, n);
    MulMono(0x1_0000_0000_0000_0000, den, Numerator(p));
    MulMono(ref * n, 0x1_0000_0000_0000_0000_0000_0000 - 1, Denominator(p));
    Assoc(Numerator(p), freq, factor);
  }

  lemma NumeratorBound(p: Profile)
    ensures 0 < Numerator(p) < 0x200_0000_0000_0000
  {
    Products(p.nDiv + 1, p.mod);
  }

  lemma WrappedQuotient(base: Profile, source: U5, frac: nat, mod: nat)
    requires frac <= AD9545_DPLL_MAX_FRAC && 0 < mod <= AD9545_DPLL_MAX_MOD
    ensures
      var p := Translated(base, source, 0, frac, mod);
      Numerator(p) >= 0x1_0000_0000 * Denominator(p)
  {
    assert Low32(0 - 1) == 0xffff_ffff;
  }

  lemma LowParts(x: nat)
    ensures x == Low64(x) + x / 0x1_0000_0000_0000_0000 * 0x1_0000_0000_0000_0000
    ensures x / 0x1_0000_0000_0000_0000 == 0 <==> x < 0x1_0000_0000_0000_0000
  {
  }

  lemma StoredMatches(den: nat, nDiv: U64, k: nat)
    requires den > 0
    ensures den * (StoredN(nDiv) - nDiv) == k * 0x1_0000_0000_0000_0000 <==>
            (k == 0 && 1 <= nDiv <= 0x1_0000_0000) || (nDiv == 0 && k * 0x1_0000_0000 == den)
  {
    if nDiv == 0 {
      assert StoredN(nDiv) == 0x1_0000_0000;
    } else if nDiv <= 0x1_0000_0000 {
      StoredExactly(nDiv);
    } else {
      MulMono(StoredN(nDiv) - nDiv, -1, den);
    }
  }

  lemma StoredExactly(nDiv: U64)
    requires 1 <= nDiv <= 0x1_0000_0000
    ensures StoredN(nDiv) == nDiv
  {
    Fits32(nDiv - 1);
  }

  lemma SameFactor(a: int, b: int, c: nat)
    requires c > 0
    ensures a * c == b * c <==> a == b
  {
    if a < b { MulMono(a + 1, b, c); }
    if b < a { MulMono(b + 1, a, c); }
  }

  /** A 10 MHz reference divided by 10000 behind N = 219903 and a modulus of 2^23,
      a PLL at 219.9 MHz, overflows: the derived profile runs the PLL at another
      frequency, though the remaining fraction is exact. */
  lemma OverflowExample(base: Profile, active: Profile, source: U5)
    requires active.nDiv == 219_902 && active.mod == 8_388_608 && active.frac == 0
    ensures Low64(Factor(10_000, active) * 1) != 0
    ensures ExactFraction(active, 10_000, 10_000_000, 1, 4_448, 10_000)
    ensures
      var p := Derived(base, active, 10_000, 10_000_000, source, 1, 4_448, 10_000);
      !SameFrequency(p, active, 10_000, 10_000_000, 1)
  {
    hide Translated;
    var n: int, factor := Numerator(active), Factor(10_000, active);
    assert n == 1_844_680_065_024 && factor == 83_886_080_000;
    var x := Low64(10_000_000 * n);
    assert x == 56_576_530_448_384;
    NcoDecomposition(10_000_000, n, factor, 1);
    Fits64(factor);
    assert x / factor == 674 && x % factor == 37_312_528_384;
    FrequencyPreserved(base, active, 10_000, 10_000_000, source, 1, 4_448, 10_000);
  }

  // ad9545_plls_post_setup for one PLL

  datatype Outcome = Done | NoActiveProfile | Failed

  /** What the rest of the system supplies: the reference rates and their R
      dividers, the requested NCO rates, whether each NCO turns valid within the
      100 polls, and rational_best_approximation. */
  datatype Clocks = Clocks(
    refRate: seq<U64>, rDiv: seq<RDiv>, requested: seq<U32>, valid: seq<bool>, approx: (nat, nat) -> (nat, nat))
  {
    ghost predicate Valid()
    {
      && |refRate| == |rDiv| == EXTERNAL_REFS && |requested| == |valid| == 2
    }
  }

  predicate FromNco(p: Profile) { p.source == AD9545_SOURCE_AUX_NCO0 || p.source == AD9545_SOURCE_AUX_NCO0 + 1 }

  /** A profile the setup has to derive. */
  predicate Wanted(p: Profile, clocks: Clocks)
    requires clocks.Valid()
  {
    FromNco(p) && clocks.requested[p.source - AD9545_SOURCE_AUX_NCO0] != 0
  }

  predicate Usable(active: Profile, clocks: Clocks)
    requires clocks.Valid()
  {
    active.hitless == 0 && active.source < EXTERNAL_REFS && clocks.refRate[active.source] != 0
  }

  /** What profile `p` becomes. */
  function Setup(p: Profile, base: Profile, active: Profile, clocks: Clocks): Profile
    requires clocks.Valid() && Usable(active, clocks) && Wanted(p, clocks)
  {
    var ref, rDiv := clocks.refRate[active.source], clocks.rDiv[active.source];
    var freq := clocks.requested[p.source - AD9545_SOURCE_AUX_NCO0];
    var n, factor := Numerator(active), Factor(rDiv, active);
    var (frac, mod) := clocks.approx(NcoNum(ref, n, factor, freq), Low64(factor * freq));
    Derived(base, active, rDiv, ref, p.source, freq, frac, mod)
  }

  /** A profile set up is a copy of the driver's active one but for its source and
      divider, and its divider fits its fields. */
  lemma SetupCopies(p: Profile, base: Profile, active: Profile, clocks: Clocks)
    requires clocks.Valid() && Usable(active, clocks) && Wanted(p, clocks)
    ensures
      var t := Setup(p, base, active, clocks);
      && (p.source == 8 || p.source == 9) && t.source == p.source
      && t.en == base.en && t.priority == base.priority && t.fbPath == base.fbPath && t.hitless == base.hitless
      && t.extZeroDelay == base.extZeroDelay && t.tagMode == base.tagMode && t.loopFilterBase == base.loopFilterBase
      && t.loopBw == base.loopBw && t.hitlessN == base.hitlessN && t.excessBw == base.excessBw
      && t.settle == base.settle && t.timeout == base.timeout
  {
    hide Numerator, Factor, NcoNum, NcoDiv, Low64, Low32;
  }

  /** A profile set up when some fraction within the limits is exact keeps the
      PLL's frequency in exactly those cases. */
  lemma SetupKeepsFrequency(p: Profile, base: Profile, active: Profile, clocks: Clocks)
    requires clocks.Valid() && Usable(active, clocks) && Wanted(p, clocks)
    requires
      var ref, rDiv := clocks.refRate[active.source], clocks.rDiv[active.source];
      var freq := clocks.requested[p.source - AD9545_SOURCE_AUX_NCO0];
      var n, factor := Numerator(active), Factor(rDiv, active);
      var num, den := NcoNum(ref, n, factor, freq), Low64(factor * freq);
      && den != 0 && Attainable(num, den)
      && Approximates(num, den, clocks.approx(num, den).0, clocks.approx(num, den).1)
    ensures
      var ref, rDiv := clocks.refRate[active.source], clocks.rDiv[active.source];
      var freq := clocks.requested[p.source - AD9545_SOURCE_AUX_NCO0];
      SameFrequency(Setup(p, base, active, clocks), active, rDiv, ref, freq)
      <==> Translatable(active, rDiv, ref, freq)
  {
    hide SameRatio, NcoDiv, NcoNum, Numerator, Denominator, Factor, Derived, SameFrequency, Translatable, Attainable;
    var ref, rDiv := clocks.refRate[active.source], clocks.rDiv[active.source];
    var freq := clocks.requested[p.source - AD9545_SOURCE_AUX_NCO0];
    var n, factor := Numerator(active), Factor(rDiv, active);
    var num, den := NcoNum(ref, n, factor, freq), Low64(factor * freq);
    var (frac, mod) := clocks.approx(num, den);
    ExactIfAny(num, den, frac, mod);
    FrequencyPreserved(base, active, rDiv, ref, p.source, freq, frac, mod);
  }

  function ProfileAt(mem: seq<Byte>, i: nat, j: nat): Profile
    requires |mem| == REGISTERS && i < PLLS && j < AD9545_MAX_DPLL_PROFILES
  {
    Decoded(Window(mem, i, j))
  }

  /** The registers `mem` with the wanted profiles below `done` of PLL i set up. */
  ghost predicate SetUpTo(mem: seq<Byte>, was: seq<Byte>, profiles: seq<Profile>, i: nat, base: Profile,
                          active: Profile, clocks: Clocks, done: nat)
    requires |mem| == |was| == REGISTERS && |profiles| == AD9545_MAX_DPLL_PROFILES && i < PLLS
    requires clocks.Valid() && Usable(active, clocks) && done <= AD9545_MAX_DPLL_PROFILES
  {
    forall i', j :: 0 <= i' < PLLS && 0 <= j < AD9545_MAX_DPLL_PROFILES ==>
      ProfileAt(mem, i', j) ==
        if i' == i && j < done && Wanted(profiles[j], clocks) then Setup(profiles[j], base, active, clocks)
        else ProfileAt(was, i', j)
  }

  /** The setup stops at a profile fed by an NCO (source 8 or 9) that has no
      requested rate, unless the profile is enabled already, or that does not turn valid. */
  predicate Stops(p: Profile, clocks: Clocks)
    requires clocks.Valid()
  {
    || (p.source == 8 && (if clocks.requested[0] == 0 then p.en == 0 else !clocks.valid[0]))
    || (p.source == 9 && (if clocks.requested[1] == 0 then p.en == 0 else !clocks.valid[1]))
  }

  /** Profiles are set up in order up to the first that stops the setup, and all of
      them if none does; every other profile of either PLL is left alone. */
  method PostSetup(regs: RegisterMap, i: nat, profiles: array<Profile>, activeProfile: nat, locked: bool,
                   clocks: Clocks)
    returns (outcome: Outcome, ghost done: nat)
    requires regs.Valid() && i < PLLS && clocks.Valid()
    requires profiles.Length == AD9545_MAX_DPLL_PROFILES && activeProfile < AD9545_MAX_DPLL_PROFILES
    modifies regs.mem, profiles
    ensures
      var active := ProfileAt(old(regs.mem[..]), i, activeProfile);
      && (outcome == NoActiveProfile <==>
            !(locked && active.hitless == 0 && active.source < 4 && clocks.refRate[active.source] != 0))
      && (outcome == NoActiveProfile ==> regs.mem[..] == old(regs.mem[..]))
      && (outcome != NoActiveProfile ==>
            && done <= AD9545_MAX_DPLL_PROFILES
            && SetUpTo(regs.mem[..], old(regs.mem[..]), old(profiles[..]), i, old(profiles[activeProfile]), active,
                       clocks, done)
            && (outcome == Done <==> done == AD9545_MAX_DPLL_PROFILES)
            && (forall j :: 0 <= j < done ==> !Stops(old(profiles[..])[j], clocks))
            && (outcome == Failed ==> done < AD9545_MAX_DPLL_PROFILES && Stops(old(profiles[..])[done], clocks)))
  {
    hide SetUpTo, Wanted, Decoded, Stops;
    done := 0;
    var active := ReadProfile(regs, i, activeProfile);
    if !locked || active.hitless != 0 || active.source >= EXTERNAL_REFS || clocks.refRate[active.source] == 0 {
      return NoActiveProfile, done;
    }
    ghost var was, before, base := regs.mem[..], profiles[..], profiles[activeProfile];
    NothingSetUp(was, before, i, base, active, clocks);
    for j := 0 to AD9545_MAX_DPLL_PROFILES
      invariant done == j
      invariant profiles[j..] == before[j..]
      invariant Alike(profiles[activeProfile], base)
      invariant SetUpTo(regs.mem[..], was, before, i, base, active, clocks, j)
      invariant forall k :: 0 <= k < j ==> !Stops(before[k], clocks)
    {
      assert before[j] == before[j..][0] == profiles[j..][0];
      assert before[j + 1..] == before[j..][1..] && profiles[j + 1..] == profiles[j..][1..];
      var ok := SetUpOne(regs, i, profiles, j, activeProfile, active, clocks, was, before, base);
      if !ok { return Failed, done; }
      done := j + 1;
    }
    outcome := Done;
  }

  /** Profiles that differ in their source and divider at most: the setup
      overwrites those in what it copies. */
  predicate Alike(p: Profile, q: Profile)
  {
    p.(source := q.source, nDiv := q.nDiv, frac := q.frac, mod := q.mod) == q
  }

  /** The body of the loop over the profiles. */
  method SetUpOne(regs: RegisterMap, i: nat, profiles: array<Profile>, j: nat, activeProfile: nat, active: Profile,
                  clocks: Clocks, ghost was: seq<Byte>, ghost before: seq<Profile>, ghost base: Profile)
    returns (ok: bool)
    requires regs.Valid() && |was| == REGISTERS && i < PLLS && clocks.Valid() && Usable(active, clocks)
    requires profiles.Length == |before| == AD9545_MAX_DPLL_PROFILES && activeProfile < AD9545_MAX_DPLL_PROFILES
    requires Alike(profiles[activeProfile], base)
    requires j < AD9545_MAX_DPLL_PROFILES && profiles[j] == before[j]
    requires SetUpTo(regs.mem[..], was, before, i, base, active, clocks, j)
    modifies regs.mem, profiles
    ensures Alike(profiles[activeProfile], base)
    ensures profiles[j + 1..] == old(profiles[j + 1..])
    ensures SetUpTo(regs.mem[..], was, before, i, base, active, clocks, if ok then j + 1 else j)
    ensures ok <==> !Stops(before[j], clocks)
  {
    hide SetUpTo, Decoded, Encoded, Poke, NcoDiv, NcoNum, Numerator;
    ghost var mem := regs.mem[..];
    if FromNco(profiles[j]) {
      var source := profiles[j].source;
      var k := source - AD9545_SOURCE_AUX_NCO0;
      var freq := clocks.requested[k];
      if freq == 0 {
        Skipped(mem, was, before, i, base, active, clocks, j);
        return profiles[j].en != 0;
      }
      profiles[j] := profiles[activeProfile].(source := source);
      var ref, rDiv := clocks.refRate[active.source], clocks.rDiv[active.source];
      var n, factor := Numerator(active), Factor(rDiv, active);
      var nDiv: int := NcoDiv(ref, n, factor, freq);
      var num, den := NcoNum(ref, n, factor, freq), Low64(factor * freq);
      var (frac, mod) := clocks.approx(num, den);
      if frac == 0 { mod := 0; }
      if !clocks.valid[k] { return false; }
      profiles[j] := profiles[j].(nDiv := Low32(nDiv - 1), frac := frac % 0x100_0000, mod := mod % 0x100_0000);
      WriteProfile(regs, i, j, profiles[j]);
      Written(mem, regs.mem[..], was, before, i, base, active, clocks, j, profiles[j]);
    } else {
      Skipped(mem, was, before, i, base, active, clocks, j);
    }
    ok := true;
  }

  lemma NothingSetUp(was: seq<Byte>, profiles: seq<Profile>, i: nat, base: Profile, active: Profile, clocks: Clocks)
    requires |was| == REGISTERS && |profiles| == AD9545_MAX_DPLL_PROFILES && i < PLLS
    requires clocks.Valid() && Usable(active, clocks)
    ensures SetUpTo(was, was, profiles, i, base, active, clocks, 0)
  {
    hide Setup, Decoded, Wanted;
  }

  lemma Skipped(mem: seq<Byte>, was: seq<Byte>, profiles: seq<Profile>, i: nat, base: Profile,
                active: Profile, clocks: Clocks, j: nat)
    requires |mem| == |was| == REGISTERS && |profiles| == AD9545_MAX_DPLL_PROFILES && i < PLLS
    requires clocks.Valid() && Usable(active, clocks) && j < AD9545_MAX_DPLL_PROFILES
    requires SetUpTo(mem, was, profiles, i, base, active, clocks, j) && !Wanted(profiles[j], clocks)
    ensures SetUpTo(mem, was, profiles, i, base, active, clocks, j + 1)
  {
    hide Setup, Decoded;
  }

  lemma Written(mem: seq<Byte>, after: seq<Byte>, was: seq<Byte>, profiles: seq<Profile>, i: nat, base: Profile,
                active: Profile, clocks: Clocks, j: nat, p: Profile)
    requires |mem| == |was| == REGISTERS && |profiles| == AD9545_MAX_DPLL_PROFILES && i < PLLS
    requires clocks.Valid() && Usable(active, clocks) && j < AD9545_MAX_DPLL_PROFILES
    requires SetUpTo(mem, was, profiles, i, base, active, clocks, j)
    requires Wanted(profiles[j], clocks) && p == Setup(profiles[j], base, active, clocks)
    requires after == Poke(mem, Base(i, j), Encoded(p))
    ensures SetUpTo(after, was, profiles, i, base, active, clocks, j + 1)
  {
    hide Setup, Decoded, Encoded, Poke, Wanted;
    forall i', j' | 0 <= i' < PLLS && 0 <= j' < AD9545_MAX_DPLL_PROFILES
      ensures ProfileAt(after, i', j') == if (i', j') == (i, j) then p else ProfileAt(mem, i', j')
    {
      WriteIsLocal(mem, i, j, p, i', j');
    }
  }
}
