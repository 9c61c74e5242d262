/** ad9545_adjfine: steering the PTP hardware clock through the NCO's center frequency. */
module FineTuning {
  import opened Registers
  import opened PllMath
  import opened OutDivider
  import opened AuxNco

  /** The part of the nominal frequency that `magnitude` (parts per million,
      scaled by 2^16) stands for, rounded to a unit. */
  function Adjustment(freq: U64, magnitude: nat): U64
  {
    Low64(Low64(freq * magnitude / 0x1_0000) + 500_000) / 1_000_000
  }

  function Tuned(freq: U64, scaledPpm: S64): U64
  {
    var adj := Adjustment(freq, Abs(scaledPpm));
    Low64(if scaledPpm < 0 then freq - adj else freq + adj)
  }

  /** The 64-bit intermediate of the adjustment does not overflow. */
  predicate Fits(freq: U64, magnitude: nat)
  {
    freq * magnitude / 0x1_0000 + 500_000 < 0x1_0000_0000_0000_0000
  }

  /** Neither the intermediate nor the adjusted word leaves its 64 bits. */
  predicate Unwrapped(freq: U64, scaledPpm: S64)
  {
    var adj := Adjustment(freq, Abs(scaledPpm));
    Fits(freq, Abs(scaledPpm)) && if scaledPpm < 0 then adj <= freq else freq + adj < 0x1_0000_0000_0000_0000
  }

  const PRODUCT_LIMIT: nat := (0x1_0000_0000_0000_0000 - 500_000) * 0x1_0000

  lemma FitsIff(freq: U64, magnitude: nat)
    ensures Fits(freq, magnitude) <==> freq * magnitude < PRODUCT_LIMIT
  {
  }

  /** When a correction downwards leaves a word that is not negative. */
  lemma UnwrappedIff(freq: U64, k: S64)
    requires k >= 0
    ensures Unwrapped(freq, -k)
            <==> freq * k < PRODUCT_LIMIT && freq * k < ((freq + 1) * 1_000_000 - 500_000) * 0x1_0000
  {
    hide Low64, Fits;
    MulMono(0, k, freq);
    FitsIff(freq, k);
    if Fits(freq, k) {
      Fits64(freq * k / 0x1_0000);
      Fits64(freq * k / 0x1_0000 + 500_000);
    }
    if k == 0 { ZeroIsNominal(freq); }
  }

  /** The adjustment is within half a unit of freq * magnitude / (10^6 * 2^16),
      exactly when nothing overflows. */
  lemma AdjustmentError(freq: U64, magnitude: nat)
    ensures Abs(Adjustment(freq, magnitude) * 1_000_000 * 0x1_0000 - freq * magnitude) <= 500_000 * 0x1_0000
            <==> freq * magnitude < PRODUCT_LIMIT
  {
    hide Low64;
    FitsIff(freq, magnitude);
    MulMono(0, freq, magnitude);
    var x := freq * magnitude / 0x1_0000;
    if Fits(freq, magnitude) {
      Fits64(x);
      Fits64(x + 500_000);
    } else {
      LowAtMost(x);
      LowAtMost(Low64(x) + 500_000);
      if x < 0x1_0000_0000_0000_0000 { Fits64(x); }
      assert Adjustment(freq, magnitude) * 1_000_000 <= x + 500_000 - 0x1_0000_0000_0000_0000;
    }
  }

  lemma LowAtMost(x: nat)
    ensures 0 <= Low64(x) <= x
    ensures x >= 0x1_0000_0000_0000_0000 ==> Low64(x) <= x - 0x1_0000_0000_0000_0000
  {
  }

  /** Equal and opposite corrections move the word by the same amount, exactly
      when neither wraps around or both do. */
  lemma OddSymmetric(freq: U64, scaledPpm: int)
    requires 0 < scaledPpm < 0x8000_0000_0000_0000
    ensures Tuned(freq, scaledPpm) - freq == freq - Tuned(freq, -scaledPpm) <==>
            (Adjustment(freq, scaledPpm) <= freq
             <==> freq + Adjustment(freq, scaledPpm) < 0x1_0000_0000_0000_0000)
  {
    hide Adjustment;
  }

  lemma AdjustmentMonotone(freq: U64, a: nat, b: nat)
    requires a <= b && Fits(freq, b)
    ensures Fits(freq, a) && Adjustment(freq, a) <= Adjustment(freq, b)
  {
    hide Low64;
    MulMono(a, b, freq);
    MulMono(0, a, freq);
    var x, y := freq * a / 0x1_0000, freq * b / 0x1_0000;
    Fits64(x);
    Fits64(y);
    Fits64(x + 500_000);
    Fits64(y + 500_000);
  }

  /** Of the corrections up to k in either direction, a larger one never gives a smaller word. */
  ghost predicate MonotoneUpTo(freq: U64, k: S64)
    requires k >= 0
  {
    forall p: S64, q: S64 :: -k <= p <= q <= k ==> Tuned(freq, p) <= Tuned(freq, q)
  }

  /** Exactly when the most negative of them overflows neither the intermediate nor
      the word; 2^57 is more than any tuning word. */
  lemma Monotone(freq: U64, k: S64)
    requires freq < 0x200_0000_0000_0000 && k >= 0
    ensures MonotoneUpTo(freq, k)
            <==> freq * k < PRODUCT_LIMIT && freq * k < ((freq + 1) * 1_000_000 - 500_000) * 0x1_0000
  {
    UnwrappedIff(freq, k);
    hide Adjustment, Fits, Tuned;
    if Unwrapped(freq, -k) {
      forall p: S64, q: S64 | -k <= p <= q <= k
        ensures Tuned(freq, p) <= Tuned(freq, q)
      {
        StaysUnwrapped(freq, k, p);
        StaysUnwrapped(freq, k, q);
        InOrder(freq, p, q);
      }
    } else if Fits(freq, k) {
      ZeroIsNominal(freq);
      BelowZero(freq, k);
      assert Tuned(freq, -k) > Tuned(freq, 0);
    } else {
      var m := FirstOverflow(freq, k);
      DropsAt(freq, m);
      assert Tuned(freq, m - 1) > Tuned(freq, m);
    }
  }

  lemma StaysUnwrapped(freq: U64, k: S64, p: S64)
    requires freq < 0x200_0000_0000_0000 && k >= 0 && Unwrapped(freq, -k) && -k <= p <= k
    ensures Unwrapped(freq, p)
  {
    hide Adjustment, Fits;
    AdjustmentMonotone(freq, Abs(p), k);
  }

  lemma InOrder(freq: U64, p: S64, q: S64)
    requires p <= q && Unwrapped(freq, p) && Unwrapped(freq, q)
    ensures Tuned(freq, p) <= Tuned(freq, q)
  {
    hide Low64, Adjustment, Fits;
    if 0 <= p { AdjustmentMonotone(freq, Abs(p), Abs(q)); }
    if q < 0 { AdjustmentMonotone(freq, Abs(q), Abs(p)); }
    TunedIs(freq, p);
    TunedIs(freq, q);
  }

  /** A word that would be negative wraps around to a very large one. */
  lemma BelowZero(freq: U64, k: S64)
    requires freq < 0x200_0000_0000_0000 && k >= 0
    requires Adjustment(freq, k) > freq
    ensures Tuned(freq, -k) > freq
  {
    hide Adjustment;
    SmallAdjustment(freq, k);
  }

  lemma SmallAdjustment(freq: U64, magnitude: nat)
    ensures Adjustment(freq, magnitude) <= 0x1_0000_0000_0000_0000 / 1_000_000
  {
  }

  lemma ZeroFits(freq: U64)
    ensures Fits(freq, 0)
  {
  }

  /** Where the intermediate first overflows. */
  lemma {:induction false} FirstOverflow(freq: U64, k: nat) returns (m: nat)
    requires !Fits(freq, k)
    ensures 0 < m <= k && !Fits(freq, m) && Fits(freq, m - 1)
  {
    ZeroFits(freq);
    if Fits(freq, k - 1) { m := k; } else { m := FirstOverflow(freq, k - 1); }
  }

  /** There the adjustment drops from almost 2^64 / 10^6 to less than 3 * 10^6. */
  lemma DropsAt(freq: U64, m: nat)
    requires freq < 0x200_0000_0000_0000 && 0 < m < 0x8000_0000_0000_0000
    requires !Fits(freq, m) && Fits(freq, m - 1)
    ensures Tuned(freq, m - 1) > Tuned(freq, m)
  {
    hide Low64;
    var x, y := freq * (m - 1), freq * m;
    assert y == x + freq;
    MulMono(0, m - 1, freq);
    Fits64(x / 0x1_0000);
    Fits64(x / 0x1_0000 + 500_000);
    LowJustOver(y / 0x1_0000);
    SmallAdjustment(freq, m - 1);
    Fits64(freq + Adjustment(freq, m - 1));
    Fits64(freq + Adjustment(freq, m));
  }

  lemma LowJustOver(x: nat)
    requires 0x1_0000_0000_0000_0000 <= x + 500_000 < 0x1_0000_0000_0000_0000 + 0x300_0000_0000
    ensures 0 <= Low64(Low64(x) + 500_000) < 0x400_0000_0000
  {
  }

  lemma TunedIs(freq: U64, p: S64)
    requires Unwrapped(freq, p)
    ensures var adj := Adjustment(freq, Abs(p));
            Tuned(freq, p) == if p < 0 then freq - adj else freq + adj
  {
    hide Low64, Adjustment, Fits;
    var adj := Adjustment(freq, Abs(p));
    Fits64(if p < 0 then freq - adj else freq + adj);
  }

  /** No correction restores the nominal frequency. */
  lemma ZeroIsNominal(freq: U64)
    ensures Tuned(freq, 0) == freq
  {
    assert freq * 0 == 0;
    Fits64(500_000);
    assert Adjustment(freq, 0) == 0;
    Fits64(freq);
  }

  class HwClk {
    const nco: Nco
    const freq: U64      // nominal tuning word, read when the clock was set up

    ghost predicate Valid() { nco.Valid() }

    constructor (nco: Nco, top: Byte)
      requires nco.Valid()
      ensures Valid() && this.nco == nco && freq == Tuning(nco.Center(), nco.Offset())
    {
      var f := nco.GetTuning(top);
      this.nco, freq := nco, f;
    }

    /** ad9545_adjfine.  The new word depends on the nominal one and this call
        alone, not on earlier corrections; a word that does not fit is refused. */
    method AdjFine(scaledPpm: S64) returns (ok: bool)
      requires Valid()
      modifies nco.regs.mem
      ensures ok <==> Tuned(freq, scaledPpm) < 0x100_0000_0000_0000
      ensures ok ==> nco.Center() == Tuned(freq, scaledPpm) && nco.Offset() == old(nco.Offset())
      ensures !ok ==> nco.regs.mem[..] == old(nco.regs.mem[..])
      ensures ok && freq < 0x200_0000_0000_0000 && freq * Abs(scaledPpm) < PRODUCT_LIMIT ==>
                Abs((nco.Center() - freq) * 1_000_000 * 0x1_0000 - freq * scaledPpm) <= 500_000 * 0x1_0000
    {
      hide Field, Low64;
      var negative := scaledPpm < 0;
      var magnitude: int := scaledPpm;
      if negative { magnitude := -magnitude; }
      var adj := Low64(freq * magnitude / 0x1_0000);
      adj := Low64(adj + 500_000) / 1_000_000;
      var word: int := freq;
      if negative { word := Low64(word - adj); } else { word := Low64(word + adj); }
      ok := nco.SetCenter(word);
      if ok && freq < 0x200_0000_0000_0000 && freq * Abs(scaledPpm) < PRODUCT_LIMIT {
        AcceptedIsUnwrapped(freq, scaledPpm);
        Corrected(freq, scaledPpm);
      }
    }
  }

  /** A word that wrapped around is not accepted. */
  lemma AcceptedIsUnwrapped(freq: U64, scaledPpm: S64)
    requires freq < 0x200_0000_0000_0000 && freq * Abs(scaledPpm) < PRODUCT_LIMIT
    requires Tuned(freq, scaledPpm) < 0x100_0000_0000_0000
    ensures Unwrapped(freq, scaledPpm)
  {
    hide Adjustment;
    FitsIff(freq, Abs(scaledPpm));
    SmallAdjustment(freq, Abs(scaledPpm));
  }

  lemma Corrected(freq: U64, scaledPpm: S64)
    requires Unwrapped(freq, scaledPpm)
    ensures Abs((Tuned(freq, scaledPpm) - freq) * 1_000_000 * 0x1_0000 - freq * scaledPpm) <= 500_000 * 0x1_0000
  {
    hide Low64, Adjustment;
    TunedIs(freq, scaledPpm);
    AdjustmentError(freq, Abs(scaledPpm));
    if scaledPpm < 0 { assert freq * scaledPpm == -(freq * Abs(scaledPpm)); }
  }
}
