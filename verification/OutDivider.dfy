/** AD9545 output dividers: rate rounding, the divider register and the phase. */
module OutDivider {
  import opened Registers
  import opened PllMath

  const OUTPUTS: nat := 12

  /** AD9545_QX_DIV: 4 bytes of divider, 4 of phase and one of configuration. */
  function QDiv(output: nat): nat
    requires output < OUTPUTS
  {
    if output > 5 then 0x1500 + (output - 6) * 9 else 0x1100 + output * 9
  }

  const OUTPUT_WINDOW: nat := 9   // the registers of one output

  /** The outputs' registers follow each other, 0x400 apart from one PLL's six to
      the other's. */
  lemma OutputsApart(a: nat, b: nat)
    requires a < b < OUTPUTS
    ensures 0x1100 <= QDiv(a) < QDiv(a) + OUTPUT_WINDOW <= QDiv(b) < 0x1540
    ensures b == a + 6 ==> QDiv(b) == QDiv(a) + 0x400
    ensures b < 6 || a >= 6 ==> QDiv(b) == QDiv(a) + OUTPUT_WINDOW * (b - a)
  {
  }

  // Rates

  /** The divider for a rate, as stored in 32 bits. */
  function Quotient(rate: U64, parent: U64): U32
    requires rate > 0
  {
    Low32(parent / rate)
  }

  function RoundRate(rate: U64, parent: U64): U64
    requires rate > 0
  {
    DivMono(parent, parent, 1, if Quotient(rate, parent) == 0 then 1 else Quotient(rate, parent));
    if Quotient(rate, parent) == 0 then parent else parent / Quotient(rate, parent)
  }

  /** The lowest output not below the rate that any divider gives; a rate above
      the parent's gives the parent's. */
  ghost predicate Closest(rate: U64, parent: U64, out: nat)
  {
    && (if rate < parent then rate else parent) <= out <= parent
    && forall d :: 0 < d && Output(parent, d) >= rate ==> Output(parent, d) >= out
  }

  /** The rounded rate is that output exactly when the quotient fits in 32 bits. */
  lemma RoundsUpClosely(rate: U64, parent: U64)
    requires rate > 0
    ensures Closest(rate, parent, RoundRate(rate, parent)) <==> parent / rate < 0x1_0000_0000
  {
    hide RoundRate, Closest;
    if parent / rate < 0x1_0000_0000 {
      NarrowRoundsUp(rate, parent);
    } else {
      WideRoundsTooFar(rate, parent);
    }
  }

  lemma NarrowRoundsUp(rate: U64, parent: U64)
    requires rate > 0 && parent / rate < 0x1_0000_0000
    ensures Closest(rate, parent, RoundRate(rate, parent))
  {
    hide Low32;
    var q := parent / rate;
    DivLargest(parent, rate, 0);
    Fits32(q);
    if q > 0 {
      DivLargest(parent, rate, q);
      DivLargest(parent, q, rate);
      DivMono(parent, parent, 1, q);
    } else {
      DivLargest(parent, rate, 1);
    }
    forall d | 0 < d && Output(parent, d) >= rate
      ensures Output(parent, d) >= RoundRate(rate, parent)
    {
      DivLargest(parent, d, rate);
      DivLargest(parent, rate, d);
      DivMono(parent, parent, d, q);
    }
  }

  /** The truncated quotient is smaller than the quotient, and so much so that the
      quotient itself would give a lower output. */
  lemma WideRoundsTooFar(rate: U64, parent: U64)
    requires rate > 0 && parent / rate >= 0x1_0000_0000
    ensures !Closest(rate, parent, RoundRate(rate, parent))
  {
    hide Low32;
    var q := parent / rate;
    DivLargest(parent, rate, q);
    DivLargest(parent, q, rate);
    assert Output(parent, q) >= rate;
    WideOutput(rate, parent);
  }

  lemma WideOutput(rate: U64, parent: U64)
    requires rate > 0 && parent / rate >= 0x1_0000_0000
    ensures Output(parent, parent / rate) < RoundRate(rate, parent)
  {
    hide Low32;
    var q := parent / rate;
    var t := if Low32(q) == 0 then 1 else Low32(q);
    TruncatedQuotient(q);
    var out := Output(parent, q);
    DivLargest(parent, rate, q);
    DivLargest(parent, q, rate);
    LowerOutput(parent, t, q, out);
  }

  /** Less than half the divider gives more output. */
  lemma LowerOutput(parent: nat, t: nat, q: nat, out: nat)
    requires 0 < t <= q - t && out == parent / q && out >= 1
    ensures out < parent / t
  {
    MulMono(1, out, q - t);
    DivLargest(parent, q, out);
    OneMore(t, out);
    assert q * out == t * out + (q - t) * out;
    DivLargest(parent, t, out + 1);
  }

  lemma TruncatedQuotient(q: nat)
    requires q >= 0x1_0000_0000
    ensures
      var j := q / 0x1_0000_0000;
      j >= 1 && q == Low32(q) + 0x1_0000_0000 * j && 0 <= Low32(q) < 0x1_0000_0000
  {
  }

  function Output(parent: nat, d: int): nat
    requires d > 0
  {
    DivLargest(parent, d, 0);
    parent / d
  }

  /** A higher rate is never rounded to a lower one. */
  ghost predicate RoundsInOrder(parent: U64)
  {
    forall rate: U64, rate': U64 :: 0 < rate <= rate' ==> RoundRate(rate, parent) <= RoundRate(rate', parent)
  }

  /** The parents for which no quotient is truncated, and those for which only
      that of rate 1 is, and still gives the output of rate 2. */
  lemma RoundMonotone(parent: U64)
    ensures RoundsInOrder(parent)
            <==> parent < 0x1_0000_0000 || 3 * 0x8000_0000 < parent < 0x2_0000_0000
  {
    if parent < 0x1_0000_0000 || 3 * 0x8000_0000 < parent < 0x2_0000_0000 {
      forall rate: U64, rate': U64 | 0 < rate <= rate'
        ensures RoundRate(rate, parent) <= RoundRate(rate', parent)
      {
        hide RoundRate;
        DivMono(parent, parent, 1, rate);
        if parent < 0x1_0000_0000 {
          NarrowMonotone(rate, rate', parent);
        } else if rate > 1 {
          DivMono(parent, parent, 2, rate);
          NarrowMonotone(rate, rate', parent);
        } else if rate' > 1 {
          RateOne(parent);
          DivMono(parent, parent, 2, rate');
          NarrowRoundsUp(rate', parent);
        }
      }
    } else {
      hide RoundRate;
      var rate, rate' := OrderReversed(parent);
    }
  }

  lemma NarrowMonotone(rate: U64, rate': U64, parent: U64)
    requires 0 < rate <= rate' && parent / rate < 0x1_0000_0000
    ensures RoundRate(rate, parent) <= RoundRate(rate', parent)
  {
    hide Low32;
    var q, q' := parent / rate, parent / rate';
    DivMono(parent, parent, rate, rate');
    Fits32(q);
    Fits32(q');
    if q' > 0 {
      DivMono(parent, parent, q', q);
    } else if q > 0 {
      DivMono(parent, parent, 1, q);
    }
  }

  /** Where the quotient of rate 1 is truncated to more than half a register. */
  lemma RateOne(parent: U64)
    requires 0x1_0000_0000 <= parent < 0x2_0000_0000
    ensures RoundRate(1, parent) == 2 <==> parent > 3 * 0x8000_0000
    ensures RoundRate(1, parent) >= 2
  {
    hide Low32;
    var t := parent - 0x1_0000_0000;
    DivUnique(parent, 1, parent);
    DivModUnique(parent, 0x1_0000_0000, 1, t);
    assert Low32(parent) == t by { TruncatedQuotient(parent); }
    if t > 0 {
      DivLargest(parent, t, 2);
      DivLargest(parent, t, 3);
    }
  }

  /** Elsewhere, two neighbouring rates whose order rounding reverses. */
  lemma OrderReversed(parent: U64) returns (rate: U64, rate': U64)
    requires 0x1_0000_0000 <= parent <= 3 * 0x8000_0000 || parent >= 0x2_0000_0000
    ensures 0 < rate < rate' && RoundRate(rate, parent) > RoundRate(rate', parent)
  {
    if parent < 0x2_0000_0000 {
      hide RoundRate;
      rate, rate' := 1, 2;
      RateOne(parent);
      RateTwo(parent);
    } else {
      rate := parent / 0x1_0000_0000;
      rate' := rate + 1;
      Reversed(parent, rate);
    }
  }

  lemma RateTwo(parent: U64)
    requires 0x1_0000_0000 <= parent < 0x2_0000_0000
    ensures RoundRate(2, parent) == 2
  {
    hide Low32;
    var q := parent / 2;
    DivLargest(parent, 2, 1);
    Fits32(q);
    DivLargest(parent, q, 2);
    DivLargest(parent, q, 3);
  }

  /** The quotient by a is truncated to less than half the quotient by a + 1. */
  lemma Reversed(parent: U64, a: nat)
    requires a >= 2 && a == parent / 0x1_0000_0000
    ensures a + 1 < 0x1_0000_0000_0000_0000
    ensures RoundRate(a, parent) > RoundRate(a + 1, parent)
  {
    hide Low32;
    DivParts(parent, 0x1_0000_0000);
    var r := parent % 0x1_0000_0000;
    WholePart(a, r);
    var low := Low32(parent / a);
    var t, q := if low == 0 then 1 else low, parent / (a + 1);
    HalfTheQuotient(parent, a, r, t);
    Fits32(q);
    MulMono(1, a + 1, q);
    DivLargest(parent, a + 1, q);
    DivLargest(parent, q, 1);
    LowerOutput(parent, t, q, parent / q);
  }

  /** Of the quotient of a 2^32 + r by a, the low 32 bits are that of r. */
  lemma WholePart(a: nat, r: nat)
    requires a >= 1 && r < 0x1_0000_0000
    ensures 0 <= Low32((0x1_0000_0000 * a + r) / a) == r / a
  {
    hide Low32;
    var x, k := 0x1_0000_0000 * a + r, r / a;
    DivParts(r, a);
    DivLargest(r, a, 0);
    DivMono(r, r, 1, a);
    assert a * (0x1_0000_0000 + k) == 0x1_0000_0000 * a + a * k;
    DivUnique(x, a, 0x1_0000_0000 + k);
    DivModUnique(0x1_0000_0000 + k, 0x1_0000_0000, 1, k);
    TruncatedQuotient(0x1_0000_0000 + k);
  }

  lemma HalfTheQuotient(parent: nat, a: nat, r: nat, t: nat)
    requires a >= 2 && r < 0x1_0000_0000 && parent == 0x1_0000_0000 * a + r
    requires t == if r / a == 0 then 1 else r / a
    ensures 2 * t <= parent / (a + 1) < 0x1_0000_0000
  {
    DivLargest(parent, a + 1, 0x1_0000_0000);
    DivLargest(parent, a + 1, 2 * t);
    if r / a != 0 {
      DivLargest(r, a, t);
      DivLargest(r, a, 0);
      MulMono(2, a, t);
      assert (a + 1) * (2 * t) == 2 * (a * t) + 2 * t;
    }
  }

  /** Rounding a rounded rate changes nothing, even where the quotient was truncated. */
  lemma RoundIdempotent(rate: U64, parent: U64)
    requires rate > 0 && parent > 0
    ensures RoundRate(rate, parent) > 0
    ensures RoundRate(RoundRate(rate, parent), parent) == RoundRate(rate, parent)
  {
    hide Low32;
    var t := if Low32(parent / rate) == 0 then 1 else Low32(parent / rate);
    DivLargest(parent, rate, 0);
    StoredFits(rate, parent, t);
    Again(parent, t);
    var out := parent / t;
    Fits32(parent / out);
  }

  /** Dividing by the output of a divider gives a divider with the same output. */
  lemma Again(parent: nat, t: nat)
    requires 0 < t <= parent
    ensures
      var out := parent / t;
      out > 0 && parent / out > 0 && parent / (parent / out) == out
  {
    DivLargest(parent, t, 1);
    var out := parent / t;
    DivLargest(parent, t, out);
    DivLargest(parent, out, t);
    var q := parent / out;
    DivLargest(parent, out, q);
    DivLargest(parent, q, out);
    DivMono(parent, parent, t, q);
  }

  /** The divider that belongs to the rounded rate fits in 32 bits. */
  lemma StoredFits(rate: U64, parent: U64, t: nat)
    requires rate > 0 && parent > 0
    requires t == if Low32(parent / rate) == 0 then 1 else Low32(parent / rate)
    ensures 0 < t <= parent && parent / t > 0 && 0 <= parent / (parent / t) < 0x1_0000_0000
  {
    hide Low32;
    var q := parent / rate;
    DivLargest(parent, rate, 0);
    DivMono(parent, parent, 1, rate);
    if q < 0x1_0000_0000 {
      Fits32(q);
      Again(parent, t);
      NarrowStoredFits(rate, parent, t);
    } else {
      TruncatedQuotient(q);
      Again(parent, t);
      if Low32(q) == 0 { DivUnique(parent, parent, 1); } else { WideStoredFits(rate, parent, t, q); }
    }
  }

  lemma NarrowStoredFits(rate: nat, parent: nat, t: nat)
    requires rate > 0 && 0 < t <= parent && t == (if parent / rate == 0 then 1 else parent / rate) < 0x1_0000_0000
    requires parent / t > 0
    ensures parent / (parent / t) < 0x1_0000_0000
  {
    if parent / rate == 0 {
      DivUnique(parent, parent, 1);
    } else {
      DivLargest(parent, rate, t);
      DivLargest(parent, t, rate);
      DivMono(parent, parent, rate, parent / t);
    }
  }

  lemma WideStoredFits(rate: nat, parent: nat, t: nat, q: nat)
    requires rate > 0 && q == parent / rate && 0 < t < 0x1_0000_0000 && parent / t > 0
    requires
      var j := q / 0x1_0000_0000;
      j >= 1 && q == t + 0x1_0000_0000 * j
    ensures parent / (parent / t) < 0x1_0000_0000
  {
    var j := q / 0x1_0000_0000;
    DivParts(parent, rate);
    Expand(t, 0x1_0000_0000 - t, j, rate);
    OutputBound(parent, t, 0x1_0000_0000 - t, (j + 1) * rate, rate);
    DivLargest(parent, parent / t, 0x1_0000_0000);
  }

  /** With q rate == t k + e (k - rate), the output of t times t + e exceeds the parent. */
  lemma OutputBound(parent: nat, t: nat, e: nat, k: nat, rate: nat)
    requires t > 0 && e > 0 && 0 < rate <= k
    requires t * k + e * (k - rate) <= parent < t * k + e * (k - rate) + rate
    ensures parent < (parent / t) * (t + e)
  {
    var out := parent / t;
    MulMono(0, k - rate, e);
    DivLargest(parent, t, k);
    MulMono(k, out, t);
    MulMono(k, out, e);
    MulMono(1, e, rate);
    assert e * (k - rate) == e * k - e * rate;
    assert out * (t + e) == t * out + e * out;
  }

  lemma Expand(t: nat, e: nat, j: nat, rate: nat)
    requires t + e == 0x1_0000_0000
    ensures rate * (t + 0x1_0000_0000 * j) == t * ((j + 1) * rate) + e * ((j + 1) * rate - rate)
    ensures j >= 1 ==> (j + 1) * rate >= rate
  {
    MulMono(0, j, rate);
    assert (j + 1) * rate == j * rate + rate;
    assert t * (j * rate + rate) == t * (j * rate) + t * rate;
    assert 0x1_0000_0000 * j * rate == t * (j * rate) + e * (j * rate) by { Assoc(0x1_0000_0000, j, rate); }
    assert rate * (t + 0x1_0000_0000 * j) == t * rate + 0x1_0000_0000 * j * rate;
  }

  // Phase

  /** Edges of the input per output period. */
  function Edges(q: U32, half: nat): nat { q * 2 + half }

  /** ad9545_out_clk_set_phase: the 33-bit code for an angle. */
  function PhaseCode(q: U32, half: nat, degrees: nat): nat
    requires half < 2 && degrees < 360
  {
    Edges(q, half) * degrees / 360
  }

  /** ad9545_out_clk_get_phase; the shift right by 32 drops the top bit of the code. */
  function ReadPhase(low: U32, q: U32, half: nat): nat
    requires half < 2 && Low32(Low32(2 * q) + half) != 0
  {
    low * 360 / Low32(Low32(2 * q) + half)
  }

  /** The edges that the driver divides by are truncated to 32 bits. */
  lemma EdgesWrap(q: U32, half: nat)
    requires half < 2
    ensures Low32(Low32(2 * q) + half) == (2 * q + half) % 0x1_0000_0000
  {
  }

  /** Reading back is defined, and gives at most the angle set, short of it by at
      most 360/E degrees rounded up. */
  predicate ReadsBack(q: U32, half: nat, degrees: nat)
    requires half < 2 && degrees < 360 && Edges(q, half) > 0
  {
    && Low32(Low32(2 * q) + half) != 0
    && var e, back := Edges(q, half), ReadPhase(Low32(PhaseCode(q, half, degrees)), q, half);
       degrees - (360 + e - 1) / e <= back <= degrees
  }

  /** Every angle reads back exactly for the dividers below 2^31. */
  lemma PhaseReadBack(q: U32, half: nat)
    requires half < 2 && Edges(q, half) > 0
    ensures (forall degrees :: 0 <= degrees < 360 ==> ReadsBack(q, half, degrees)) <==> q < 0x8000_0000
  {
    hide ReadsBack;
    if q < 0x8000_0000 {
      forall degrees | 0 <= degrees < 360
        ensures ReadsBack(q, half, degrees)
      {
        NarrowReadsBack(q, half, degrees);
      }
    } else {
      WideDividerPhase(q, half);
    }
  }

  /** It is then the very angle set if and only if that is a whole number of edges. */
  lemma NarrowReadsBack(q: U32, half: nat, degrees: nat)
    requires q < 0x8000_0000 && half < 2 && Edges(q, half) > 0 && degrees < 360
    ensures ReadsBack(q, half, degrees)
    ensures PhaseCode(q, half, degrees) < 0x1_0000_0000
    ensures ReadPhase(PhaseCode(q, half, degrees), q, half) == degrees <==> Edges(q, half) * degrees % 360 == 0
  {
    hide Low32;
    var e := Edges(q, half);
    Fits32(2 * q);
    Fits32(e);
    MulMono(degrees, 359, e);
    DivMono(e * degrees, e * 359, 360, 360);
    Fits32(e * degrees / 360);
    ScaledBack(e, degrees);
  }

  /** Scaling to e / 360 and back loses less than 360 / e, and nothing when it is exact. */
  lemma ScaledBack(e: nat, degrees: nat)
    requires e > 0
    ensures
      var back := e * degrees / 360 * 360 / e;
      && degrees - (360 + e - 1) / e <= back <= degrees
      && (back == degrees <==> e * degrees % 360 == 0)
  {
    var scaled := e * degrees / 360 * 360;
    DivParts(e * degrees, 360);
    OneMore(e, degrees);
    DivLargest(scaled, e, degrees);
    DivLargest(scaled, e, degrees + 1);
    Shortfall(e, degrees, scaled / e);
    DivParts(scaled, e);
  }

  lemma Shortfall(e: nat, degrees: nat, back: int)
    requires e > 0 && e * degrees < e * (back + 1) + 360
    ensures degrees - (360 + e - 1) / e <= back
  {
    OneMore(e, back);
    assert e * (degrees - back) == e * degrees - e * back;
    DivLargest(360 + e - 1, e, degrees - back);
  }

  lemma OneMore(a: int, b: int)
    ensures a * (b + 1) == a * b + a
  {
  }

  /** From 2^31 on the number of edges wraps around: half a turn reads back as
      more than that, or divides by zero. */
  lemma WideDividerPhase(q: U32, half: nat)
    requires q >= 0x8000_0000 && half < 2
    ensures PhaseCode(q, half, 180) == q
    ensures Low32(Low32(2 * q) + half) == 2 * q + half - 0x1_0000_0000
    ensures 2 * q + half != 0x1_0000_0000 ==> ReadPhase(q, q, half) >= 181
    ensures !ReadsBack(q, half, 180)
  {
    var e := 2 * q + half - 0x1_0000_0000;
    DivUnique(Edges(q, half) * 180, 360, q);
    DivModUnique(2 * q, 0x1_0000_0000, 1, 2 * q - 0x1_0000_0000);
    Fits32(e);
    Fits32(q);
    if e != 0 { DivLargest(q * 360, e, 181); }
  }

  // The registers

  function Field(mem: seq<Byte>, addr: nat, n: nat): nat
    requires addr + n <= |mem|
  {
    Value(mem[addr..addr + n])
  }

  lemma FieldSet(mem: seq<Byte>, addr: nat, v: U32)
    requires addr + 4 <= |mem|
    ensures Field(Poke(mem, addr, Bytes(v, 4)), addr, 4) == v
  {
    hide Bytes, Value, Pow256;
    Widths();
    ValueOfBytes(v, 4);
    DivModUnique(v, Pow256(4), 0, v);
    assert Poke(mem, addr, Bytes(v, 4))[addr..addr + 4] == Bytes(v, 4);
  }

  lemma FieldKept(mem: seq<Byte>, addr: nat, b: seq<Byte>, addr': nat, n: nat)
    requires addr + |b| <= |mem| && addr' + n <= |mem|
    requires addr' + n <= addr || addr + |b| <= addr'
    ensures Field(Poke(mem, addr, b), addr', n) == Field(mem, addr', n)
  {
    assert Poke(mem, addr, b)[addr'..addr' + n] == mem[addr'..addr' + n];
  }

  lemma FieldIsU32(mem: seq<Byte>, addr: nat)
    requires addr + 4 <= |mem|
    ensures Field(mem, addr, 4) < 0x1_0000_0000
  {
    hide Value, Pow256;
    Widths();
    ValueBound(mem[addr..addr + 4]);
  }

  // What the registers of an output say

  function DivOf(mem: seq<Byte>, output: nat): U32
    requires |mem| == REGISTERS && output < OUTPUTS
  {
    FieldIsU32(mem, QDiv(output));
    Field(mem, QDiv(output), 4)
  }

  function PhaseOf(mem: seq<Byte>, output: nat): U32
    requires |mem| == REGISTERS && output < OUTPUTS
  {
    FieldIsU32(mem, QDiv(output) + 4);
    Field(mem, QDiv(output) + 4, 4)
  }

  /** AD9545_QX_HALF_DIV_MSK */
  function HalfOf(mem: seq<Byte>, output: nat): nat
    requires |mem| == REGISTERS && output < OUTPUTS
  {
    mem[QDiv(output) + 8] / 32 % 2
  }

  ghost predicate SameOutput(mem: seq<Byte>, was: seq<Byte>, output: nat)
    requires |mem| == |was| == REGISTERS && output < OUTPUTS
  {
    && DivOf(mem, output) == DivOf(was, output)
    && PhaseOf(mem, output) == PhaseOf(was, output)
    && HalfOf(mem, output) == HalfOf(was, output)
  }

  lemma OtherKept(mem: seq<Byte>, was: seq<Byte>, lo: nat, hi: nat, other: nat)
    requires |mem| == |was| == REGISTERS && other < OUTPUTS && SameOutside(mem, was, lo, hi)
    requires QDiv(other) + OUTPUT_WINDOW <= lo || hi <= QDiv(other)
    ensures SameOutput(mem, was, other)
  {
    hide Value, SameOutside;
    var a := QDiv(other);
    SliceKept(mem, was, lo, hi, a, 4);
    SliceKept(mem, was, lo, hi, a + 4, 4);
    SliceKept(mem, was, lo, hi, a + 8, 1);
    assert mem[a + 8] == mem[a + 8..a + 9][0] == was[a + 8..a + 9][0] == was[a + 8];
  }

  /** Writing inside the registers of one output changes no other output. */
  lemma OthersKept(mem: seq<Byte>, was: seq<Byte>, output: nat)
    requires |mem| == |was| == REGISTERS && output < OUTPUTS
    requires SameOutside(mem, was, QDiv(output), QDiv(output) + OUTPUT_WINDOW)
    ensures forall other :: 0 <= other < OUTPUTS && other != output ==> SameOutput(mem, was, other)
  {
    forall other | 0 <= other < OUTPUTS && other != output
      ensures SameOutput(mem, was, other)
    {
      if other < output { OutputsApart(other, output); } else { OutputsApart(output, other); }
      OtherKept(mem, was, QDiv(output), QDiv(output) + OUTPUT_WINDOW, other);
    }
  }

  class OutClock {
    const regs: RegisterMap
    const output: nat

    ghost predicate Valid() { regs.Valid() && output < OUTPUTS }

    constructor (regs: RegisterMap, output: nat)
      requires regs.Valid() && output < OUTPUTS
      ensures Valid() && this.regs == regs && this.output == output
    {
      this.regs, this.output := regs, output;
    }

    ghost function Div(): U32
      reads regs.mem
      requires Valid()
    {
      DivOf(regs.mem[..], output)
    }

    ghost function Phase(): U32
      reads regs.mem
      requires Valid()
    {
      PhaseOf(regs.mem[..], output)
    }

    ghost function Half(): nat
      reads regs.mem
      requires Valid()
    {
      HalfOf(regs.mem[..], output)
    }

    method ReadDiv() returns (q: U32)
      requires Valid()
      ensures q == Div()
    {
      FieldIsU32(regs.mem[..], QDiv(output));
      var v := regs.BulkRead(QDiv(output), 4, 0);
      assert regs.mem[..][QDiv(output)..QDiv(output) + 4] == regs.mem[QDiv(output)..QDiv(output) + 4];
      q := v;
    }

    /** ad9545_out_clk_set_rate: what is then read back is what rounding promised. */
    method SetRate(rate: U64, parent: U64)
      requires Valid() && rate > 0
      modifies regs.mem
      ensures Div() > 0 && parent / Div() == RoundRate(rate, parent)
      ensures Div() == if parent / rate % 0x1_0000_0000 == 0 then 1 else parent / rate % 0x1_0000_0000
      ensures Phase() == old(Phase()) && Half() == old(Half())
      ensures forall other :: 0 <= other < OUTPUTS && other != output ==>
                SameOutput(regs.mem[..], old(regs.mem[..]), other)
      ensures forall k :: 0 <= k < REGISTERS && !(QDiv(output) <= k < QDiv(output) + 4) ==>
                regs.mem[k] == old(regs.mem[k])
    {
      hide Value, Bytes;
      ghost var mem := regs.mem[..];
      var q := Quotient(rate, parent);
      if q == 0 { q := 1; }
      regs.BulkWrite(QDiv(output), q, 4);
      FieldSet(mem, QDiv(output), q);
      FieldKept(mem, QDiv(output), Bytes(q, 4), QDiv(output) + 4, 4);
      OthersKept(regs.mem[..], mem, output);
    }

    /** ad9545_out_clk_recalc_rate */
    method RecalcRate(parent: U64) returns (rate: nat)
      requires Valid() && Div() > 0
      ensures rate == parent / Div()
    {
      var q := ReadDiv();
      DivLargest(parent, q, 0);
      rate := parent / q;
    }

    /** ad9545_out_clk_set_phase, for the angles the clock framework passes on. */
    method SetPhase(degrees: nat)
      requires Valid() && degrees < 360
      modifies regs.mem
      ensures Div() == old(Div()) && Half() == old(Half())
      ensures Phase() == PhaseCode(Div(), Half(), degrees) % 0x1_0000_0000
                      == (2 * Div() + Half()) * degrees / 360 % 0x1_0000_0000
      ensures
        var conf, was := regs.mem[QDiv(output) + 8], old(regs.mem[QDiv(output) + 8]);
        conf == if (2 * Div() + Half()) * degrees / 360 >= 0x1_0000_0000 && was / 64 % 2 == 0 then was + 64 else was
      ensures forall other :: 0 <= other < OUTPUTS && other != output ==>
                SameOutput(regs.mem[..], old(regs.mem[..]), other)
      ensures forall k :: 0 <= k < REGISTERS && !(QDiv(output) + 4 <= k < QDiv(output) + 9) ==>
                regs.mem[k] == old(regs.mem[k])
    {
      hide Value, Bytes;
      ghost var mem := regs.mem[..];
      var q: int := ReadDiv();
      var conf := regs.mem[QDiv(output) + 8];
      var half := conf / 32 % 2;
      var code := (q * 2 + half) * degrees / 360;
      WritePhase(code % 0x1_0000_0000);
      if code > 0xFFFF_FFFF { SetPhase32(); }
      OthersKept(regs.mem[..], mem, output);
    }

    method WritePhase(low: U32)
      requires Valid()
      modifies regs.mem
      ensures Div() == old(Div()) && Half() == old(Half()) && Phase() == low
      ensures forall k :: 0 <= k < REGISTERS && !(QDiv(output) + 4 <= k < QDiv(output) + 8) ==>
                regs.mem[k] == old(regs.mem[k])
    {
      hide Value, Bytes;
      ghost var mem := regs.mem[..];
      regs.BulkWrite(QDiv(output) + 4, low, 4);
      FieldSet(mem, QDiv(output) + 4, low);
      FieldKept(mem, QDiv(output) + 4, Bytes(low, 4), QDiv(output), 4);
    }

    /** The 33rd bit of the phase code; nothing ever clears it. */
    method SetPhase32()
      requires Valid()
      modifies regs.mem
      ensures Div() == old(Div()) && Half() == old(Half()) && Phase() == old(Phase())
      ensures regs.mem[QDiv(output) + 8] / 64 % 2 == 1
      ensures
        var was := old(regs.mem[QDiv(output) + 8]);
        regs.mem[QDiv(output) + 8] == if was / 64 % 2 == 0 then was + 64 else was
      ensures forall k :: 0 <= k < REGISTERS && k != QDiv(output) + 8 ==> regs.mem[k] == old(regs.mem[k])
    {
      hide Value, Bytes;
      ghost var mem := regs.mem[..];
      var conf := regs.mem[QDiv(output) + 8];
      regs.mem[QDiv(output) + 8] := if conf / 64 % 2 == 1 then conf else conf + 64;
      assert regs.mem[..] == Poke(mem, QDiv(output) + 8, [regs.mem[QDiv(output) + 8]]);
      FieldKept(mem, QDiv(output) + 8, [regs.mem[QDiv(output) + 8]], QDiv(output), 4);
      FieldKept(mem, QDiv(output) + 8, [regs.mem[QDiv(output) + 8]], QDiv(output) + 4, 4);
    }

    /** ad9545_out_clk_get_phase */
    method GetPhase() returns (degrees: nat)
      requires Valid() && (2 * Div() + Half()) % 0x1_0000_0000 != 0
      ensures Low32(Low32(2 * Div()) + Half()) != 0 && degrees == ReadPhase(Phase(), Div(), Half())
      ensures degrees == Phase() * 360 / ((2 * Div() + Half()) % 0x1_0000_0000)
    {
      hide Value;
      EdgesWrap(Div(), Half());
      var q: int := ReadDiv();
      var half := regs.mem[QDiv(output) + 8] / 32 % 2;
      var low := regs.BulkRead(QDiv(output) + 4, 4, 0);
      assert regs.mem[..][QDiv(output) + 4..QDiv(output) + 8] == regs.mem[QDiv(output) + 4..QDiv(output) + 8];
      var edges := Low32(Low32(2 * q) + half);
      DivLargest(low * 360, edges, 0);
      degrees := low * 360 / edges;
    }
  }
}
