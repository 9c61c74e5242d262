/** The time-of-day counter: 48-bit seconds, 32-bit nanoseconds (section 5.3.3
    of IEEE 1588-2008) and a 16-bit fraction, in three 32-bit registers. */
module TimeOfDay {
  import opened Registers

  const NANO: int := 1_000_000_000        // TOD_1_SEC_IN_NANO
  const FRAC: int := 0x1_0000             // TOD_FRAC_NANO_NUM
  const SECONDS_RANGE: int := 0x1_0000_0000_0000

  datatype Time = Time(seconds: U64, ns: U32, frac: U16)

  datatype Delay = Delay(ns: U64, frac: U16)

  datatype Regs = Regs(nsec: U32, sec0: U32, sec1: U32)

  /** A time as a number of 2^-16 ns. */
  function Units(t: Time): nat { (t.seconds * NANO + t.ns) * FRAC + t.frac }

  // Packing

  /** _tod_hw_settstamp_to_reg */
  function Pack(t: Time): Regs
  {
    Regs(t.frac + t.ns % 0x1_0000 * 0x1_0000,
         t.ns / 0x1_0000 + t.seconds % 0x1_0000 * 0x1_0000,
         t.seconds / 0x1_0000 % 0x1_0000_0000)
  }

  /** _tod_hw_gettstamp_from_reg */
  function Unpack(r: Regs): Time
  {
    Time(r.sec0 / 0x1_0000 + r.sec1 * 0x1_0000, r.nsec / 0x1_0000 + r.sec0 % 0x1_0000 * 0x1_0000, r.nsec % 0x1_0000)
  }

  /** In the three registers, read as one 96-bit number, the fraction comes first,
      then the nanoseconds and 48 bits of seconds. */
  lemma Layout(t: Time)
    ensures
      var r := Pack(t);
      r.nsec + r.sec0 * 0x1_0000_0000 + r.sec1 * 0x1_0000_0000_0000_0000
      == t.frac + t.ns * 0x1_0000 + t.seconds % 0x1_0000_0000_0000 * 0x1_0000_0000_0000
  {
    SecondsSplit(t.seconds);
    DivParts(t.ns);
  }

  lemma DivParts(x: U32)
    ensures x == x / 0x1_0000 * 0x1_0000 + x % 0x1_0000
  {
  }

  /** The registers keep everything but the seconds above 48 bits. */
  lemma UnpackPack(t: Time)
    ensures Unpack(Pack(t)) == t.(seconds := t.seconds % SECONDS_RANGE)
    ensures Unpack(Pack(t)) == t <==> t.seconds < SECONDS_RANGE
  {
    var r := Pack(t);
    DivModUnique(r.nsec, 0x1_0000, t.ns % 0x1_0000, t.frac);
    DivModUnique(r.sec0, 0x1_0000, t.seconds % 0x1_0000, t.ns / 0x1_0000);
    SecondsSplit(t.seconds);
    assert Unpack(r).ns == t.ns && Unpack(r).frac == t.frac;
  }

  lemma SecondsSplit(x: U64)
    ensures x % 0x1_0000 + x / 0x1_0000 % 0x1_0000_0000 * 0x1_0000 == x % SECONDS_RANGE
    ensures x % SECONDS_RANGE == x <==> x < SECONDS_RANGE
  {
  }

  lemma PackUnpack(r: Regs)
    ensures Pack(Unpack(r)) == r
  {
    var t := Unpack(r);
    DivModUnique(t.ns, 0x1_0000, r.sec0 % 0x1_0000, r.nsec / 0x1_0000);
    DivModUnique(t.seconds, 0x1_0000, r.sec1, r.sec0 / 0x1_0000);
    assert Pack(t).nsec == r.nsec && Pack(t).sec0 == r.sec0;
  }

  // Adding the trigger delay

  function FracCarry(t: Time, d: Delay): nat { if t.frac + d.frac < FRAC then 0 else 1 }

  /** The sum, with nanoseconds below a second. */
  function Plus(t: Time, d: Delay): Time
  {
    var ns := Low64(t.ns + d.ns + FracCarry(t, d));
    Time(Low64(t.seconds + ns / NANO), ns % NANO, t.frac + d.frac - FracCarry(t, d) * FRAC)
  }

  /** Nothing overflows in a sum. */
  predicate Addable(t: Time, d: Delay)
  {
    var ns := t.ns + d.ns + FracCarry(t, d);
    ns < 0x1_0000_0000_0000_0000 && t.seconds + ns / NANO < 0x1_0000_0000_0000_0000
  }

  /** The sum is exact if and only if neither its nanoseconds nor the whole of it
      leave 64 bits. */
  lemma PlusExact(t: Time, d: Delay)
    ensures Units(Plus(t, d)) == Units(t) + d.ns * FRAC + d.frac
            <==> && (t.ns + d.ns) * FRAC + t.frac + d.frac < 0x1_0000_0000_0000_0000 * FRAC
                 && Units(t) + d.ns * FRAC + d.frac < 0x1_0000_0000_0000_0000 * NANO * FRAC
  {
    hide Plus, Units, Addable;
    AddableInUnits(t, d);
    AddableExact(t, d);
  }

  lemma AddableInUnits(t: Time, d: Delay)
    ensures Addable(t, d)
            <==> && (t.ns + d.ns) * FRAC + t.frac + d.frac < 0x1_0000_0000_0000_0000 * FRAC
                 && Units(t) + d.ns * FRAC + d.frac < 0x1_0000_0000_0000_0000 * NANO * FRAC
    ensures t.seconds < SECONDS_RANGE ==>
              (Addable(t, d) <==> (t.ns + d.ns) * FRAC + t.frac + d.frac < 0x1_0000_0000_0000_0000 * FRAC)
  {
  }

  lemma AddableExact(t: Time, d: Delay)
    ensures Units(Plus(t, d)) == Units(t) + d.ns * FRAC + d.frac <==> Addable(t, d)
  {
    hide Low64;
    var sum := t.ns + d.ns + FracCarry(t, d);
    LowLess(sum);
    LowLess(t.seconds + Low64(sum) / NANO);
  }

  /** Truncation to 64 bits takes away a multiple of 2^64. */
  lemma LowLess(x: nat)
    ensures Low64(x) == x - x / 0x1_0000_0000_0000_0000 * 0x1_0000_0000_0000_0000
    ensures x / 0x1_0000_0000_0000_0000 == 0 <==> x < 0x1_0000_0000_0000_0000
  {
  }

  // Adjusting by a signed number of nanoseconds

  /** div_s64_rem: quotient and remainder, both truncated towards zero. */
  function Whole(delta: int): int { if delta < 0 then -(-delta / NANO) else delta / NANO }

  function Part(delta: int): int { delta - Whole(delta) * NANO }

  predicate Borrows(t: Time, delta: S64) { Part(delta) < 0 && -Part(delta) > t.ns }

  /** The nanoseconds after the borrow, before the carry is looked at. */
  function Shifted(t: Time, delta: S64): U32
  {
    Low32(if Borrows(t, delta) then NANO + Part(delta) + t.ns else t.ns + Part(delta))
  }

  predicate Carries(t: Time, delta: S64) { Shifted(t, delta) >= NANO }

  /** _tod_adjtime between reading and writing the registers; the branch that
      carries does not add the whole seconds. */
  function Adjusted(t: Time, delta: S64): Time
  {
    var seconds := if Borrows(t, delta) then Low64(t.seconds - 1) else t.seconds;
    if Carries(t, delta) then Time(Low64(seconds + 1), Shifted(t, delta) - NANO, t.frac)
    else Time(Low64(seconds + Whole(delta)), Shifted(t, delta), t.frac)
  }

  /** What a counter with 48-bit seconds shows at a given number of 2^-16 ns. */
  function Shown(units: int): Time
  {
    Time(units / FRAC / NANO % SECONDS_RANGE, units / FRAC % NANO, units % FRAC)
  }

  lemma WholeBound(delta: S64)
    ensures -NANO < Part(delta) < NANO && delta == Whole(delta) * NANO + Part(delta)
    ensures delta >= 0 ==> Part(delta) == delta % NANO
    ensures delta < 0 ==> Part(delta) <= 0 && Whole(delta) <= 0
    ensures Whole(delta) > 0 <==> delta >= NANO
    ensures -SECONDS_RANGE < Whole(delta) < SECONDS_RANGE
  {
  }

  lemma ShownParts(seconds: int, ns: int, frac: int)
    requires 0 <= ns < NANO && 0 <= frac < FRAC
    ensures Shown((seconds * NANO + ns) * FRAC + frac) == Time(seconds % SECONDS_RANGE, ns, frac)
  {
    var units := (seconds * NANO + ns) * FRAC + frac;
    DivModUnique(units, FRAC, seconds * NANO + ns, frac);
    DivModUnique(seconds * NANO + ns, NANO, seconds, ns);
  }

  /** Truncating to 64 bits on the way does not matter to 48-bit seconds. */
  lemma LowSeconds(x: int)
    ensures Low64(x) % SECONDS_RANGE == x % SECONDS_RANGE
  {
    var k := x / 0x1_0000_0000_0000_0000;
    assert Low64(x) == x - k * 0x1_0000 * SECONDS_RANGE;
    SameSeconds(Low64(x), x, k * 0x1_0000);
  }

  lemma SameSeconds(a: int, b: int, k: int)
    requires b == a + k * SECONDS_RANGE
    ensures a % SECONDS_RANGE == b % SECONDS_RANGE
  {
    DivModUnique(b, SECONDS_RANGE, a / SECONDS_RANGE + k, a % SECONDS_RANGE);
  }

  /** The registers get exactly the time shifted by delta, unless delta is a second
      or more and its nanoseconds carry: then its whole seconds are lost. */
  lemma AdjustedExact(t: Time, delta: S64)
    requires t.ns < NANO
    ensures Unpack(Pack(Adjusted(t, delta))) == Shown(Units(t) + delta * FRAC)
            <==> delta < NANO || t.ns + delta % NANO < NANO
    ensures delta >= NANO && t.ns + delta % NANO >= NANO ==>
              Unpack(Pack(Adjusted(t, delta))) == Shown(Units(t) + delta % NANO * FRAC)
    ensures Unpack(Pack(Adjusted(t, delta))).ns == (t.ns + delta) % NANO
  {
    hide Low64, Whole, Pack, Unpack, Units, Shown;
    WholeBound(delta);
    var sum := t.ns + Part(delta);
    var b := if sum < 0 then -1 else if sum >= NANO then 1 else 0;
    var ns := sum - b * NANO;
    assert Shifted(t, delta) == if sum < 0 then sum + NANO else sum;
    ShiftedUnits(t, delta, Whole(delta) + b, ns);
    var adjusted := Adjusted(t, delta);
    UnpackPack(adjusted);
    assert adjusted.ns == ns && adjusted.frac == t.frac;
    AdjustedSeconds(t, delta, b);
    SecondsDiffer(t.seconds + 1, Whole(delta));
    if b == 1 { ShiftedUnits(t, Part(delta), b, ns); }
  }

  /** A time shifted by whole seconds and to other nanoseconds. */
  lemma ShiftedUnits(t: Time, delta: int, seconds: int, ns: int)
    requires 0 <= ns < NANO && t.ns + delta == seconds * NANO + ns
    ensures Shown(Units(t) + delta * FRAC) == Time((t.seconds + seconds) % SECONDS_RANGE, ns, t.frac)
    ensures ns == (t.ns + delta) % NANO
  {
    hide Shown;
    assert Units(t) + delta * FRAC == ((t.seconds + seconds) * NANO + ns) * FRAC + t.frac;
    ShownParts(t.seconds + seconds, ns, t.frac);
    DivModUnique(t.ns + delta, NANO, seconds, ns);
  }

  lemma AdjustedSeconds(t: Time, delta: S64, b: int)
    requires b == if Borrows(t, delta) then -1 else if Carries(t, delta) then 1 else 0
    requires Borrows(t, delta) ==> !Carries(t, delta)
    ensures Adjusted(t, delta).seconds % SECONDS_RANGE
         == (t.seconds + b + if Carries(t, delta) then 0 else Whole(delta)) % SECONDS_RANGE
  {
    hide Low64, Whole, Shifted;
    if Borrows(t, delta) {
      LowSeconds(Low64(t.seconds - 1) + Whole(delta));
      var k := (t.seconds - 1) / 0x1_0000_0000_0000_0000;
      LowMultiple(t.seconds - 1);
      SameSeconds(Low64(t.seconds - 1) + Whole(delta), t.seconds - 1 + Whole(delta), k * 0x1_0000);
    } else {
      LowSeconds(t.seconds + Whole(delta));
      LowSeconds(t.seconds + 1);
    }
  }

  lemma LowMultiple(x: int)
    ensures x == Low64(x) + x / 0x1_0000_0000_0000_0000 * 0x1_0000 * SECONDS_RANGE
  {
  }

  lemma SecondsDiffer(a: int, d: int)
    requires -SECONDS_RANGE < d < SECONDS_RANGE
    ensures a % SECONDS_RANGE == (a + d) % SECONDS_RANGE <==> d == 0
  {
  }

  /** A delta of 1.9 s on a counter at 0.2 s: it ends up at 1.1 s, not at 2.1 s. */
  lemma CarryLosesSeconds(t: Time)
    requires t == Time(0, 200_000_000, 0)
    ensures Unpack(Pack(Adjusted(t, 1_900_000_000))) == Time(1, 100_000_000, 0)
    ensures Shown(Units(t) + 1_900_000_000 * FRAC) == Time(2, 100_000_000, 0)
  {
    hide Pack, Unpack, Low64;
    assert Whole(1_900_000_000) == 1 && Shifted(t, 1_900_000_000) == 1_100_000_000;
    Fits64(1);
    UnpackPack(Adjusted(t, 1_900_000_000));
    ShownParts(2, 100_000_000, 0);
  }

  // The whole adjustment

  /** How far ahead of the latched time the new time takes effect. */
  function LeadUnits(gc: bool, d: Delay): int { if gc then d.ns * FRAC + d.frac else NANO * FRAC }

  function Lead(t: Time, gc: bool, d: Delay): Time
  {
    if gc then Plus(t, d) else t.(seconds := Low64(t.seconds + 1))
  }

  /** The delay does not overflow the nanoseconds, and delta has no whole seconds
      that a carry would lose. */
  predicate NothingLost(latched: Time, gc: bool, d: Delay, delta: S64)
  {
    && (gc ==> (latched.ns + d.ns) * FRAC + latched.frac + d.frac < 0x1_0000_0000_0000_0000 * FRAC)
    && (delta < NANO || Shown(Units(latched) + LeadUnits(gc, d)).ns + delta % NANO < NANO)
  }

  /** The new register contents are the latched time plus the lead plus delta in
      exactly these cases. */
  lemma AdjtimeExact(latched: Time, gc: bool, d: Delay, delta: S64)
    requires latched.seconds < SECONDS_RANGE && (latched.ns < NANO || gc)
    ensures
      Unpack(Pack(Adjusted(Lead(latched, gc, d), delta)))
      == Shown(Units(latched) + LeadUnits(gc, d) + delta * FRAC)
      <==> NothingLost(latched, gc, d, delta)
  {
    hide Low64, Pack, Unpack, Shown, Adjusted, Plus, Addable, Units;
    var led := Lead(latched, gc, d);
    PlusShape(latched, d);
    Fits64(latched.seconds + 1);
    AdjustedExact(led, delta);
    AddableInUnits(latched, d);
    if gc ==> Addable(latched, d) {
      LeadExact(latched, gc, d);
      ShownUnits(led);
    } else {
      Overflowed(latched, d, delta);
    }
  }

  /** A counter shows a time as it is, up to its 48 bits of seconds. */
  lemma ShownUnits(t: Time)
    requires t.ns < NANO
    ensures Shown(Units(t)) == t.(seconds := t.seconds % SECONDS_RANGE)
  {
    hide Shown;
    ShownParts(t.seconds, t.ns, t.frac);
  }

  lemma PlusShape(t: Time, d: Delay)
    ensures Plus(t, d).ns < NANO
  {
  }

  lemma LeadExact(t: Time, gc: bool, d: Delay)
    requires t.seconds < SECONDS_RANGE && (gc ==> Addable(t, d))
    ensures Units(Lead(t, gc, d)) == Units(t) + LeadUnits(gc, d)
  {
    if gc { AddableExact(t, d); } else { Fits64(t.seconds + 1); }
    hide Low64, Plus, Addable;
  }

  /** An overflow of the nanoseconds shows: 2^64 is not a multiple of 10^9. */
  lemma Overflowed(t: Time, d: Delay, delta: S64)
    requires t.seconds < SECONDS_RANGE && !Addable(t, d)
    ensures Shown(Units(t) + LeadUnits(true, d) + delta * FRAC).ns != (Plus(t, d).ns + delta) % NANO
  {
    hide Low64, Shown;
    var sum := t.ns + d.ns + FracCarry(t, d);
    LowLess(sum);
    assert sum >= 0x1_0000_0000_0000_0000;
    var low := Low64(sum);
    assert low == sum - 0x1_0000_0000_0000_0000;
    var frac := t.frac + d.frac - FracCarry(t, d) * FRAC;
    var n := sum + delta;
    assert Units(t) + LeadUnits(true, d) + delta * FRAC == ((t.seconds + n / NANO) * NANO + n % NANO) * FRAC + frac;
    ShownParts(t.seconds + n / NANO, n % NANO, frac);
    assert Plus(t, d).ns == low % NANO;
    ModPlus(low, delta);
    NotWholeSeconds(n);
  }

  lemma ModPlus(a: int, b: int)
    ensures (a % NANO + b) % NANO == (a + b) % NANO
  {
    var r := (a % NANO + b) % NANO;
    DivModUnique(a + b, NANO, a / NANO + (a % NANO + b) / NANO, r);
  }

  lemma NotWholeSeconds(n: int)
    ensures (n - 0x1_0000_0000_0000_0000) % NANO != n % NANO
  {
    // 2^64 == 18446744073 * 10^9 + 709551616
    var b := if n % NANO < 709_551_616 then 1 else 0;
    DivModUnique(n - 0x1_0000_0000_0000_0000, NANO, n / NANO - 18_446_744_073 - b, n % NANO - 709_551_616 + b * NANO);
  }

  // The driver's objects

  class Tstamp {
    var seconds: U64
    var ns: U32
    var frac: U16

    constructor ()
    {
      seconds, ns, frac := 0, 0, 0;
    }

    function Value(): Time
      reads this
    {
      Time(seconds, ns, frac)
    }

    /** _tod_hw_tstamp_add_delay */
    method AddDelay(d: Delay)
      modifies this
      ensures Value() == Plus(old(Value()), d)
    {
      var sum: U64;
      if frac + d.frac < FRAC {
        frac := frac + d.frac;
        sum := Low64(ns + d.ns);
      } else {
        frac := (frac + d.frac) % 0x1_0000;
        sum := Low64(ns + d.ns + 1);
      }
      if sum >= NANO {
        seconds := Low64(seconds + sum / NANO);
        ns := sum % NANO;
      } else {
        ns := sum;
      }
    }

    /** The adjustment in the middle of _tod_adjtime. */
    method Adjust(delta: S64)
      modifies this
      ensures Value() == Adjusted(old(Value()), delta)
      ensures old(ns) < NANO ==>
                (Unpack(Pack(Value())) == Shown(old(Units(Value())) + delta * FRAC)
                 <==> delta < NANO || old(ns) + delta % NANO < NANO)
    {
      hide Pack, Unpack, Units, Shown;
      if ns < NANO { AdjustedExact(Value(), delta); }
      var whole := Whole(delta);
      var part: int := delta - whole * NANO;
      if part < 0 && -part > ns {
        ns := Low32(NANO + part + ns);
        seconds := Low64(seconds - 1);
      } else {
        ns := Low32(ns + part);
      }
      if ns < NANO {
        seconds := Low64(seconds + whole);
      } else {
        ns := ns - NANO;
        seconds := Low64(seconds + 1);
      }
    }
  }

  class Tod {
    const gc: bool          // trigger by the golden counter, not by PPS
    const delay: Delay
    var cfg: Regs           // time to be set
    var stat: Regs          // time latched by the last read trigger

    constructor (gc: bool, delay: Delay)
      ensures this.gc == gc && this.delay == delay
    {
      this.gc, this.delay := gc, delay;
      cfg, stat := Regs(0, 0, 0), Regs(0, 0, 0);
    }

    /** _tod_hw_gettstamp; the counter latches `now` unless the trigger times out. */
    method GetTstamp(t: Tstamp, now: Regs, timedOut: bool) returns (err: bool)
      modifies this`stat, t
      ensures err == timedOut
      ensures !err ==> stat == now && t.Value() == Unpack(now)
    {
      err := timedOut;
      if !err {
        stat := now;
        t.frac := stat.nsec % 0x1_0000;
        t.ns := stat.nsec / 0x1_0000 + stat.sec0 % 0x1_0000 * 0x1_0000;
        t.seconds := stat.sec0 / 0x1_0000 + stat.sec1 * 0x1_0000;
      }
    }

    /** _tod_hw_settstamp; the registers are written even if the trigger times out. */
    method SetTstamp(t: Tstamp, timedOut: bool) returns (err: bool)
      modifies this`cfg
      ensures err == timedOut && cfg == Pack(t.Value())
    {
      cfg := cfg.(nsec := t.frac + t.ns % 0x1_0000 * 0x1_0000);
      cfg := cfg.(sec0 := t.ns / 0x1_0000 + t.seconds % 0x1_0000 * 0x1_0000);
      cfg := cfg.(sec1 := t.seconds / 0x1_0000 % 0x1_0000_0000);
      err := timedOut;
    }

    /** _tod_adjtime: the time written is the latched one plus the lead plus
        delta in just the cases AdjtimeExact names; after a failed read nothing
        is written. */
    method AdjTime(delta: S64, now: Regs, readTimesOut: bool, writeTimesOut: bool) returns (err: bool)
      modifies this`cfg, this`stat
      ensures err == (readTimesOut || writeTimesOut)
      ensures readTimesOut ==> cfg == old(cfg)
      ensures !readTimesOut ==> cfg == Pack(Adjusted(Lead(Unpack(now), gc, delay), delta))
      ensures !readTimesOut && (Unpack(now).ns < NANO || gc) ==>
                (Unpack(cfg) == Shown(Units(Unpack(now)) + LeadUnits(gc, delay) + delta * FRAC)
                 <==> NothingLost(Unpack(now), gc, delay, delta))
    {
      hide Pack, Shown, Adjusted, Plus, Units, NothingLost;
      var t := new Tstamp();
      err := GetTstamp(t, now, readTimesOut);
      if err { return; }
      if gc { t.AddDelay(delay); } else { t.seconds := Low64(t.seconds + 1); }
      t.Adjust(delta);
      err := SetTstamp(t, writeTimesOut);
      if Unpack(now).ns < NANO || gc {
        AdjtimeExact(Unpack(now), gc, delay, delta);
      }
    }
  }

  // Fields of registers

  function Cut(reg: bv32, mask: bv32): bv32 { reg & mask }

  function Shl(v: bv32, shift: bv32): bv32
    requires shift < 32
  {
    v << shift
  }

  function Shr(v: bv32, shift: bv32): bv32
    requires shift < 32
  {
    v >> shift
  }

  function Merge(was: bv32, v: bv32, mask: bv32): bv32 { (was & !mask) | (v & mask) }

  /** _tod_reg_wr: a whole register, or one field by read-modify-write. */
  function Written(was: bv32, val: bv32, mask: bv32, shift: bv32): bv32
    requires shift < 32
  {
    if mask == 0xFFFF_FFFF then val else Merge(was, Shl(val, shift), mask)
  }

  /** _tod_reg_rd */
  function ReadOut(reg: bv32, mask: bv32, shift: bv32): bv32
    requires shift < 32
  {
    Shr(Cut(reg, mask), shift)
  }

  /** A value that fits its field, `shift` bits up, reads back, is what the field's
      bits hold, and no other field changes. */
  lemma FieldAccess(was: bv32, val: bv32, mask: bv32, shift: bv32, mask': bv32, shift': bv32)
    requires shift < 32 && shift' < 32 && (mask == 0xFFFF_FFFF ==> shift == 0)
    requires ((val << shift) & mask) >> shift == val && Cut(mask, mask') == 0
    ensures ReadOut(Written(was, val, mask, shift), mask, shift) == val
    ensures ReadOut(Written(was, val, mask, shift), mask', shift') == ReadOut(was, mask', shift')
  {
    hide Cut, Shl, Shr, Merge;
    InPlace(val, mask, shift);
    if mask == 0xFFFF_FFFF {
      WholeRegister(val, was, mask');
    } else {
      Merged(was, Shl(val, shift), mask, mask');
    }
  }

  lemma InPlace(val: bv32, mask: bv32, shift: bv32)
    requires shift < 32
    ensures Shr(Cut(Shl(val, shift), mask), shift) == ((val << shift) & mask) >> shift
  {
  }

  lemma Merged(was: bv32, v: bv32, mask: bv32, mask': bv32)
    requires Cut(mask, mask') == 0
    ensures Cut(Merge(was, v, mask), mask) == Cut(v, mask)
    ensures Cut(Merge(was, v, mask), mask') == Cut(was, mask')
  {
  }

  lemma WholeRegister(val: bv32, was: bv32, mask': bv32)
    requires Cut(0xFFFF_FFFF, mask') == 0
    ensures Shl(val, 0) == val && Cut(val, mask') == Cut(was, mask')
  {
  }
}
