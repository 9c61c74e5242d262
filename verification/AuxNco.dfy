/** AD9545 auxiliary NCOs: a 56-bit center frequency in units of 2^-40 Hz and a
    32-bit offset in units of 2^-24 Hz. */
module AuxNco {
  import opened Registers
  import opened OutDivider

  const WORD_LIMIT: nat := 0x100_0000_0000_0000   // 2^56
  const HZ: nat := 0x100_0000_0000                // 2^40

  /** ad9545_get_nco_freq */
  function Tuning(center: nat, offset: nat): U64 { Low64(center + offset * 0x1_0000) }

  /** ad9545_get_nco_freq_hz */
  function Hertz(tuning: U64): U32 { Low32(Low64(tuning + HZ / 2) / HZ) }

  /** The tuning word is the sum of both frequencies, the center in units of 2^-40 Hz
      and the offset in units of 2^-24 Hz. */
  lemma TuningInHertz(center: nat, offset: U32)
    requires center < WORD_LIMIT
    ensures Tuning(center, offset) * 0x100_0000 == center * 0x100_0000 + offset * 0x100_0000_0000
    ensures Tuning(center, offset) < 0x101_0000_0000_0000
  {
  }

  /** The rate in Hz is the closest to the tuning word; a tie goes up. */
  lemma HertzClosest(tuning: U64)
    requires tuning < 0x101_0000_0000_0000
    ensures -0x80_0000_0000 <= tuning - Hertz(tuning) * 0x100_0000_0000 < 0x80_0000_0000
  {
    var sum := tuning + HZ / 2;
    Fits64(sum);
    DivModUnique(sum, HZ, sum / HZ, sum % HZ);
    Fits32(sum / HZ);
  }

  /** The tuning word read back is the center frequency exactly when the offset is 0. */
  lemma ReadBackIsCenter(center: nat, offset: U32)
    requires center < WORD_LIMIT
    ensures Tuning(center, offset) == center <==> offset == 0
  {
  }

  /** What ad9545_set_nco_freq_hz stores as center and offset. */
  function StoredHz(hz: U32): (nat, U32)
  {
    if hz <= 0xffff then (hz * HZ, 0) else (0xffff, Low32((hz - 0xffff) * 0x100_0000))
  }

  /** The tuning word a rate in Hz ends up as: above 65535 Hz the center is stored
      in the wrong unit. */
  lemma StoredTuning(hz: U32)
    requires hz <= 0xffff + 0xff
    ensures Tuning(StoredHz(hz).0, StoredHz(hz).1)
         == if hz <= 65535 then hz * 0x100_0000_0000 else 65535 + (hz - 65535) * 0x100_0000_0000
    ensures StoredHz(hz).0 < 0x100_0000_0000_0000
  {
    if hz <= 0xffff {
      Fits64(hz * HZ);
    } else {
      var k := hz - 0xffff;
      Fits32(k * 0x100_0000);
      Fits64(0xffff + k * HZ);
    }
    hide Low64, Low32;
  }

  /** So it reads back as set exactly up to 65535 Hz, and 65535 Hz too low above. */
  lemma HertzReadBack(hz: U32)
    requires hz <= 0xffff + 0xff
    ensures Hertz(Tuning(StoredHz(hz).0, StoredHz(hz).1)) == hz <==> hz <= 0xffff
    ensures Hertz(Tuning(StoredHz(hz).0, StoredHz(hz).1)) == if hz <= 65535 then hz else hz - 65535
  {
    hide Hertz, Tuning, StoredHz;
    StoredTuning(hz);
    HertzClosest(Tuning(StoredHz(hz).0, StoredHz(hz).1));
  }

  // The registers

  const NCOS: nat := 2
  const NCO_WINDOW: nat := 11   // center and offset frequency

  /** AD9545_NCOX_CENTER_FREQ; the offset is 7 registers on. */
  function CenterAddr(address: nat): nat { 0x2800 + address * 0x40 }

  function CenterOf(mem: seq<Byte>, address: nat): nat
    requires |mem| == REGISTERS && address < NCOS
  {
    Field(mem, CenterAddr(address), 7)
  }

  function OffsetOf(mem: seq<Byte>, address: nat): U32
    requires |mem| == REGISTERS && address < NCOS
  {
    FieldIsU32(mem, CenterAddr(address) + 7);
    Field(mem, CenterAddr(address) + 7, 4)
  }

  ghost predicate SameNco(mem: seq<Byte>, was: seq<Byte>, address: nat)
    requires |mem| == |was| == REGISTERS && address < NCOS
  {
    CenterOf(mem, address) == CenterOf(was, address) && OffsetOf(mem, address) == OffsetOf(was, address)
  }

  /** Writing inside the registers of one NCO does not change the other. */
  lemma OtherNcoKept(mem: seq<Byte>, was: seq<Byte>, address: nat, other: nat)
    requires |mem| == |was| == REGISTERS && address < NCOS && other < NCOS && other != address
    requires SameOutside(mem, was, CenterAddr(address), CenterAddr(address) + NCO_WINDOW)
    ensures SameNco(mem, was, other)
  {
    assert CenterAddr(address) + NCO_WINDOW <= CenterAddr(other)
        || CenterAddr(other) + NCO_WINDOW <= CenterAddr(address);
    hide Value, SameOutside;
    var lo, hi, a := CenterAddr(address), CenterAddr(address) + NCO_WINDOW, CenterAddr(other);
    SliceKept(mem, was, lo, hi, a, 7);
    SliceKept(mem, was, lo, hi, a + 7, 4);
  }

  class Nco {
    const regs: RegisterMap
    const address: nat

    ghost predicate Valid() { regs.Valid() && address < NCOS }

    constructor (regs: RegisterMap, address: nat)
      requires regs.Valid() && address < NCOS
      ensures Valid() && this.regs == regs && this.address == address
    {
      this.regs, this.address := regs, address;
    }

    ghost function Center(): nat
      reads regs.mem
      requires Valid()
    {
      CenterOf(regs.mem[..], address)
    }

    ghost function Offset(): U32
      reads regs.mem
      requires Valid()
    {
      OffsetOf(regs.mem[..], address)
    }

    /** ad9545_set_nco_center_freq; false stands for -EINVAL. */
    method SetCenter(freq: U64) returns (ok: bool)
      requires Valid()
      modifies regs.mem
      ensures ok <==> freq < 0x100_0000_0000_0000
      ensures ok ==> Center() == freq && Offset() == old(Offset())
      ensures SameNco(regs.mem[..], old(regs.mem[..]), 1 - address)
      ensures forall k :: 0 <= k < REGISTERS && (!ok || !(CenterAddr(address) <= k < CenterAddr(address) + 7)) ==>
                regs.mem[k] == old(regs.mem[k])
    {
      hide Value, Bytes, Pow256;
      ghost var mem := regs.mem[..];
      ok := freq / WORD_LIMIT == 0;
      if ok {
        regs.BulkWrite(CenterAddr(address), freq, 7);
        CenterSet(mem, CenterAddr(address), freq);
        FieldKept(mem, CenterAddr(address), Bytes(freq, 7), CenterAddr(address) + 7, 4);
      }
      OtherNcoKept(regs.mem[..], mem, address, 1 - address);
    }

    lemma CenterSet(mem: seq<Byte>, addr: nat, v: nat)
      requires addr + 7 <= |mem| && v < WORD_LIMIT
      ensures Field(Poke(mem, addr, Bytes(v, 7)), addr, 7) == v
    {
      hide Bytes, Value, Pow256;
      Widths();
      ValueOfBytes(v, 7);
      DivModUnique(v, Pow256(7), 0, v);
      assert Poke(mem, addr, Bytes(v, 7))[addr..addr + 7] == Bytes(v, 7);
    }

    /** ad9545_get_nco_center_freq; the eighth byte of the variable is masked away. */
    method GetCenter(top: Byte) returns (freq: nat)
      requires Valid()
      ensures freq == Center() < WORD_LIMIT
    {
      hide Value, Pow256;
      Widths();
      var v := regs.BulkRead(CenterAddr(address), 7, top);
      var a := CenterAddr(address);
      assert regs.mem[..][a..a + 7] == regs.mem[a..a + 7];
      ValueBound(regs.mem[CenterAddr(address)..CenterAddr(address) + 7]);
      freq := v % WORD_LIMIT;
      DivModUnique(v, WORD_LIMIT, top, Center());
    }

    /** ad9545_set_nco_offset_freq */
    method SetOffset(freq: U32)
      requires Valid()
      modifies regs.mem
      ensures Offset() == freq && Center() == old(Center())
      ensures SameNco(regs.mem[..], old(regs.mem[..]), 1 - address)
      ensures forall k :: 0 <= k < REGISTERS && !(CenterAddr(address) + 7 <= k < CenterAddr(address) + 11) ==>
                regs.mem[k] == old(regs.mem[k])
    {
      hide Value, Bytes;
      ghost var mem := regs.mem[..];
      regs.BulkWrite(CenterAddr(address) + 7, freq, 4);
      FieldSet(mem, CenterAddr(address) + 7, freq);
      FieldKept(mem, CenterAddr(address) + 7, Bytes(freq, 4), CenterAddr(address), 7);
      OtherNcoKept(regs.mem[..], mem, address, 1 - address);
    }

    /** ad9545_get_aux_nco_tuning_freq */
    method GetTuning(top: Byte) returns (freq: U64)
      requires Valid()
      ensures freq == Tuning(Center(), Offset()) == Center() + Offset() * 0x1_0000
    {
      hide Value;
      var center := GetCenter(top);
      var offset := regs.BulkRead(CenterAddr(address) + 7, 4, 0);
      var a := CenterAddr(address) + 7;
      assert regs.mem[..][a..a + 4] == regs.mem[a..a + 4];
      freq := Low64(center + offset * 0x1_0000);
    }

    /** ad9545_set_nco_freq_hz; on -EINVAL the center is overwritten all the same. */
    method SetHertz(hz: U32) returns (ok: bool)
      requires Valid()
      modifies regs.mem
      ensures ok <==> hz <= 65535 + 255
      ensures ok ==> Tuning(Center(), Offset())
                     == if hz <= 65535 then hz * 0x100_0000_0000 else 65535 + (hz - 65535) * 0x100_0000_0000
      ensures SameNco(regs.mem[..], old(regs.mem[..]), 1 - address)
      ensures Center() == StoredHz(hz).0
      ensures Offset() == if ok then StoredHz(hz).1 else old(Offset())
    {
      hide Field, Tuning, CenterAddr;
      if hz <= 65535 + 255 { StoredTuning(hz); }
      if hz <= 0xffff {
        ok := SetCenter(hz * HZ);
        SetOffset(0);
      } else {
        ok := SetCenter(0xffff);
        var rest := hz - 0xffff;
        if rest > 0xff { return false; }
        SetOffset(Low32(rest * 0x100_0000));
      }
    }
  }
}
