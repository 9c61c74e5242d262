/** AD9545 translation profiles: how a profile is laid out in the registers. */
module ProfileCodec {
  import opened Registers

  const PLLS: nat := 2
  const AD9545_MAX_DPLL_PROFILES: nat := 6
  const WINDOW: nat := 0x18   // the registers of one profile, AD9545_DPLLX_EN .. _FAST_L2

  type U1 = x: int | 0 <= x < 2
  type U3 = x: int | 0 <= x < 8
  type U4 = x: int | 0 <= x < 16
  type U5 = x: int | 0 <= x < 32

  datatype Profile = Profile(
    en: U1,
    priority: U5,
    source: U5,
    fbPath: U5,            // internal_zero_delay_fb_path
    hitless: U1,
    extZeroDelay: U1,
    tagMode: U3,
    loopFilterBase: U1,
    loopBw: U32,
    hitlessN: U32,
    nDiv: U32,             // buildout_n_div
    frac: U24,
    mod: U24,
    excessBw: U4,
    settle: U3,
    timeout: U3
  )

  /** AD9545_DPLLX_EN(i, j): the first register of profile j of PLL i. */
  function Base(i: nat, j: nat): nat { 0x1200 + i * 0x400 + j * 0x20 }

  function EnReg(p: Profile): Byte { p.en + 2 * p.priority }

  function ModeReg(p: Profile): Byte
  {
    p.hitless + 2 * p.extZeroDelay + 4 * p.tagMode + 128 * p.loopFilterBase
  }

  function Fast2Reg(p: Profile): Byte { p.settle + 16 * p.timeout }

  /** The registers that hold a profile. */
  function Encoded(p: Profile): (s: seq<Byte>)
    ensures |s| == WINDOW
  {
    [EnReg(p), p.source, p.fbPath, ModeReg(p)]
    + Bytes(p.loopBw, 4) + Bytes(p.hitlessN, 4) + Bytes(p.nDiv, 4)
    + Bytes(p.frac, 3) + Bytes(p.mod, 3)
    + [p.excessBw, Fast2Reg(p)]
  }

  /** What registers say, whatever they hold. */
  function Decoded(s: seq<Byte>): Profile
    requires |s| == WINDOW
  {
    Profile(
      s[0] % 2, s[0] / 2 % 32,
      s[1] % 32,
      s[2] % 32,
      s[3] % 2, s[3] / 2 % 2, s[3] / 4 % 8, s[3] / 128 % 2,
      Low32(Value(s[4..8])), Low32(Value(s[8..12])), Low32(Value(s[12..16])),
      Value(s[16..19]) % 0x100_0000, Value(s[19..22]) % 0x100_0000,
      s[22] % 16,
      s[23] % 8, s[23] / 16 % 8)
  }

  lemma FieldValue(v: nat, n: nat)
    requires v < Pow256(n)
    ensures Value(Bytes(v, n)) == v
  {
    hide Pow256, Value, Bytes;
    ValueOfBytes(v, n);
    DivModUnique(v, Pow256(n), 0, v);
  }

  lemma FieldBytes(p: Profile)
    ensures Value(Bytes(p.loopBw, 4)) == p.loopBw
    ensures Value(Bytes(p.hitlessN, 4)) == p.hitlessN
    ensures Value(Bytes(p.nDiv, 4)) == p.nDiv
    ensures Value(Bytes(p.frac, 3)) == p.frac
    ensures Value(Bytes(p.mod, 3)) == p.mod
  {
    hide Pow256, Value, Bytes;
    Widths();
    FieldValue(p.loopBw, 4);
    FieldValue(p.hitlessN, 4);
    FieldValue(p.nDiv, 4);
    FieldValue(p.frac, 3);
    FieldValue(p.mod, 3);
  }

  /** The fields tile the window: each can be cut out of it. */
  lemma Slices(p: Profile)
    ensures
      var s := Encoded(p);
      && s[4..8] == Bytes(p.loopBw, 4) && s[8..12] == Bytes(p.hitlessN, 4) && s[12..16] == Bytes(p.nDiv, 4)
      && s[16..19] == Bytes(p.frac, 3) && s[19..22] == Bytes(p.mod, 3)
      && s[0] == EnReg(p) && s[1] == p.source && s[2] == p.fbPath && s[3] == ModeReg(p)
      && s[22] == p.excessBw && s[23] == Fast2Reg(p)
  {
    hide Bytes, EnReg, ModeReg, Fast2Reg;
  }

  /** Where each field is: the offsets are those of the registers AD9545_DPLL0_EN,
      0x1200, to AD9545_DPLL0_FAST_L2, 0x1217. */
  lemma EncodedLayout(p: Profile)
    ensures
      var s := Encoded(p);
      && s[0] == p.en + 2 * p.priority && s[0x1] == p.source && s[0x2] == p.fbPath
      && s[0x3] == p.hitless + 2 * p.extZeroDelay + 4 * p.tagMode + 128 * p.loopFilterBase
      && Value(s[0x4..0x8]) == p.loopBw && Value(s[0x8..0xC]) == p.hitlessN && Value(s[0xC..0x10]) == p.nDiv
      && Value(s[0x10..0x13]) == p.frac && Value(s[0x13..0x16]) == p.mod
      && s[0x16] == p.excessBw && s[0x17] == p.settle + 16 * p.timeout
  {
    hide Encoded, Value, Bytes;
    FieldBytes(p);
    Slices(p);
  }

  /** Reading back a written profile returns every field. */
  lemma DecodeEncode(p: Profile)
    ensures Decoded(Encoded(p)) == p
  {
    hide Encoded, Value, Bytes, EnReg, ModeReg, Fast2Reg;
    FieldBytes(p);
    Slices(p);
    RegBits(p);
    Fits32(p.loopBw);
    Fits32(p.hitlessN);
    Fits32(p.nDiv);
  }

  /** Each part can be cut out of the register it shares with others. */
  lemma RegBits(p: Profile)
    ensures EnReg(p) % 2 == p.en && EnReg(p) / 2 % 32 == p.priority
    ensures ModeReg(p) % 2 == p.hitless && ModeReg(p) / 2 % 2 == p.extZeroDelay
    ensures ModeReg(p) / 4 % 8 == p.tagMode && ModeReg(p) / 128 % 2 == p.loopFilterBase
    ensures Fast2Reg(p) % 8 == p.settle && Fast2Reg(p) / 16 % 8 == p.timeout
  {
    hide ModeReg;
    ModeParts(p);
  }

  lemma ModeParts(p: Profile)
    ensures ModeReg(p) % 2 == p.hitless && ModeReg(p) / 2 % 2 == p.extZeroDelay
    ensures ModeReg(p) / 4 % 8 == p.tagMode && ModeReg(p) / 128 % 2 == p.loopFilterBase
  {
    var x := ModeReg(p);
    assert x / 4 == p.tagMode + 32 * p.loopFilterBase;
    assert x / 2 == p.extZeroDelay + 2 * (x / 4);
    assert x / 128 == p.loopFilterBase;
  }

  /** All bits outside the profile's fields are zero. */
  ghost predicate Known(s: seq<Byte>)
    requires |s| == WINDOW
  {
    s[0] < 64 && s[1] < 32 && s[2] < 32 && s[3] / 32 % 4 == 0 && s[22] < 16 && s[23] < 128 && s[23] / 8 % 2 == 0
  }

  /** Writing back what was read changes nothing but those bits. */
  lemma EncodeDecode(s: seq<Byte>)
    requires |s| == WINDOW
    ensures Encoded(Decoded(s)) == s <==> Known(s)
  {
    var p := Decoded(s);
    ReadFields(s, p);
    Slices(p);
    hide Bytes, Value, Decoded, Encoded;
    KnownRegs(s, p);
    var e := Encoded(p);
    if Known(s) {
      forall k | 0 <= k < WINDOW ensures e[k] == s[k] {
        if 4 <= k < 8 { assert e[4..8][k - 4] == s[4..8][k - 4]; }
        if 8 <= k < 12 { assert e[8..12][k - 8] == s[8..12][k - 8]; }
        if 12 <= k < 16 { assert e[12..16][k - 12] == s[12..16][k - 12]; }
        if 16 <= k < 19 { assert e[16..19][k - 16] == s[16..19][k - 16]; }
        if 19 <= k < 22 { assert e[19..22][k - 19] == s[19..22][k - 19]; }
      }
    }
  }

  lemma ReadFields(s: seq<Byte>, p: Profile)
    requires |s| == WINDOW && p == Decoded(s)
    ensures Bytes(p.loopBw, 4) == s[4..8] && Bytes(p.hitlessN, 4) == s[8..12] && Bytes(p.nDiv, 4) == s[12..16]
    ensures Bytes(p.frac, 3) == s[16..19] && Bytes(p.mod, 3) == s[19..22]
  {
    hide Bytes, Value, Pow256;
    Widths();
    forall t: seq<Byte> | t == s[4..8] || t == s[8..12] || t == s[12..16] || t == s[16..19] || t == s[19..22]
      ensures Value(t) < Pow256(|t|) && Bytes(Value(t), |t|) == t
    {
      ValueBound(t);
      BytesOfValue(t);
    }
  }

  lemma KnownRegs(s: seq<Byte>, p: Profile)
    requires |s| == WINDOW && p == Decoded(s)
    ensures (EnReg(p) == s[0] && p.source == s[1] && p.fbPath == s[2] && ModeReg(p) == s[3]
             && p.excessBw == s[22] && Fast2Reg(p) == s[23]) <==> Known(s)
  {
    EnBits(s[0]);
    ModeBits(s[3]);
    Fast2Bits(s[23]);
    hide Value;
  }

  lemma EnBits(x: Byte)
    ensures x % 2 + 2 * (x / 2 % 32) == x <==> x < 64
  {
  }

  lemma ModeBits(x: Byte)
    ensures x % 2 + 2 * (x / 2 % 2) + 4 * (x / 4 % 8) + 128 * (x / 128 % 2) == x <==> x / 32 % 4 == 0
  {
  }

  lemma Fast2Bits(x: Byte)
    ensures x % 8 + 16 * (x / 16 % 8) == x <==> x < 128 && x / 8 % 2 == 0
  {
  }

  /** Distinct profiles live in disjoint registers. */
  lemma WindowsApart(i: nat, j: nat, i': nat, j': nat)
    requires i < PLLS && i' < PLLS && j < AD9545_MAX_DPLL_PROFILES && j' < AD9545_MAX_DPLL_PROFILES
    requires (i, j) != (i', j')
    ensures Base(i, j) + WINDOW <= Base(i', j') || Base(i', j') + WINDOW <= Base(i, j)
  {
  }

  /** The window of profile j of PLL i. */
  function Window(mem: seq<Byte>, i: nat, j: nat): (s: seq<Byte>)
    requires |mem| == REGISTERS && i < PLLS && j < AD9545_MAX_DPLL_PROFILES
    ensures |s| == WINDOW
  {
    mem[Base(i, j)..Base(i, j) + WINDOW]
  }

  /** Writing one profile leaves every byte of every other one as it was, and reads back. */
  lemma WriteIsLocal(mem: seq<Byte>, i: nat, j: nat, p: Profile, i': nat, j': nat)
    requires |mem| == REGISTERS
    requires i < PLLS && i' < PLLS && j < AD9545_MAX_DPLL_PROFILES && j' < AD9545_MAX_DPLL_PROFILES
    ensures
      var after := Poke(mem, Base(i, j), Encoded(p));
      Window(after, i', j') == if (i', j') == (i, j) then Encoded(p) else Window(mem, i', j')
    ensures
      var after := Poke(mem, Base(i, j), Encoded(p));
      Decoded(Window(after, i', j')) == if (i', j') == (i, j) then p else Decoded(Window(mem, i', j'))
  {
    hide Encoded, Decoded;
    var after := Poke(mem, Base(i, j), Encoded(p));
    if (i', j') == (i, j) {
      DecodeEncode(p);
      assert Window(after, i, j) == Encoded(p);
    } else {
      WindowsApart(i, j, i', j');
      assert Window(after, i', j') == Window(mem, i', j');
    }
  }

  /** ad9545_pll_write_profile, register by register. */
  method WriteProfile(regs: RegisterMap, i: nat, j: nat, p: Profile)
    requires regs.Valid() && i < PLLS && j < AD9545_MAX_DPLL_PROFILES
    modifies regs.mem
    ensures regs.mem[..] == Poke(old(regs.mem[..]), Base(i, j), Encoded(p))
  {
    hide Poke, Bytes;
    ghost var mem, s := regs.mem[..], [];
    PokeNone(mem, Base(i, j));
    s := WriteField(regs, Base(i, j), p.en + 2 * p.priority, 1, mem, Base(i, j), s);
    s := WriteField(regs, Base(i, j) + 1, p.source, 1, mem, Base(i, j), s);
    s := WriteField(regs, Base(i, j) + 2, p.fbPath, 1, mem, Base(i, j), s);
    var reg := p.hitless + 2 * p.extZeroDelay + 4 * p.tagMode + 128 * p.loopFilterBase;
    s := WriteField(regs, Base(i, j) + 3, reg, 1, mem, Base(i, j), s);
    s := WriteField(regs, Base(i, j) + 4, p.loopBw, 4, mem, Base(i, j), s);
    s := WriteField(regs, Base(i, j) + 8, p.hitlessN, 4, mem, Base(i, j), s);
    s := WriteField(regs, Base(i, j) + 0xc, p.nDiv, 4, mem, Base(i, j), s);
    s := WriteField(regs, Base(i, j) + 0x10, p.frac, 3, mem, Base(i, j), s);
    s := WriteField(regs, Base(i, j) + 0x13, p.mod, 3, mem, Base(i, j), s);
    s := WriteField(regs, Base(i, j) + 0x16, p.excessBw, 1, mem, Base(i, j), s);
    s := WriteField(regs, Base(i, j) + 0x17, p.settle + 16 * p.timeout, 1, mem, Base(i, j), s);
    EncodedIs(p, s);
  }

  lemma PokeNone(mem: seq<Byte>, addr: nat)
    requires addr <= |mem|
    ensures Poke(mem, addr, []) == mem
  {
  }

  lemma EncodedIs(p: Profile, s: seq<Byte>)
    requires s == [] + Bytes(EnReg(p), 1) + Bytes(p.source, 1) + Bytes(p.fbPath, 1) + Bytes(ModeReg(p), 1)
                  + Bytes(p.loopBw, 4) + Bytes(p.hitlessN, 4) + Bytes(p.nDiv, 4)
                  + Bytes(p.frac, 3) + Bytes(p.mod, 3)
                  + Bytes(p.excessBw, 1) + Bytes(Fast2Reg(p), 1)
    ensures s == Encoded(p)
  {
    hide Bytes, EnReg, ModeReg, Fast2Reg;
    OneByte(EnReg(p));
    OneByte(p.source);
    OneByte(p.fbPath);
    OneByte(ModeReg(p));
    OneByte(p.excessBw);
    OneByte(Fast2Reg(p));
  }

  lemma OneByte(v: Byte)
    ensures Bytes(v, 1) == [v]
  {
    assert Bytes(v / 256, 0) == [];
  }

  /** The next field of a profile, of which `s` is written already. */
  method WriteField(regs: RegisterMap, addr: nat, v: nat, n: nat,
                    ghost mem: seq<Byte>, ghost base: nat, ghost s: seq<Byte>)
    returns (ghost t: seq<Byte>)
    requires regs.Valid() && |mem| == REGISTERS && addr == base + |s| && addr + n <= REGISTERS
    requires regs.mem[..] == Poke(mem, base, s)
    modifies regs.mem
    ensures t == s + Bytes(v, n) && regs.mem[..] == Poke(mem, base, t)
  {
    regs.BulkWrite(addr, v, n);
    t := s + Bytes(v, n);
    PokeNext(mem, base, s, Bytes(v, n));
  }

  /** ad9545_pll_read_profile.  The three-byte reads leave the last byte of the
      previous value in the top of the variable; the 24-bit fields drop it. */
  method ReadProfile(regs: RegisterMap, i: nat, j: nat) returns (p: Profile)
    requires regs.Valid() && i < PLLS && j < AD9545_MAX_DPLL_PROFILES
    ensures p == Decoded(Window(regs.mem[..], i, j))
  {
    hide Value, Pow256;
    Widths();
    var b := Base(i, j);
    var en, source := ReadByte(regs, b, 0), ReadByte(regs, b, 1);
    var fbPath, mode := ReadByte(regs, b, 2), ReadByte(regs, b, 3);
    var loopBw := ReadField(regs, b, 4, 4, 0);
    var hitlessN := ReadField(regs, b, 8, 4, 0);
    var nDiv := ReadField(regs, b, 0xc, 4, 0);
    var frac := ReadField(regs, b, 0x10, 3, nDiv / 0x100_0000);
    var mod := ReadField(regs, b, 0x13, 3, frac / 0x100_0000);
    var fast1, fast2 := ReadByte(regs, b, 0x16), ReadByte(regs, b, 0x17);
    ghost var s := Window(regs.mem[..], i, j);
    TopDropped(Value(s[16..19]), nDiv / 0x100_0000);
    TopDropped(Value(s[19..22]), frac / 0x100_0000);
    p := Profile(
      en % 2, en / 2 % 32, source % 32, fbPath % 32,
      mode % 2, mode / 2 % 2, mode / 4 % 8, mode / 128 % 2,
      Low32(loopBw), Low32(hitlessN), Low32(nDiv),
      frac % 0x100_0000, mod % 0x100_0000,
      fast1 % 16, fast2 % 8, fast2 / 16 % 8);
  }

  /** What a three-byte read leaves above the field. */
  lemma TopDropped(v: int, upper: int)
    ensures (v + 0x100_0000 * upper) % 0x100_0000 == v % 0x100_0000
  {
  }

  function ReadByte(regs: RegisterMap, base: nat, offset: nat): (v: Byte)
    requires regs.Valid() && base + WINDOW <= REGISTERS && offset < WINDOW
    reads regs.mem
    ensures v == regs.mem[..][base..base + WINDOW][offset]
  {
    regs.mem[base + offset]
  }

  method ReadField(regs: RegisterMap, base: nat, offset: nat, n: nat, upper: nat) returns (v: nat)
    requires regs.Valid() && base + WINDOW <= REGISTERS && offset + n <= WINDOW
    ensures v == Value(regs.mem[..][base..base + WINDOW][offset..offset + n]) + Pow256(n) * upper
  {
    hide Value, Pow256;
    v := regs.BulkRead(base + offset, n, upper);
    SliceOfSlice(regs.mem[..], base, base + WINDOW, offset, offset + n);
    assert regs.mem[..][base + offset..base + offset + n] == regs.mem[base + offset..base + offset + n];
  }

  lemma SliceOfSlice(s: seq<Byte>, lo: nat, hi: nat, a: nat, b: nat)
    requires lo <= hi <= |s| && a <= b <= hi - lo
    ensures s[lo..hi][a..b] == s[lo + a..lo + b]
  {
    var t := s[lo..hi][a..b];
    forall k | 0 <= k < |t| ensures t[k] == s[lo + a..lo + b][k] {
      assert t[k] == s[lo..hi][a + k] == s[lo + (a + k)];
    }
  }
}
