/** A register file of bytes behind a regmap: little-endian fields of any width. */
module Registers {
  type Byte = x: int | 0 <= x < 0x100
  type U16 = x: int | 0 <= x < 0x1_0000
  type U24 = x: int | 0 <= x < 0x100_0000
  type U32 = x: int | 0 <= x < 0x1_0000_0000
  type U64 = x: int | 0 <= x < 0x1_0000_0000_0000_0000
  type S64 = x: int | -0x8000_0000_0000_0000 <= x < 0x8000_0000_0000_0000

  /** Conversion to a narrower or unsigned type keeps the low bits. */
  function Low32(x: int): U32 { x % 0x1_0000_0000 }

  function Low64(x: int): U64 { x % 0x1_0000_0000_0000_0000 }

  lemma Fits64(x: int)
    requires 0 <= x < 0x1_0000_0000_0000_0000
    ensures Low64(x) == x
  {
  }

  lemma Fits32(x: int)
    requires 0 <= x < 0x1_0000_0000
    ensures Low32(x) == x
  {
  }

  const REGISTERS: nat := 0x4000

  function Pow256(n: nat): (p: nat)
    ensures p > 0
  {
    if n == 0 then 1 else 256 * Pow256(n - 1)
  }

  /** The low `n` bytes of `v`, least significant first. */
  function Bytes(v: nat, n: nat): (s: seq<Byte>)
    ensures |s| == n
  {
    if n == 0 then [] else [v % 256] + Bytes(v / 256, n - 1)
  }

  function Value(s: seq<Byte>): nat
  {
    if s == [] then 0 else s[0] + 256 * Value(s[1..])
  }

  lemma ModSplit(v: nat, p: nat)
    requires p > 0
    ensures v % (256 * p) == v % 256 + 256 * ((v / 256) % p)
  {
    var q := v / 256;
    var r := v % 256 + 256 * (q % p);
    assert v == 256 * q + v % 256 && q == p * (q / p) + q % p;
    assert v == (256 * p) * (q / p) + r by {
      assert 256 * (p * (q / p)) == (256 * p) * (q / p);
    }
    assert q % p <= p - 1;
    DivModUnique(v, 256 * p, q / p, r);
  }

  lemma DivModUnique(v: int, d: int, q: int, r: int)
    requires d > 0 && v == d * q + r && 0 <= r < d
    ensures v / d == q && v % d == r
  {
    var k := v / d - q;
    assert d * k == r - v % d by {
      assert v == d * (v / d) + v % d;
      assert d * k == d * (v / d) - d * q;
    }
    if k != 0 { MultipleFar(d, k); }
  }

  lemma MultipleFar(d: int, k: int)
    requires d > 0 && k != 0
    ensures d * k >= d || d * k <= -d
  {
    if k >= 1 { assert d * k >= d * 1; } else { assert d * k <= d * (-1); }
  }

  /** Reading back `n` bytes gives the value written, truncated to `n` bytes. */
  lemma {:induction false} ValueOfBytes(v: nat, n: nat)
    ensures Value(Bytes(v, n)) == v % Pow256(n)
  {
    if n > 0 {
      ValueOfBytes(v / 256, n - 1);
      ModSplit(v, Pow256(n - 1));
      assert Bytes(v, n)[1..] == Bytes(v / 256, n - 1);
    }
  }

  lemma {:induction false} ValueBound(s: seq<Byte>)
    ensures Value(s) < Pow256(|s|)
  {
    if s != [] { ValueBound(s[1..]); }
  }

  /** The bytes of a value read from registers are those registers. */
  lemma {:induction false} BytesOfValue(s: seq<Byte>)
    ensures Bytes(Value(s), |s|) == s
  {
    if s != [] {
      BytesOfValue(s[1..]);
      DivModUnique(Value(s), 256, Value(s[1..]), s[0]);
    }
  }

  /** Byte k of a value, or of the registers it is read from, is its k-th digit in base 256. */
  lemma {:induction false} ByteOrder(v: nat, n: nat, k: nat)
    requires k < n
    ensures Bytes(v, n)[k] == v / Pow256(k) % 256
  {
    if k > 0 {
      ByteOrder(v / 256, n - 1, k - 1);
      assert Bytes(v, n)[k] == Bytes(v / 256, n - 1)[k - 1];
      DivTwice(v, Pow256(k - 1));
    }
  }

  lemma DivTwice(v: nat, p: nat)
    requires p > 0
    ensures v / 256 / p == v / (256 * p)
  {
    var q, r := v / 256 / p, v / 256 % p;
    assert v / 256 == p * q + r;
    assert 256 * (p * q) == (256 * p) * q;
    DivModUnique(v, 256 * p, q, 256 * r + v % 256);
  }

  lemma DigitOfValue(s: seq<Byte>, k: nat)
    requires k < |s|
    ensures Value(s) / Pow256(k) % 256 == s[k]
  {
    hide Value, Bytes, Pow256;
    BytesOfValue(s);
    ByteOrder(Value(s), |s|, k);
  }

  lemma Widths()
    ensures Pow256(1) == 0x100
    ensures Pow256(3) == 0x100_0000
    ensures Pow256(4) == 0x1_0000_0000
    ensures Pow256(7) == 0x100_0000_0000_0000
  {
    assert Pow256(2) == 0x1_0000;
    assert Pow256(3) == 0x100_0000;
    assert Pow256(4) == 0x1_0000_0000;
    assert Pow256(5) == 0x100_0000_0000;
    assert Pow256(6) == 0x1_0000_0000_0000;
  }

  /** The registers after writing `b` at `addr`. */
  function Poke(mem: seq<Byte>, addr: nat, b: seq<Byte>): (r: seq<Byte>)
    requires addr + |b| <= |mem|
    ensures |r| == |mem|
  {
    mem[..addr] + b + mem[addr + |b|..]
  }

  lemma PokeNext(mem: seq<Byte>, addr: nat, b: seq<Byte>, c: seq<Byte>)
    requires addr + |b| + |c| <= |mem|
    ensures Poke(Poke(mem, addr, b), addr + |b|, c) == Poke(mem, addr, b + c)
  {
  }

  /** The two differ at most in the registers `lo` up to `hi`. */
  ghost predicate SameOutside(mem: seq<Byte>, was: seq<Byte>, lo: nat, hi: nat)
  {
    |mem| == |was| && forall k :: 0 <= k < |mem| && !(lo <= k < hi) ==> mem[k] == was[k]
  }

  lemma SliceKept(mem: seq<Byte>, was: seq<Byte>, lo: nat, hi: nat, a: nat, n: nat)
    requires SameOutside(mem, was, lo, hi) && a + n <= |mem| && (a + n <= lo || hi <= a)
    ensures mem[a..a + n] == was[a..a + n]
  {
    var s, t := mem[a..a + n], was[a..a + n];
    forall k | 0 <= k < n ensures s[k] == t[k] {
      assert mem[a + k] == was[a + k];
    }
  }

  class RegisterMap {
    const mem: array<Byte>

    ghost predicate Valid() { mem.Length == REGISTERS }

    constructor (initial: Byte)
      ensures Valid() && fresh(mem)
    {
      mem := new Byte[REGISTERS](_ => initial);
    }

    /** regmap_bulk_write of the low `n` bytes of a little-endian value. */
    method BulkWrite(addr: nat, v: nat, n: nat)
      requires Valid() && addr + n <= REGISTERS
      modifies mem
      ensures mem[..] == Poke(old(mem[..]), addr, Bytes(v, n))
    {
      var rest := v;
      ghost var b := Bytes(v, n);
      for k := 0 to n
        invariant b[k..] == Bytes(rest, n - k)
        invariant mem[..] == Poke(old(mem[..]), addr, b[..k])
      {
        ghost var was := mem[..];
        mem[addr + k] := rest % 256;
        assert b[k] == b[k..][0] == rest % 256;
        assert b[k + 1..] == b[k..][1..];
        assert b[..k + 1] == b[..k] + [rest % 256];
        assert mem[..] == Poke(was, addr + k, [rest % 256]);
        PokeNext(old(mem[..]), addr, b[..k], [rest % 256]);
        rest := rest / 256;
      }
      assert b[..n] == b;
    }

    /** regmap_bulk_read of `n` bytes into a little-endian variable: its other
        bytes, `upper`, keep what they held. */
    method BulkRead(addr: nat, n: nat, upper: nat) returns (v: nat)
      requires Valid() && addr + n <= REGISTERS
      ensures v == Value(mem[addr..addr + n]) + Pow256(n) * upper
    {
      v := upper;
      for k := n downto 0
        invariant v == Value(mem[addr + k..addr + n]) + Pow256(n - k) * upper
      {
        assert mem[addr + k..addr + n][1..] == mem[addr + k + 1..addr + n];
        v := mem[addr + k] + 256 * v;
        assert 256 * (Pow256(n - k - 1) * upper) == Pow256(n - k) * upper;
      }
    }
  }
}
