/** Where the AD9545 driver's tables of registers lie: translation profiles, outputs
    and auxiliary NCOs, none of which overlaps another. */
module RegisterLayout {
  import opened Registers
  import opened ProfileCodec
  import opened OutDivider
  import opened AuxNco

  datatype Table =
    | ProfileTable(pll: nat, profile: nat)
    | OutputTable(output: nat)
    | NcoTable(address: nat)

  predicate Exists(t: Table)
  {
    match t
    case ProfileTable(pll, profile) => pll < PLLS && profile < AD9545_MAX_DPLL_PROFILES
    case OutputTable(output) => output < OUTPUTS
    case NcoTable(address) => address < NCOS
  }

  function Start(t: Table): nat
    requires Exists(t)
  {
    match t
    case ProfileTable(pll, profile) => Base(pll, profile)
    case OutputTable(output) => QDiv(output)
    case NcoTable(address) => CenterAddr(address)
  }

  function Length(t: Table): nat
  {
    match t
    case ProfileTable(_, _) => WINDOW
    case OutputTable(_) => OUTPUT_WINDOW
    case NcoTable(_) => NCO_WINDOW
  }

  /** The addresses a table's registers are in: those of a PLL's outputs and profiles
      are 0x400 on from those of the other PLL's. */
  lemma TableRange(t: Table)
    requires Exists(t)
    ensures t.OutputTable? ==>
              var first := 0x1100 + t.output / 6 * 0x400;
              first <= Start(t) < Start(t) + Length(t) <= first + 6 * 9
    ensures t.ProfileTable? ==>
              var first := 0x1200 + t.pll * 0x400;
              first <= Start(t) < Start(t) + Length(t) <= first + 6 * 0x20
    ensures t.NcoTable? ==> 0x2800 + t.address * 0x40 == Start(t) && Start(t) + Length(t) <= REGISTERS
  {
  }

  /** No two tables overlap. */
  lemma TablesApart(t: Table, t': Table)
    requires Exists(t) && Exists(t') && t != t'
    ensures Start(t) + Length(t) <= Start(t') || Start(t') + Length(t') <= Start(t)
    ensures Start(t) + Length(t) <= REGISTERS
  {
    match (t, t') {
      case (ProfileTable(i, j), ProfileTable(i', j')) => WindowsApart(i, j, i', j');
      case (OutputTable(a), OutputTable(b)) => if a < b { OutputsApart(a, b); } else { OutputsApart(b, a); }
      case _ =>
    }
  }

  ghost predicate SameTable(mem: seq<Byte>, was: seq<Byte>, t: Table)
    requires |mem| == |was| && Exists(t)
  {
    && Start(t) + Length(t) <= |mem|
    && mem[Start(t)..Start(t) + Length(t)] == was[Start(t)..Start(t) + Length(t)]
  }

  /** What changes one table leaves every other as it was. */
  lemma OtherTablesKept(mem: seq<Byte>, was: seq<Byte>, t: Table)
    requires |mem| == |was| == REGISTERS && Exists(t)
    requires SameOutside(mem, was, Start(t), Start(t) + Length(t))
    ensures forall t' :: Exists(t') && t' != t ==> SameTable(mem, was, t')
  {
    forall t' | Exists(t') && t' != t
      ensures SameTable(mem, was, t')
    {
      hide Start, Length, SameOutside;
      TablesApart(t', t);
      SliceKept(mem, was, Start(t), Start(t) + Length(t), Start(t'), Length(t'));
    }
  }
}
