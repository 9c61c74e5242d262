/** A DMA descriptor ring shared by the CPU and an autonomous write engine.

    The Rx ring and the Tx status ring of the MSP driver follow the same
    protocol: the engine fills slots in order until it completes a descriptor
    whose flow field is STOP; the poll empties slots in order and moves the
    STOP marker behind itself.  A step below is one access to memory or to a
    register that the other side can also touch, so a run of steps is an
    interleaving of the engine, the interrupt and the poll at that grain.

    Positions are absolute (they never wrap); `Slot` maps them to descriptors. */
module Ring {
  const N: nat := 128   // ADI_MSP_NUM_RDS == ADI_MSP_NUM_SDS == ADI_MSP_NUM_TDS

  datatype Option<+T> = None | Some(value: T)

  datatype Flow = Stop | Dscl

  /** What a buffer holds.  The driver only sees whether the first byte is zero. */
  datatype Cell<+T> = Empty | Partial | Full(unit: T)

  datatype Engine =
    | Halted
    | Fetching                          // about to fetch descriptor `cur`
    | Loaded(flow: Flow, buf: nat)      // descriptor fetched, nothing written yet
    | Writing(flow: Flow, buf: nat)     // first byte written

  /** Where the poll is.  `count` is the work done so far in this poll. */
  datatype Pc =
    | Idle
    | Scheduled
    | Loop(count: int)
    | Started(count: int)
    | Addressed(count: int, inside: bool)
    | Ready(count: int)
    | Swapped(count: int)
    | Pointed(count: int)
    | StopSet(count: int)
    | Linked(count: int)
    | Check(count: int)
    | HaltSeen(count: int)
    | Clear(count: int)
    | Restart(count: int)
    | Return(count: int)
    | Complete

  datatype State<T> = State(
    flow: seq<Flow>,          // flow field of each descriptor
    descBuf: seq<nat>,        // addrstart of each descriptor
    drvBuf: seq<nat>,         // the driver's own table of buffers
    mem: map<nat, Cell<T>>,   // every buffer allocated so far
    eng: Engine,
    cur: nat,                 // descriptor the engine is at
    prv: Option<nat>,         // dscptr_prv: last descriptor completed
    addr: Option<nat>,        // addr_cur: the buffer it points into, if any
    irq: bool,                // IRQDONE latch
    enabled: bool,            // DMADONE interrupt enable
    nextDone: nat,            // rx_next_done / tx_next_done
    budget: nat,
    pc: Pc,
    starved: bool,            // the last pass of the loop ended on a failed allocation
    done: nat,                // history: units retired
    written: seq<T>           // history: units completed by the engine, in order
  )

  datatype Step<T> =
    // the engine
    | HwFetch
    | HwBegin
    | HwComplete(unit: T, stays: bool)
    // the interrupt handler and the poll
    | Interrupt
    | PollStart(budget: nat)
    | ReadFirst
    | ReadAddr
    | ReadPrv
    | AllocFail(spare: Option<nat>)
    | Take(newBuf: nat, counts: bool)
    | WriteAddr
    | WriteStop
    | LinkPrev
    | Advance
    | ReadStat
    | Recheck
    | ClearIrq
    | RestartDma
    | Leave
    | EnableIrq

  /** The descriptor at absolute position `k`, that is k modulo N. */
  function Slot(k: nat): (i: nat)
    ensures i < N
  {
    if k < N then k else Slot(k - N)
  }

  lemma {:induction false} SlotIsModulo(k: nat)
    ensures Slot(k) == k % 128
  {
    if k >= N { SlotIsModulo(k - N); }
  }

  /** (idx + 1) & MASK for a ring of a power of two. */
  function After(i: nat): (j: nat)
    requires i < N
    ensures j < N
  {
    if i == N - 1 then 0 else i + 1
  }

  /** (idx - 1) & MASK for a ring of a power of two. */
  function Before(i: nat): (j: nat)
    requires i < N
    ensures j < N
  {
    if i == 0 then N - 1 else i - 1
  }

  ghost predicate Shape<T>(s: State<T>)
  {
    && |s.flow| == |s.descBuf| == |s.drvBuf| == N
    && s.nextDone < N
    && s.cur < N
    && (forall i :: 0 <= i < N ==> s.drvBuf[i] in s.mem && s.descBuf[i] in s.mem)
    && ((s.eng.Loaded? || s.eng.Writing?) ==> s.eng.buf in s.mem)
  }

  /** The first byte of the slot the driver will look at next is not zero. */
  ghost predicate FirstByte<T>(s: State<T>)
    requires Shape(s)
  {
    s.mem[s.drvBuf[s.nextDone]] != Empty
  }

  ghost predicate Fresh<T>(s: State<T>, b: nat)
    requires Shape(s)
  {
    b !in s.mem || b == s.drvBuf[s.nextDone]
  }

  ghost predicate Enabled<T>(s: State<T>, step: Step<T>)
  {
    && Shape(s)
    && match step
       case HwFetch => s.eng.Fetching?
       case HwBegin => s.eng.Loaded?
       case HwComplete(_, _) => s.eng.Writing?
       case Interrupt => s.irq && s.enabled && s.pc.Idle?
       case PollStart(_) => s.pc.Scheduled?
       case ReadFirst => s.pc.Loop?
       case ReadAddr => s.pc.Started?
       case ReadPrv => s.pc.Addressed?
       case AllocFail(spare) => s.pc.Ready? && (spare.Some? ==> spare.value !in s.mem)
       case Take(newBuf, _) => s.pc.Ready? && Fresh(s, newBuf)
       case WriteAddr => s.pc.Swapped?
       case WriteStop => s.pc.Pointed?
       case LinkPrev => s.pc.StopSet?
       case Advance => s.pc.Linked?
       case ReadStat => s.pc.Check?
       case Recheck => s.pc.HaltSeen?
       case ClearIrq => s.pc.Clear?
       case RestartDma => s.pc.Restart?
       case Leave => s.pc.Return?
       case EnableIrq => s.pc.Complete?
  }

  function Min(a: int, b: int): int { if a < b then a else b }

  ghost function Do<T>(s: State<T>, step: Step<T>): State<T>
    requires Enabled(s, step)
  {
    var idx := s.nextDone;
    match step
    case HwFetch =>
      s.(eng := Loaded(s.flow[s.cur], s.descBuf[s.cur]), addr := Some(s.descBuf[s.cur]))
    case HwBegin =>
      s.(eng := Writing(s.eng.flow, s.eng.buf), mem := s.mem[s.eng.buf := Partial])
    case HwComplete(unit, stays) =>
      // writing the unit, latching IRQDONE and halting at STOP are one step
      s.(eng := if s.eng.flow.Stop? then Halted else Fetching,
         mem := s.mem[s.eng.buf := Full(unit)],
         prv := Some(s.cur),
         addr := if stays then s.addr else None,
         cur := After(s.cur),
         irq := true,
         written := s.written + [unit])
    case Interrupt =>
      s.(pc := Scheduled, enabled := false)
    case PollStart(budget) =>
      s.(pc := Loop(0), budget := budget, starved := false)
    case ReadFirst =>
      s.(pc := if s.pc.count >= s.budget || !FirstByte(s) then Check(s.pc.count) else Started(s.pc.count))
    case ReadAddr =>
      s.(pc := Addressed(s.pc.count, s.addr == Some(s.descBuf[idx])))
    case ReadPrv =>
      s.(pc := if s.pc.inside && s.prv != Some(idx) then Check(s.pc.count) else Ready(s.pc.count))
    case AllocFail(spare) =>
      s.(pc := Check(s.pc.count), starved := true,
         mem := if spare.Some? then s.mem[spare.value := Empty] else s.mem)
    case Take(newBuf, counts) =>
      s.(pc := Swapped(if counts then s.pc.count + 1 else s.pc.count),
         drvBuf := s.drvBuf[idx := newBuf], mem := s.mem[newBuf := Empty])
    case WriteAddr =>
      s.(pc := Pointed(s.pc.count), descBuf := s.descBuf[idx := s.drvBuf[idx]])
    case WriteStop =>
      s.(pc := StopSet(s.pc.count), flow := s.flow[idx := Stop])
    case LinkPrev =>
      s.(pc := Linked(s.pc.count), flow := s.flow[Before(idx) := Dscl])
    case Advance =>
      s.(pc := Loop(s.pc.count), nextDone := After(idx), irq := false, done := s.done + 1)
    case ReadStat =>
      s.(pc := if s.eng.Halted? then HaltSeen(s.pc.count) else Return(s.pc.count))
    case Recheck =>
      if !FirstByte(s) then s.(pc := Clear(s.pc.count))
      else if s.pc.count < s.budget then s.(pc := Loop(s.pc.count), starved := false)
      else s.(pc := Return(s.pc.count))
    case ClearIrq =>
      s.(pc := Restart(s.pc.count), irq := false)
    case RestartDma =>
      s.(pc := Return(Min(s.pc.count, s.budget - 1)), eng := Fetching, cur := idx)
    case Leave =>
      s.(pc := if s.pc.count < s.budget then Complete else Scheduled)
    case EnableIrq =>
      s.(pc := Idle, enabled := true)
  }

  /** The ring as adi_msp_alloc_ring and adi_msp_open leave it: N empty buffers,
      STOP on the last descriptor only, the engine started at descriptor 0.
      The DMADONE interrupt is taken to be enabled at that point. */
  ghost predicate Init<T>(s: State<T>)
  {
    && Shape(s)
    && s.flow == seq(N, i => if i == N - 1 then Stop else Dscl)
    && s.descBuf == s.drvBuf
    && (forall i, j :: 0 <= i < j < N ==> s.drvBuf[i] != s.drvBuf[j])
    && (forall b :: b in s.mem ==> s.mem[b] == Empty)
    && s.eng == Fetching && s.cur == 0 && s.prv == None && s.addr == None
    && !s.irq && s.enabled && s.pc == Idle && !s.starved
    && s.nextDone == 0 && s.done == 0 && s.written == []
  }
}
