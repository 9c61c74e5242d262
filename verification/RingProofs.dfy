/** What every step of the ring protocol keeps, and what follows from it. */
module RingProofs {
  import opened Ring

  /** Two positions less than N apart use different descriptors. */
  lemma {:induction false} SlotApart(j: nat, k: nat)
    requires j < k < j + N
    ensures Slot(j) != Slot(k)
  {
    if j >= N { SlotApart(j - N, k - N); }
  }

  /** The positions of a window of N map to pairwise different slots. */
  lemma SlotOthers(lo: nat, a: nat)
    requires lo <= a < lo + N
    ensures forall k :: lo <= k < lo + N && k != a ==> Slot(k) != Slot(a)
  {
    forall k | lo <= k < lo + N && k != a
      ensures Slot(k) != Slot(a)
    {
      if k < a { SlotApart(k, a); } else { SlotApart(a, k); }
    }
  }

  lemma {:induction false} SlotStep(k: nat)
    ensures Slot(k + N) == Slot(k)
    ensures After(Slot(k)) == Slot(k + 1)
    ensures Before(Slot(k)) == Slot(k + N - 1)
    ensures k > 0 ==> Before(Slot(k)) == Slot(k - 1)
  {
    if k >= N { SlotStep(k - N); }
  }

  lemma {:induction false} SlotAdd(k: nat, d: nat)
    requires d < N
    ensures Slot(k + d) == if Slot(k) + d < N then Slot(k) + d else Slot(k) + d - N
  {
    if k >= N { SlotAdd(k - N, d); }
  }

  /** Slot `done` already holds an empty buffer again. */
  ghost predicate Emptied(pc: Pc)
  {
    pc.Swapped? || pc.Pointed? || pc.StopSet? || pc.Linked?
  }

  ghost function Completed<T>(s: State<T>): nat { |s.written| }

  /** First position whose unit the driver has not taken yet. */
  ghost function Low<T>(s: State<T>): nat { if Emptied(s.pc) then s.done + 1 else s.done }

  /** The engine may not complete position `Limit` yet. */
  ghost function Limit<T>(s: State<T>): nat { if s.pc.Linked? then s.done + N + 1 else s.done + N }

  ghost predicate Buffers<T>(s: State<T>)
    requires Shape(s)
  {
    && (forall i, j :: 0 <= i < j < N ==> s.drvBuf[i] != s.drvBuf[j])
    && (forall i :: 0 <= i < N ==> s.descBuf[i] == s.drvBuf[i] || (s.pc.Swapped? && i == Slot(s.done)))
  }

  /** Units not yet taken are intact, the slot being written is partial and all others are empty. */
  ghost predicate Contents<T>(s: State<T>)
    requires Shape(s)
  {
    && (forall k :: Low(s) <= k < Completed(s) ==> s.mem[s.drvBuf[Slot(k)]] == Full(s.written[k]))
    && (forall k :: Completed(s) <= k < Low(s) + N ==>
          s.mem[s.drvBuf[Slot(k)]] == if k == Completed(s) && s.eng.Writing? then Partial else Empty)
  }

  ghost function Marker<T>(s: State<T>, k: nat): Flow
  {
    if (k == s.done + N - 1 && !s.pc.Linked?) || (k == s.done && (s.pc.StopSet? || s.pc.Linked?))
    then Stop else Dscl
  }

  ghost predicate Markers<T>(s: State<T>)
    requires Shape(s)
  {
    forall k :: s.done <= k < s.done + N ==> s.flow[Slot(k)] == Marker(s, k)
  }

  ghost predicate EngineOk<T>(s: State<T>)
    requires Shape(s)
  {
    && s.cur == Slot(Completed(s))
    && s.prv == (if Completed(s) == 0 then None else Some(Slot(Completed(s) - 1)))
    && (!s.eng.Halted? ==> Completed(s) < Limit(s))
    && ((s.eng.Loaded? || s.eng.Writing?) ==>
          && s.eng.buf == s.drvBuf[s.cur]
          && s.addr == Some(s.eng.buf)
          && (s.eng.flow.Dscl? ==> Completed(s) + 1 < Limit(s)))
    && ((s.eng.Halted? || s.eng.Fetching?) && s.addr.Some? ==>
          && s.addr.value in s.mem
          && forall i :: 0 <= i < N && s.drvBuf[i] == s.addr.value ==>
               Completed(s) > 0 && i == Slot(Completed(s) - 1))
  }

  /** A completed unit waits only with IRQDONE latched (or after a failed allocation). */
  ghost predicate Quiet<T>(s: State<T>)
  {
    Completed(s) > s.done ==> s.irq || s.starved
  }

  /** What the poll knows at each program point. */
  ghost predicate Knows<T>(s: State<T>)
  {
    match s.pc
    case Idle => Quiet(s) && (s.eng.Halted? ==> s.irq)
    case Complete => Quiet(s) && (s.eng.Halted? ==> s.irq)
    case Scheduled => true
    case Loop(c) => 0 <= c <= s.budget
    case Started(c) =>
      0 <= c < s.budget && (Completed(s) > s.done || s.eng.Writing?)
    case Addressed(c, inside) =>
      && 0 <= c < s.budget
      && (if inside then Completed(s) <= s.done + 1 || s.irq else Completed(s) > s.done)
    case Ready(c) => 0 <= c < s.budget && Completed(s) > s.done
    case Swapped(c) => 0 <= c <= s.budget
    case Pointed(c) => 0 <= c <= s.budget
    case StopSet(c) => 0 <= c <= s.budget
    case Linked(c) => 0 <= c <= s.budget
    case Check(c) => 0 <= c <= s.budget && (c < s.budget ==> Quiet(s))
    case HaltSeen(c) => 0 <= c <= s.budget && (c < s.budget ==> Quiet(s)) && s.eng.Halted?
    case Clear(c) => 0 <= c <= s.budget && s.eng.Halted? && Completed(s) == s.done
    case Restart(c) => 0 <= c <= s.budget && s.eng.Halted? && Completed(s) == s.done
    case Return(c) => c <= s.budget && (c < s.budget ==> Quiet(s) && (s.eng.Halted? ==> s.irq))
  }

  /** The part of the invariant about the rings, the buffers and the engine. */
  ghost predicate Core<T>(s: State<T>)
  {
    && Shape(s)
    && s.nextDone == Slot(s.done)
    && Low(s) <= Completed(s) <= Limit(s)
    && Buffers(s)
    && Contents(s)
    && Markers(s)
    && EngineOk(s)
  }

  ghost predicate Inv<T>(s: State<T>)
  {
    && Core(s)
    && Knows(s)
    && (s.enabled <==> s.pc.Idle?)
  }

  /** Core does not depend on where in the loop head or tail the poll is. */
  lemma CoreFrame<T>(s: State<T>, t: State<T>)
    requires Core(s) && !Emptied(s.pc) && !Emptied(t.pc)
    requires t == s.(pc := t.pc, irq := t.irq, enabled := t.enabled, budget := t.budget, starved := t.starved)
    ensures Core(t)
  {
    hide Slot;
  }

  // The parts of Core that a step does not touch

  lemma BuffersFrame<T>(s: State<T>, t: State<T>)
    requires Shape(s) && Shape(t) && Buffers(s)
    requires t.drvBuf == s.drvBuf && t.descBuf == s.descBuf && t.done == s.done
    requires s.pc.Swapped? ==> t.pc.Swapped?
    ensures Buffers(t)
  {
    hide Slot;
  }

  lemma ContentsFrame<T>(s: State<T>, t: State<T>)
    requires Shape(s) && Shape(t) && Contents(s)
    requires t.mem == s.mem && t.drvBuf == s.drvBuf && t.written == s.written && t.eng == s.eng && Low(t) == Low(s)
    ensures Contents(t)
  {
    hide Slot;
  }

  lemma MarkersFrame<T>(s: State<T>, t: State<T>)
    requires Shape(s) && Shape(t) && Markers(s)
    requires t.flow == s.flow && t.done == s.done
    requires t.pc.Linked? == s.pc.Linked? && t.pc.StopSet? == s.pc.StopSet?
    ensures Markers(t)
  {
    hide Slot;
  }

  lemma EngineFrame<T>(s: State<T>, t: State<T>)
    requires Shape(s) && Shape(t) && EngineOk(s)
    requires t.cur == s.cur && t.prv == s.prv && t.eng == s.eng && t.addr == s.addr
    requires t.drvBuf == s.drvBuf && t.mem == s.mem && t.written == s.written && Limit(s) <= Limit(t)
    ensures EngineOk(t)
  {
    hide Slot;
  }

  lemma InitInv<T>(s: State<T>)
    requires Init(s)
    ensures Inv(s)
  {
  }

  lemma EngineRoom<T>(s: State<T>)
    requires Core(s)
    ensures !s.eng.Halted? ==> Completed(s) < Limit(s)
  {
  }

  /** What the loop head and tail can see of the next slot. */
  lemma HeadFacts<T>(s: State<T>)
    requires Core(s) && !Emptied(s.pc)
    ensures Shape(s) && s.nextDone == Slot(s.done) && s.done <= Completed(s)
    ensures s.prv == if Completed(s) == 0 then None else Some(Slot(Completed(s) - 1))
    ensures FirstByte(s) <==> s.done < Completed(s) || s.eng.Writing?
  {
    assert s.mem[s.drvBuf[Slot(s.done)]] ==
      if s.done < Completed(s) then Full(s.written[s.done]) else if s.eng.Writing? then Partial else Empty;
  }

  lemma StepInv<T>(s: State<T>, step: Step<T>)
    requires Inv(s) && Enabled(s, step)
    ensures Inv(Do(s, step))
  {
    match step
    case HwFetch => FetchInv(s);
    case HwBegin => BeginInv(s);
    case HwComplete(unit, stays) => CompleteInv(s, unit, stays);
    case Interrupt => InterruptInv(s);
    case PollStart(budget) => PollStartInv(s, budget);
    case ReadFirst => ReadFirstInv(s);
    case ReadAddr => ReadAddrInv(s);
    case ReadPrv => ReadPrvInv(s);
    case AllocFail(spare) => AllocFailInv(s, spare);
    case Take(newBuf, counts) => TakeInv(s, newBuf, counts);
    case WriteAddr => WriteAddrInv(s);
    case WriteStop => WriteStopInv(s);
    case LinkPrev => LinkPrevInv(s);
    case Advance => AdvanceInv(s);
    case ReadStat => ReadStatInv(s);
    case Recheck => RecheckInv(s);
    case ClearIrq => ClearIrqInv(s);
    case RestartDma => RestartInv(s);
    case Leave => LeaveInv(s);
    case EnableIrq => EnableIrqInv(s);
  }

  lemma FetchInv<T>(s: State<T>)
    requires Inv(s) && Enabled(s, HwFetch)
    ensures Inv(Do(s, HwFetch))
  {
    FetchEngine(s);
  }

  lemma FetchEngine<T>(s: State<T>)
    requires Inv(s) && Enabled(s, HwFetch)
    ensures EngineOk(Do(s, HwFetch))
  {
    hide Contents, Knows;
    var c := Completed(s);
    SlotStep(s.done);
    if s.done < c < s.done + N { SlotApart(s.done, c); }
    assert s.flow[s.cur] == if c < s.done + N then Marker(s, c) else Marker(s, s.done);
  }

  lemma BeginInv<T>(s: State<T>)
    requires Inv(s) && Enabled(s, HwBegin)
    ensures Inv(Do(s, HwBegin))
  {
    hide Contents;
    BeginContents(s);
  }

  lemma BeginContents<T>(s: State<T>)
    requires Inv(s) && Enabled(s, HwBegin)
    ensures Contents(Do(s, HwBegin))
  {
    hide Markers, Knows;
    SlotOthers(Low(s), Completed(s));
  }

  lemma CompleteInv<T>(s: State<T>, unit: T, stays: bool)
    requires Inv(s) && Enabled(s, HwComplete(unit, stays))
    ensures Inv(Do(s, HwComplete(unit, stays)))
  {
    hide Buffers, Contents, Markers, EngineOk;
    var t := Do(s, HwComplete(unit, stays));
    SlotStep(Completed(s));
    EngineRoom(s);
    BuffersFrame(s, t);
    CompleteContents(s, unit, stays);
    MarkersFrame(s, t);
    CompleteEngine(s, unit, stays);
  }

  lemma CompleteContents<T>(s: State<T>, unit: T, stays: bool)
    requires Inv(s) && Enabled(s, HwComplete(unit, stays))
    ensures Contents(Do(s, HwComplete(unit, stays)))
  {
    hide Markers;
    SlotOthers(Low(s), Completed(s));
  }

  lemma CompleteEngine<T>(s: State<T>, unit: T, stays: bool)
    requires Inv(s) && Enabled(s, HwComplete(unit, stays))
    ensures EngineOk(Do(s, HwComplete(unit, stays)))
  {
    hide Contents, Markers;
    SlotStep(Completed(s));
  }

  lemma InterruptInv<T>(s: State<T>)
    requires Inv(s) && Enabled(s, Interrupt)
    ensures Inv(Do(s, Interrupt))
  {
    CoreFrame(s, Do(s, Interrupt));
  }

  lemma PollStartInv<T>(s: State<T>, budget: nat)
    requires Inv(s) && Enabled(s, PollStart(budget))
    ensures Inv(Do(s, PollStart(budget)))
  {
    CoreFrame(s, Do(s, PollStart(budget)));
  }

  lemma ReadFirstInv<T>(s: State<T>)
    requires Inv(s) && Enabled(s, ReadFirst)
    ensures Inv(Do(s, ReadFirst))
  {
    hide Core, FirstByte;
    HeadFacts(s);
    CoreFrame(s, Do(s, ReadFirst));
  }

  /** What addr_cur pointing into the buffer of the next slot says. */
  lemma AddrFacts<T>(s: State<T>)
    requires Core(s) && !Emptied(s.pc)
    ensures Shape(s)
    ensures s.addr == Some(s.descBuf[s.nextDone]) ==> Completed(s) <= s.done + 1
    ensures s.eng.Writing? && Completed(s) <= s.done ==> s.addr == Some(s.descBuf[s.nextDone])
  {
    hide Contents, Markers;
    var c := Completed(s);
    if s.done < c < s.done + N { SlotApart(s.done, c); }
    if s.done + 1 < c { SlotApart(s.done, c - 1); }
  }

  lemma ReadAddrInv<T>(s: State<T>)
    requires Inv(s) && Enabled(s, ReadAddr)
    ensures Inv(Do(s, ReadAddr))
  {
    hide Core, Slot;
    CoreFrame(s, Do(s, ReadAddr));
    AddrFacts(s);
  }

  lemma ReadPrvInv<T>(s: State<T>)
    requires Inv(s) && Enabled(s, ReadPrv)
    ensures Inv(Do(s, ReadPrv))
  {
    hide Core;
    CoreFrame(s, Do(s, ReadPrv));
    HeadFacts(s);
    if s.done > 0 { SlotApart(s.done - 1, s.done); }
  }

  lemma AllocFailInv<T>(s: State<T>, spare: Option<nat>)
    requires Inv(s) && Enabled(s, AllocFail(spare))
    ensures Inv(Do(s, AllocFail(spare)))
  {
    hide Buffers, Contents, Markers, EngineOk, Slot;
    var t := Do(s, AllocFail(spare));
    BuffersFrame(s, t);
    AllocFailContents(s, spare);
    MarkersFrame(s, t);
    AllocFailEngine(s, spare);
  }

  lemma AllocFailContents<T>(s: State<T>, spare: Option<nat>)
    requires Inv(s) && Enabled(s, AllocFail(spare))
    ensures Contents(Do(s, AllocFail(spare)))
  {
    hide Buffers, Markers, EngineOk, Slot;
  }

  lemma AllocFailEngine<T>(s: State<T>, spare: Option<nat>)
    requires Inv(s) && Enabled(s, AllocFail(spare))
    ensures EngineOk(Do(s, AllocFail(spare)))
  {
    hide Buffers, Contents, Markers, Slot;
  }

  lemma TakeInv<T>(s: State<T>, newBuf: nat, counts: bool)
    requires Inv(s) && Enabled(s, Take(newBuf, counts))
    ensures Inv(Do(s, Take(newBuf, counts)))
  {
    hide Buffers, Contents, EngineOk;
    TakeBuffers(s, newBuf, counts);
    TakeContents(s, newBuf, counts);
    TakeEngine(s, newBuf, counts);
  }

  lemma TakeBuffers<T>(s: State<T>, newBuf: nat, counts: bool)
    requires Inv(s) && Enabled(s, Take(newBuf, counts))
    ensures Buffers(Do(s, Take(newBuf, counts)))
  {
  }

  lemma TakeContents<T>(s: State<T>, newBuf: nat, counts: bool)
    requires Inv(s) && Enabled(s, Take(newBuf, counts))
    ensures Contents(Do(s, Take(newBuf, counts)))
  {
    hide Buffers, Markers, EngineOk, Slot;
    var t := Do(s, Take(newBuf, counts));
    SlotStep(s.done);
    forall k | s.done < k < s.done + N
      ensures t.mem[t.drvBuf[Slot(k)]] == s.mem[s.drvBuf[Slot(k)]]
    {
      hide Contents, Markers, EngineOk, Knows;
      SlotApart(s.done, k);
      NewBufApart(s, newBuf, Slot(k));
    }
    EngineRoom(s);
    assert t.mem[t.drvBuf[Slot(s.done + N)]] == Empty;
  }

  lemma NewBufApart<T>(s: State<T>, newBuf: nat, i: nat)
    requires Shape(s) && Buffers(s) && Fresh(s, newBuf) && i < N && i != s.nextDone
    ensures s.drvBuf[i] != newBuf
  {
  }

  lemma TakeEngine<T>(s: State<T>, newBuf: nat, counts: bool)
    requires Inv(s) && Enabled(s, Take(newBuf, counts))
    ensures EngineOk(Do(s, Take(newBuf, counts)))
  {
    var c := Completed(s);
    if c < s.done + N { SlotApart(s.done, c); }
  }

  lemma WriteAddrInv<T>(s: State<T>)
    requires Inv(s) && Enabled(s, WriteAddr)
    ensures Inv(Do(s, WriteAddr))
  {
    hide Buffers, Contents, Markers, EngineOk, Slot;
    var t := Do(s, WriteAddr);
    WriteAddrBuffers(s);
    ContentsFrame(s, t);
    MarkersFrame(s, t);
    EngineFrame(s, t);
  }

  lemma WriteAddrBuffers<T>(s: State<T>)
    requires Inv(s) && Enabled(s, WriteAddr)
    ensures Buffers(Do(s, WriteAddr))
  {
  }

  lemma WriteStopInv<T>(s: State<T>)
    requires Inv(s) && Enabled(s, WriteStop)
    ensures Inv(Do(s, WriteStop))
  {
    hide Buffers, Contents, Markers, EngineOk, Slot;
    var t := Do(s, WriteStop);
    BuffersFrame(s, t);
    ContentsFrame(s, t);
    WriteStopMarkers(s);
    EngineFrame(s, t);
  }

  lemma WriteStopMarkers<T>(s: State<T>)
    requires Inv(s) && Enabled(s, WriteStop)
    ensures Markers(Do(s, WriteStop))
  {
    hide Buffers, Contents, EngineOk;
    SlotOthers(s.done, s.done);
  }

  lemma LinkPrevInv<T>(s: State<T>)
    requires Inv(s) && Enabled(s, LinkPrev)
    ensures Inv(Do(s, LinkPrev))
  {
    hide Buffers, Contents, Markers, EngineOk, Slot;
    var t := Do(s, LinkPrev);
    BuffersFrame(s, t);
    ContentsFrame(s, t);
    LinkPrevMarkers(s);
    EngineFrame(s, t);
  }

  lemma LinkPrevMarkers<T>(s: State<T>)
    requires Inv(s) && Enabled(s, LinkPrev)
    ensures Markers(Do(s, LinkPrev))
  {
    hide Buffers, Contents, EngineOk, Knows, Slot;
    SlotStep(s.done);
    SlotOthers(s.done, s.done + N - 1);
  }

  lemma AdvanceInv<T>(s: State<T>)
    requires Inv(s) && Enabled(s, Advance)
    ensures Inv(Do(s, Advance))
  {
    hide Markers, EngineOk, Slot;
    SlotStep(s.done);
    AdvanceMarkers(s);
    AdvanceEngine(s);
  }

  lemma AdvanceEngine<T>(s: State<T>)
    requires Inv(s) && Enabled(s, Advance)
    ensures EngineOk(Do(s, Advance))
  {
    hide Contents, Markers, Slot;
  }

  lemma AdvanceMarkers<T>(s: State<T>)
    requires Inv(s) && Enabled(s, Advance)
    ensures Markers(Do(s, Advance))
  {
    SlotStep(s.done);
  }

  lemma ReadStatInv<T>(s: State<T>)
    requires Inv(s) && Enabled(s, ReadStat)
    ensures Inv(Do(s, ReadStat))
  {
    hide Core;
    CoreFrame(s, Do(s, ReadStat));
  }

  lemma RecheckInv<T>(s: State<T>)
    requires Inv(s) && Enabled(s, Recheck)
    ensures Inv(Do(s, Recheck))
  {
    hide Core;
    CoreFrame(s, Do(s, Recheck));
    HeadFacts(s);
  }

  lemma ClearIrqInv<T>(s: State<T>)
    requires Inv(s) && Enabled(s, ClearIrq)
    ensures Inv(Do(s, ClearIrq))
  {
    hide Core;
    CoreFrame(s, Do(s, ClearIrq));
  }

  lemma RestartInv<T>(s: State<T>)
    requires Inv(s) && Enabled(s, RestartDma)
    ensures Inv(Do(s, RestartDma))
  {
    hide EngineOk;
    RestartEngine(s);
  }

  lemma RestartEngine<T>(s: State<T>)
    requires Inv(s) && Enabled(s, RestartDma)
    ensures EngineOk(Do(s, RestartDma))
  {
  }

  lemma LeaveInv<T>(s: State<T>)
    requires Inv(s) && Enabled(s, Leave)
    ensures Inv(Do(s, Leave))
  {
    hide Core;
    CoreFrame(s, Do(s, Leave));
  }

  lemma EnableIrqInv<T>(s: State<T>)
    requires Inv(s) && Enabled(s, EnableIrq)
    ensures Inv(Do(s, EnableIrq))
  {
    hide Core;
    CoreFrame(s, Do(s, EnableIrq));
  }
}
