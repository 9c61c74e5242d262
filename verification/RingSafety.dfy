/** What the ring invariant gives: STOP-marker safety, no stall, bounded polls. */
module RingSafety {
  import opened Ring
  import opened RingProofs

  /** Between iterations exactly one descriptor is STOP: the one before the next to be done. */
  lemma OneStopBetweenIterations<T>(s: State<T>)
    requires Inv(s) && !Emptied(s.pc)
    ensures forall i :: 0 <= i < N ==> (s.flow[i] == Stop <==> i == Before(s.nextDone))
  {
    SlotStep(s.done);
    forall i | 0 <= i < N
      ensures s.flow[i] == Stop <==> i == Before(s.nextDone)
    {
      var k := PositionOf(s.done, i);
      SlotOthers(s.done, s.done + N - 1);
      assert s.flow[Slot(k)] == Marker(s, k);
    }
  }

  /** The position in [lo, lo + N) that lands on slot `i`. */
  lemma PositionOf(lo: nat, i: nat) returns (k: nat)
    requires i < N
    ensures lo <= k < lo + N && Slot(k) == i
  {
    var d := if i >= Slot(lo) then i - Slot(lo) else i + N - Slot(lo);
    SlotAdd(lo, d);
    k := lo + d;
  }

  /** At every instant, inside an iteration too, some STOP descriptor lies
      between the engine and the first slot the driver has not emptied. */
  lemma StopGuardsUntaken<T>(s: State<T>) returns (k: nat)
    requires Inv(s)
    ensures Low(s) <= k + 1 && k < Low(s) + N
    ensures s.flow[Slot(k)] == Stop
    ensures s.eng.Fetching? ==> Completed(s) <= k
    ensures (s.eng.Loaded? || s.eng.Writing?) ==> Completed(s) <= k && (Completed(s) == k ==> s.eng.flow == Stop)
  {
    SlotStep(s.done);
    if s.pc.Linked? {
      k := s.done + N;
      assert s.flow[Slot(s.done)] == Marker(s, s.done);
    } else {
      k := s.done + N - 1;
      assert s.flow[Slot(k)] == Marker(s, k);
    }
  }

  /** Whatever the engine writes, it writes into an emptied slot: every
      completed unit the driver has not taken stays readable and intact. */
  lemma EngineNeverOverwrites<T>(s: State<T>, step: Step<T>, k: nat)
    requires Inv(s) && Enabled(s, step)
    requires step.HwFetch? || step.HwBegin? || step.HwComplete?
    requires Low(s) <= k < Completed(s)
    ensures Do(s, step).drvBuf[Slot(k)] == s.drvBuf[Slot(k)]
    ensures Do(s, step).mem[s.drvBuf[Slot(k)]] == s.mem[s.drvBuf[Slot(k)]] == Full(s.written[k])
    ensures step.HwBegin? ==> s.mem[s.eng.buf] == Empty
  {
    SlotOthers(Low(s), Completed(s));
    assert s.mem[s.drvBuf[Slot(k)]] == Full(s.written[k]);
    assert Completed(s) < Low(s) + N ==>
             s.mem[s.drvBuf[Slot(Completed(s))]] == if s.eng.Writing? then Partial else Empty;
  }

  /** A restart points the engine at the descriptor it stopped in front of. */
  lemma RestartResumes<T>(s: State<T>)
    requires Inv(s) && Enabled(s, RestartDma)
    ensures s.cur == s.nextDone
    ensures Do(s, RestartDma) == s.(eng := Fetching, pc := Return(Min(s.pc.count, s.budget - 1)))
  {
  }

  /** Idle means: interrupt enabled, and latched whenever there is something to do. */
  lemma IdleHasInterrupt<T>(s: State<T>)
    requires Inv(s) && s.pc == Idle
    ensures s.enabled
    ensures Completed(s) > s.done && !s.starved ==> Enabled(s, Interrupt)
    ensures s.eng.Halted? ==> Enabled(s, Interrupt)
  {
  }

  /** A poll that ended on a failed allocation has left a unit behind. */
  ghost predicate Starving<T>(s: State<T>)
  {
    s.starved ==>
      && Completed(s) > s.done
      && match s.pc
         case Check(c) => c < s.budget
         case HaltSeen(c) => c < s.budget
         case Return(c) => c < s.budget
         case Complete => true
         case Idle => true
         case Scheduled => true
         case _ => false
  }

  lemma StarvingStep<T>(s: State<T>, step: Step<T>)
    requires Inv(s) && Starving(s) && Enabled(s, step)
    ensures Starving(Do(s, step))
  {
    hide Inv, FirstByte, Before, After, Fresh;
    ReadyFacts(s);
    if step.Recheck? { NextVisible(s); }
  }

  lemma ReadyFacts<T>(s: State<T>)
    requires Inv(s)
    ensures s.pc.Ready? ==> s.pc.count < s.budget && Completed(s) > s.done
  {
    hide Core;
  }

  lemma NextVisible<T>(s: State<T>)
    requires Inv(s) && !Emptied(s.pc)
    ensures Shape(s) && (FirstByte(s) <==> s.done < Completed(s) || s.eng.Writing?)
  {
    hide Core, FirstByte;
    HeadFacts(s);
  }

  /** A halted engine in front of which a completed unit waits: the poll must go round again. */
  ghost predicate Hot<T>(s: State<T>)
  {
    s.eng.Halted? && Completed(s) > s.done
  }

  ghost function Weight<T>(s: State<T>): nat
  {
    match s.pc
    case Loop(_) => 12
    case Started(_) => 11
    case Addressed(_, inside) => if inside && Hot(s) && Completed(s) > s.done + 1 then 15 else 10
    case Ready(_) => 9
    case Swapped(_) => 8
    case Pointed(_) => 7
    case StopSet(_) => 6
    case Linked(_) => 5
    case Check(c) => if Hot(s) && c < s.budget then 14 else 4
    case HaltSeen(c) => if Hot(s) && c < s.budget then 13 else 3
    case Clear(_) => 2
    case Restart(_) => 1
    case _ => 0
  }

  /** Units waiting count for a whole iteration each. */
  ghost function Effort<T>(s: State<T>): int
  {
    16 * (Completed(s) - s.done) + Weight(s)
  }

  predicate PollStep<T>(step: Step<T>)
  {
    match step
    case ReadFirst => true
    case ReadAddr => true
    case ReadPrv => true
    case Take(_, _) => true
    case WriteAddr => true
    case WriteStop => true
    case LinkPrev => true
    case Advance => true
    case ReadStat => true
    case Recheck => true
    case ClearIrq => true
    case RestartDma => true
    case _ => false
  }

  lemma EffortBounds<T>(s: State<T>)
    requires Inv(s)
    ensures 0 <= Effort(s) <= 16 * N + 31
  {
  }

  /** Each step of a poll, the backward jump included, makes progress. */
  lemma PollStepShrinks<T>(s: State<T>, step: Step<T>)
    requires Inv(s) && Enabled(s, step) && PollStep(step)
    ensures Effort(Do(s, step)) < Effort(s)
  {
    hide Inv, Do, Enabled, Effort;
    match step
    case ReadFirst => ReadFirstShrinks(s);
    case ReadAddr => ReadAddrShrinks(s);
    case ReadPrv => ReadPrvShrinks(s);
    case Recheck => RecheckShrinks(s);
    case _ => OtherShrinks(s, step);
  }

  /** The other steps only move on. */
  lemma OtherShrinks<T>(s: State<T>, step: Step<T>)
    requires Enabled(s, step) && PollStep(step)
    requires !step.ReadFirst? && !step.ReadAddr? && !step.ReadPrv? && !step.Recheck?
    ensures Effort(Do(s, step)) < Effort(s)
  {
    hide Shape, FirstByte, Before, After, Fresh;
  }

  lemma ReadFirstShrinks<T>(s: State<T>)
    requires Inv(s) && Enabled(s, ReadFirst)
    ensures Effort(Do(s, ReadFirst)) < Effort(s)
  {
    assert s.done < Completed(s) ==> s.mem[s.drvBuf[Slot(s.done)]] == Full(s.written[s.done]);
  }

  lemma ReadAddrShrinks<T>(s: State<T>)
    requires Inv(s) && Enabled(s, ReadAddr)
    ensures Effort(Do(s, ReadAddr)) < Effort(s)
  {
    if s.done + 1 < Completed(s) { SlotApart(s.done, Completed(s) - 1); }
  }

  lemma ReadPrvShrinks<T>(s: State<T>)
    requires Inv(s) && Enabled(s, ReadPrv)
    ensures Effort(Do(s, ReadPrv)) < Effort(s)
  {
  }

  lemma RecheckShrinks<T>(s: State<T>)
    requires Inv(s) && Enabled(s, Recheck)
    ensures Effort(Do(s, Recheck)) < Effort(s)
  {
    hide Core, FirstByte;
    HeadFacts(s);
  }

  /** Only a completion by the engine adds work, and only a bounded amount. */
  lemma EngineStepGrows<T>(s: State<T>, step: Step<T>)
    requires Inv(s) && Enabled(s, step)
    requires step.HwFetch? || step.HwBegin? || step.HwComplete?
    ensures Effort(Do(s, step)) <= Effort(s) + if step.HwComplete? then 32 else 0
  {
  }
}
