/** adi_msp_rx and its NAPI poll as code.  Before each access to shared memory
    the engine may run for as long as it likes.  Each access is recorded as a
    protocol step, so the object is always in a state the protocol reaches. */
module RxDriverCode {
  import opened Ring
  import opened RingProofs
  import opened RingSafety
  import opened RingDevice
  import opened Reassembly
  import opened RxPath

  /** What calling for a new receive buffer can come to. */
  datatype Allocation = NoMemory | NotAligned | NotMapped | Allocated

  lemma EffortIsNat(s: RxState)
    requires RxInv(s)
    ensures 0 <= Effort(s.ring)
  {
    EffortBounds(s.ring);
  }

  lemma CanTake(s: RxState, newBuf: nat)
    requires Shape(s.ring) && s.ring.pc.Ready? && newBuf !in s.ring.mem
    ensures RxEnabled(s, TakeUnit(newBuf))
    ensures var counts := UsesBudget(s.asm, Current(s));
            Enabled(s.ring, Take(newBuf, counts)) &&
            var t := Do(s.ring, Take(newBuf, counts));
            && t.pc == Swapped(s.ring.pc.count + if counts then 1 else 0)
            && t.budget == s.ring.budget && t.starved == s.ring.starved && t.written == s.ring.written
  {
    hide UsesBudget;
  }

  lemma TakeAdds(s: RxState, newBuf: nat)
    requires RxEnabled(s, TakeUnit(newBuf))
    ensures Shape(s.ring) && Do(s.ring, RingStep(s, TakeUnit(newBuf))).mem.Keys == s.ring.mem.Keys + {newBuf}
  {
    hide UsesBudget;
  }

  lemma CanGiveUp(s: RxState, step: RxStep)
    requires Shape(s.ring) && s.ring.pc.Ready?
    requires step == Plain(AllocFail(None)) || step.Misaligned? || step.MapFailed?
    requires !step.Plain? ==> step.buf !in s.ring.mem
    ensures RxEnabled(s, step)
    ensures var spare := if step.Plain? then None else Some(step.buf);
            RingStep(s, step) == AllocFail(spare) &&
            Enabled(s.ring, AllocFail(spare)) &&
            var t := Do(s.ring, AllocFail(spare));
            && t.mem.Keys == s.ring.mem.Keys + (if spare.Some? then {spare.value} else {})
            && t.pc == Check(s.ring.pc.count)
            && t.budget == s.ring.budget && t.written == s.ring.written
            && Effort(t) < Effort(s.ring) + 32
  {
    hide UsesBudget;
  }

  class RxDriver {
    const ring: RingDma<Wu>
    const prevRxSkb: array<Skb>
    var prevCount: nat
    var packets: nat
    var bytes: nat
    var errors: nat
    var nextBuf: nat        // the allocator: no buffer from here on is in use

    // The environment: what may still happen while a poll runs
    var fills: nat          // units the engine may still complete
    var failures: nat       // allocations that may still fail

    ghost var delivered: seq<Frame>
    ghost var freed: seq<nat>
    ghost var leaked: seq<nat>
    ghost var unmapped: seq<nat>
    ghost var taken: seq<Skb>
    ghost const start: RxState
    ghost var trace: seq<RxStep>

    ghost function Repr(): set<object>
    {
      {this, ring, ring.flow, ring.descBuf, ring.drvBuf, prevRxSkb}
    }

    ghost function Asm(): Assembler
      reads this, prevRxSkb
      requires prevCount <= prevRxSkb.Length
    {
      Assembler(prevRxSkb[..prevCount], delivered, freed, packets, bytes, errors)
    }

    ghost function View(): RxState
      reads this, Repr()
      requires prevCount <= prevRxSkb.Length
    {
      RxState(ring.View(), Asm(), leaked, unmapped, taken)
    }

    /** The layout, and no buffer beyond `nextBuf` in use. */
    ghost predicate Intact()
      reads Repr()
    {
      && ring.Valid()
      && prevRxSkb.Length == PREV_RX_SKB_NUM && prevCount < PREV_RX_SKB_NUM
      && forall b :: b in ring.mem ==> b < nextBuf
    }

    /** The object is where the recorded run of the protocol leads. */
    ghost predicate Valid()
      reads Repr()
    {
      && Intact()
      && RxInit(start) && RxReaches(start, trace, View())
      && RxInv(View())
    }

    /** Bounds the steps the poll can still take. */
    ghost function Work(): nat
      reads Repr()
    {
      var effort := Effort(ring.View());   // never negative when Valid
      (if effort < 0 then 0 else effort) + 32 * fills + 32 * failures
    }

    constructor (fills: nat, failures: nat)
      ensures Valid() && ring.pc == Idle && trace == []
      ensures this.fills == fills && this.failures == failures
      ensures fresh(Repr())
    {
      var r := new RingDma<Wu>();
      ring := r;
      prevRxSkb := new Skb[PREV_RX_SKB_NUM](_ => Skb(0, Wu(0, 0)));
      prevCount, packets, bytes, errors, nextBuf := 0, 0, 0, 0, N;
      this.fills, this.failures := fills, failures;
      delivered, freed, leaked, unmapped, taken, trace := [], [], [], [], [], [];
      start := RxState(r.View(), NothingYet, [], [], []);
      new;
      RxInitInv(start);
    }

    /** One step of the protocol has been taken and recorded. */
    twostate predicate Took(step: RxStep)
      requires old(Intact()) && Intact()
      reads Repr()
    {
      && RxEnabled(old(View()), step) && View() == RxDo(old(View()), step)
      && trace == old(trace) + [step]
    }

    /** The recorded run has gone on from where it was. */
    twostate predicate Kept()
      reads Repr()
    {
      Prefix(old(trace), trace)
    }

    /** So what was taken, delivered and freed stays so. */
    twostate lemma HistoryKept()
      requires old(Valid()) && Valid() && Kept()
      ensures old(taken) <= taken && old(delivered) <= delivered && old(freed) <= freed
      ensures old(ring.written) <= ring.written
    {
      hide RxInv, RxInit, RxReaches;
      RxHistoryGrows(start, old(trace), old(View()), trace, View());
    }

    /** Record the step just taken. */
    ghost method Log(before: RxState, step: RxStep)
      requires RxInit(start) && RxReaches(start, trace, before) && RxInv(before) && RxEnabled(before, step)
      requires Intact() && View() == RxDo(before, step)
      modifies this`trace
      ensures Valid() && View() == old(View()) && trace == old(trace) + [step]
      ensures 0 <= Effort(before.ring) && 0 <= Effort(ring.View())
      ensures OfPoll(step) ==> Effort(ring.View()) < Effort(before.ring)
      ensures OfEngine(step) ==> Effort(ring.View()) <= Effort(before.ring) + if step.step.HwComplete? then 32 else 0
    {
      hide RxReaches, RxDo, RxEnabled, RxInv, RxInit;
      RxReachesMore(start, trace, before, step);
      RxStepInv(before, step);
      EffortIsNat(before);
      EffortIsNat(View());
      if OfPoll(step) || OfEngine(step) { EffortChange(before, step); }
      trace := trace + [step];
    }

    /** Each unit completed used up one of `fills` and each failed allocation one of `failures`. */
    twostate predicate Progressed()
      reads Repr()
    {
      && Kept() && |ring.written| + fills == old(|ring.written| + fills)
      && failures <= old(failures)
      && (ring.starved ==> old(ring.starved) || failures < old(failures))
      && ring.budget == old(ring.budget)
    }

    /** What holds whenever control returns to the network stack: the frames of
        everything received so far have been delivered, and no more units were
        handled than were waiting or completed meanwhile. */
    twostate predicate Received()
      reads Repr()
      requires old(Intact()) && Intact()
    {
      && delivered == Frames(taken) && packets == |delivered| && bytes == TotalLength(delivered)
      && errors == Faults(taken)
      && (forall k :: 0 <= k < |taken| ==> k < |ring.written| && taken[k].unit == ring.written[k])
      && |taken| - old(|taken|) <= N + old(fills) - fills
    }

    /** Progress that takes nothing from the ring and allocates nothing. */
    twostate predicate Stepped()
      reads Repr()
    {
      Progressed() && nextBuf == old(nextBuf) && failures == old(failures)
      && taken == old(taken) && delivered == old(delivered)
    }

    /** One step of the engine, if it can take one. */
    method EngineStep(unit: Wu, stays: bool)
      requires Valid() && unit.byte0 != 0
      modifies Repr()
      ensures Valid() && Stepped() && ring.pc == old(ring.pc) && Work() <= old(Work())
    {
      hide RxReaches, RxInv, RxInit, Process, UsesBudget, FirstByte, Before, Current, Effort;
      if ring.eng.Fetching? {
        ghost var before := View();
        ring.HwFetch();
        Log(before, Plain(HwFetch));
      } else if ring.eng.Loaded? {
        ghost var before := View();
        ring.HwBegin();
        Log(before, Plain(HwBegin));
      } else if ring.eng.Writing? && fills > 0 {
        EngineCompletes(unit, stays);
      }
    }

    method EngineCompletes(unit: Wu, stays: bool)
      requires Valid() && unit.byte0 != 0 && ring.eng.Writing? && fills > 0
      modifies Repr()
      ensures Valid() && Stepped() && ring.pc == old(ring.pc) && Work() <= old(Work())
      ensures Took(Plain(HwComplete(unit, stays)))
    {
      hide RxReaches, RxInv, RxInit, Process, UsesBudget, FirstByte, Before, Current, Effort;
      ghost var before := View();
      ring.HwComplete(unit, stays);
      fills := fills - 1;
      Log(before, Plain(HwComplete(unit, stays)));
    }

    /** The engine runs between two accesses of the driver. */
    method Interfere()
      requires Valid()
      modifies Repr()
      ensures Valid() && Stepped() && ring.pc == old(ring.pc) && Work() <= old(Work())
    {
      hide Valid, Work, Took, Prefix;
      Onwards<RxStep>();
      var steps: int := *;
      while steps > 0
        invariant Valid() && Stepped() && ring.pc == old(ring.pc) && Work() <= old(Work())
      {
        var unit: Wu := *;
        var stays: bool := *;
        if unit.byte0 != 0 {
          EngineStep(unit, stays);
        }
        steps := steps - 1;
      }
    }

    // The head of the loop: is the next slot filled and done with?

    method FindUnit() returns (found: bool)
      requires Valid() && ring.pc.Loop? && ring.pc.count < ring.budget
      modifies Repr()
      ensures Valid() && Stepped() && Work() < old(Work())
      ensures ring.pc == if found then Ready(old(ring.pc).count) else Check(old(ring.pc).count)
    {
      hide Valid, Work, Took, Prefix;
      Onwards<RxStep>();
      Interfere();
      found := ReadFirst();
      if found {
        Interfere();
        var inside := ReadAddr();
        Interfere();
        found := ReadPrv(inside);
      }
    }

    method ReadFirst() returns (started: bool)
      requires Valid() && ring.pc.Loop? && ring.pc.count < ring.budget
      modifies Repr()
      ensures Valid() && Stepped() && Work() < old(Work())
      ensures ring.pc == if started then Started(old(ring.pc).count) else Check(old(ring.pc).count)
      ensures Took(Plain(Step.ReadFirst))
    {
      hide RxReaches, RxInv, RxInit, Process, UsesBudget, Before, Effort;
      ghost var before := View();
      started := ring.ReadFirst();
      Log(before, Plain(Step.ReadFirst));
    }

    method ReadAddr() returns (inside: bool)
      requires Valid() && ring.pc.Started?
      modifies Repr()
      ensures Valid() && Stepped() && Work() < old(Work())
      ensures ring.pc == Addressed(old(ring.pc).count, inside)
      ensures Took(Plain(Step.ReadAddr))
    {
      hide RxReaches, RxInv, RxInit, Process, UsesBudget, Before, Effort, FirstByte;
      ghost var before := View();
      inside := ring.ReadAddr();
      Log(before, Plain(Step.ReadAddr));
    }

    method ReadPrv(inside: bool) returns (complete: bool)
      requires Valid() && ring.pc.Addressed? && ring.pc.inside == inside
      modifies Repr()
      ensures Valid() && Stepped() && Work() < old(Work())
      ensures ring.pc == if complete then Ready(old(ring.pc).count) else Check(old(ring.pc).count)
      ensures Took(Plain(Step.ReadPrv))
    {
      hide RxReaches, RxInv, RxInit, Process, UsesBudget, Before, Effort, FirstByte;
      ghost var before := View();
      complete := ring.ReadPrv(inside);
      Log(before, Plain(Step.ReadPrv));
    }

    // Reassembly in prev_rx_skb

    /** adi_msp_drop_prev_rx_skb, and the error count its callers add. */
    method DropPrev()
      requires prevRxSkb.Length == PREV_RX_SKB_NUM && prevCount <= PREV_RX_SKB_NUM
      modifies this`prevCount, this`errors, this`freed
      ensures prevCount == 0 && Asm() == Drop(old(Asm()))
    {
      for i := 0 to prevCount
        invariant prevCount == old(prevCount) && errors == old(errors)
        invariant freed == old(freed) + Bufs(prevRxSkb[..i])
      {
        assert prevRxSkb[..i + 1] == prevRxSkb[..i] + [prevRxSkb[i]];
        freed := freed + [prevRxSkb[i].buf];
      }
      prevCount := 0;
      errors := errors + 1;
    }

    method Hold(skb: Skb)
      requires prevRxSkb.Length == PREV_RX_SKB_NUM && prevCount < PREV_RX_SKB_NUM
      modifies this`prevCount, prevRxSkb
      ensures prevCount == old(prevCount) + 1
      ensures Asm() == old(Asm()).(prev := old(Asm()).prev + [skb])
    {
      prevRxSkb[prevCount] := skb;
      prevCount := prevCount + 1;
    }

    /** The branches of adi_msp_rx on one work unit; the result says whether it uses up budget. */
    method ProcessUnit(skb: Skb) returns (uses: bool)
      requires prevRxSkb.Length == PREV_RX_SKB_NUM && prevCount < PREV_RX_SKB_NUM
      modifies this`prevCount, this`packets, this`bytes, this`errors, this`delivered, this`freed, prevRxSkb
      ensures prevCount < PREV_RX_SKB_NUM
      ensures Asm() == Process(old(Asm()), skb)
      ensures uses == UsesBudget(old(Asm()), skb)
    {
      var byte0 := skb.unit.byte0;
      uses := false;
      if byte0 & 0x3 == 1 && byte0 & 0xf8 == 0 {
        if byte0 & 0x4 != 0 {
          if prevCount > 0 { DropPrev(); }
          Hold(skb);
        } else if prevCount == 0 || prevCount == PREV_RX_SKB_NUM - 1 {
          Hold(skb);
          DropPrev();
        } else {
          Hold(skb);
        }
      } else if byte0 & 0x3 == 2 && byte0 & 0xe0 == 0 {
        if byte0 & 0x10 != 0 || byte0 & 0x4 != 0 {
          Hold(skb);
          DropPrev();
          uses := true;
        } else if prevCount == 0 {
          Hold(skb);
          DropPrev();
        } else if prevCount > DATA_WU_PER_FRAME {
          Hold(skb);
          DropPrev();
          uses := true;
        } else {
          var data := prevRxSkb[0];
          prevCount := 0;
          freed := freed + [skb.buf];
          delivered := delivered + [Frame(data, skb.unit.frameLen)];
          packets := packets + 1;
          bytes := bytes + skb.unit.frameLen;
          uses := true;
        }
      } else {
        Hold(skb);
        DropPrev();
      }
    }

    /** A new buffer for the slot the poll is at; it may fail as often as `failures` allows. */
    method Allocate() returns (outcome: Allocation, buf: nat)
      requires Valid()
      modifies this`nextBuf, this`failures
      ensures Valid() && View() == old(View()) && buf !in ring.mem && buf < nextBuf
      ensures outcome == Allocated ==> failures == old(failures) && Work() == old(Work())
      ensures outcome != Allocated ==> failures == old(failures) - 1 && Work() == old(Work()) - 32
    {
      hide RxReaches, RxInv, RxInit;
      outcome := *;
      buf := nextBuf;
      nextBuf := nextBuf + 1;
      if failures == 0 { outcome := Allocated; }
      if outcome != Allocated { failures := failures - 1; }
    }

    /** Take the filled buffer out of the ring, leave a new one, and reassemble. */
    method TakeOne() returns (ok: bool, uses: bool, ghost step: RxStep)
      requires Valid() && ring.pc.Ready?
      modifies Repr()
      ensures Valid() && Progressed() && Work() < old(Work())
      ensures Took(step) && if ok then step.TakeUnit? else Fails(step)
      ensures taken == if ok then old(taken) + [old(Current(View()))] else old(taken)
      ensures Cost(taken) == old(Cost(taken)) + if ok && uses then 1 else 0
      ensures !ok ==> ring.pc == Check(old(ring.pc).count)
      ensures ok ==> ring.pc == Swapped(old(ring.pc).count + if uses then 1 else 0)
    {
      hide Valid, Work, Intact, RxDo, RxEnabled, Current, Cost;
      var outcome, buf := Allocate();
      ok, uses, step := Settle(outcome, buf);
    }

    /** Carry on with what the allocation came to. */
    method Settle(outcome: Allocation, buf: nat) returns (ok: bool, uses: bool, ghost step: RxStep)
      requires Valid() && ring.pc.Ready? && buf !in ring.mem && buf < nextBuf
      modifies Repr()
      ensures Valid() && Kept() && Work() < old(Work()) + if ok then 0 else 32
      ensures |ring.written| + fills == old(|ring.written| + fills) && failures == old(failures)
      ensures ring.budget == old(ring.budget) && (ok && ring.starved ==> old(ring.starved))
      ensures ok == (outcome == Allocated) && Took(step) && if ok then step.TakeUnit? else Fails(step)
      ensures taken == if ok then old(taken) + [old(Current(View()))] else old(taken)
      ensures Cost(taken) == old(Cost(taken)) + if ok && uses then 1 else 0
      ensures !ok ==> ring.pc == Check(old(ring.pc).count)
      ensures ok ==> ring.pc == Swapped(old(ring.pc).count + if uses then 1 else 0)
    {
      hide Valid, Work, RxDo, RxEnabled, Current, Cost;
      ok, uses := outcome == Allocated, false;
      match outcome {
        case NoMemory =>
          GiveUp(Plain(AllocFail(None)));
          step := Plain(AllocFail(None));
        case NotAligned =>
          GiveUp(Misaligned(buf));
          step := Misaligned(buf);
        case NotMapped =>
          GiveUp(MapFailed(buf));
          step := MapFailed(buf);
        case Allocated =>
          uses := Swap(buf);
          step := TakeUnit(buf);
      }
    }

    /** A buffer that was allocated in vain goes out of sight. */
    ghost method Lose(step: RxStep)
      requires prevCount <= prevRxSkb.Length
      modifies this`leaked, this`unmapped
      ensures
        var s := old(View());
        View() == match step
                  case Misaligned(buf) => s.(leaked := s.leaked + [buf])
                  case MapFailed(buf) => s.(unmapped := s.unmapped + [buf])
                  case _ => s
    {
      match step {
        case Misaligned(buf) => leaked := leaked + [buf];
        case MapFailed(buf) => unmapped := unmapped + [buf];
        case _ =>
      }
    }

    /** The branches that leave the loop without a new buffer. */
    method GiveUp(step: RxStep)
      requires Valid() && ring.pc.Ready?
      requires step == Plain(AllocFail(None)) || step.Misaligned? || step.MapFailed?
      requires !step.Plain? ==> step.buf !in ring.mem && step.buf < nextBuf
      modifies Repr()
      ensures Valid() && Work() < old(Work()) + 32
      ensures ring.pc == Check(old(ring.pc).count)
      ensures ring.budget == old(ring.budget) && ring.written == old(ring.written) && fills == old(fills)
      ensures failures == old(failures) && taken == old(taken)
      ensures Took(step)
    {
      hide RxReaches, RxInv, RxInit, RxEnabled, Process, UsesBudget, Current, Effort, Enabled, Do, Shape;
      ghost var before := View();
      CanGiveUp(before, step);
      ring.AllocFail(if step.Plain? then None else Some(step.buf));
      Lose(step);
      Log(before, step);
    }

    /** The skb in the slot the poll is at, in exchange for a new buffer. */
    method Exchange(newBuf: nat) returns (skb: Skb)
      requires ring.Valid() && prevCount <= prevRxSkb.Length
      requires RxEnabled(View(), TakeUnit(newBuf))
      modifies ring, ring.drvBuf
      ensures ring.Valid() && skb == Current(old(View()))
      ensures ring.View() == Do(old(ring.View()), Take(newBuf, UsesBudget(Asm(), skb)))
    {
      hide Do;
      var buf := ring.drvBuf[ring.nextDone];
      var cell := ring.mem[buf];
      skb := Skb(buf, if cell.Full? then cell.unit else Wu(0, 0));
      ring.Take(newBuf, WillCount(skb.unit));
    }

    /** Whether processing the unit will use up budget. */
    predicate WillCount(unit: Wu)
      reads this
    {
      match KindOf(unit.byte0)
      case Failed => true
      case Good => prevCount != 0
      case _ => false
    }

    /** Put the new buffer in, then process the old one's work unit. */
    method SwapAndProcess(newBuf: nat) returns (uses: bool)
      requires Intact() && RxEnabled(View(), TakeUnit(newBuf)) && newBuf < nextBuf
      modifies ring, ring.drvBuf, this`prevCount, this`packets, this`bytes, this`errors, this`delivered, this`freed,
               this`taken, prevRxSkb
      ensures Intact() && View() == RxDo(old(View()), TakeUnit(newBuf))
      ensures uses == UsesBudget(old(Asm()), Current(old(View())))
    {
      hide Process, UsesBudget, Enabled, Shape, Current, Do, RxEnabled;
      TakeAdds(View(), newBuf);
      var skb := Exchange(newBuf);
      taken := taken + [skb];
      uses := ProcessUnit(skb);
    }

    method Swap(newBuf: nat) returns (uses: bool)
      requires Valid() && ring.pc.Ready? && newBuf !in ring.mem && newBuf < nextBuf
      modifies Repr()
      ensures Valid() && Progressed() && Work() < old(Work())
      ensures failures == old(failures) && taken == old(taken) + [old(Current(View()))]
      ensures Cost(taken) == old(Cost(taken)) + if uses then 1 else 0
      ensures ring.pc == Swapped(old(ring.pc).count + if uses then 1 else 0)
      ensures Took(TakeUnit(newBuf))
    {
      hide RxReaches, RxInv, RxInit, RxEnabled, Process, UsesBudget, Effort, Enabled, Do, Shape, Current,
           Cost;
      ghost var before := View();
      CanTake(before, newBuf);
      TakenCosts(before, newBuf);
      uses := SwapAndProcess(newBuf);
      Log(before, TakeUnit(newBuf));
    }

    // The end of an iteration: the slot goes back to the engine

    method WriteAddr()
      requires Valid() && ring.pc.Swapped?
      modifies Repr()
      ensures Valid() && Stepped() && Work() < old(Work())
      ensures ring.pc == Pointed(old(ring.pc).count)
      ensures Took(Plain(Step.WriteAddr))
    {
      hide RxReaches, RxInv, RxInit, Process, UsesBudget, Before, Effort, FirstByte;
      ghost var before := View();
      ring.WriteAddr();
      Log(before, Plain(Step.WriteAddr));
    }

    method WriteStop()
      requires Valid() && ring.pc.Pointed?
      modifies Repr()
      ensures Valid() && Stepped() && Work() < old(Work())
      ensures ring.pc == StopSet(old(ring.pc).count)
      ensures Took(Plain(Step.WriteStop))
    {
      hide RxReaches, RxInv, RxInit, Process, UsesBudget, Before, Effort, FirstByte;
      ghost var before := View();
      ring.WriteStop();
      Log(before, Plain(Step.WriteStop));
    }

    method LinkPrev()
      requires Valid() && ring.pc.StopSet?
      modifies Repr()
      ensures Valid() && Stepped() && Work() < old(Work())
      ensures ring.pc == Linked(old(ring.pc).count)
      ensures Took(Plain(Step.LinkPrev))
    {
      hide RxReaches, RxInv, RxInit, Process, UsesBudget, Before, Effort, FirstByte;
      ghost var before := View();
      ring.LinkPrev();
      Log(before, Plain(Step.LinkPrev));
    }

    method Advance()
      requires Valid() && ring.pc.Linked?
      modifies Repr()
      ensures Valid() && Stepped() && Work() < old(Work())
      ensures ring.pc == Loop(old(ring.pc).count)
      ensures Took(Plain(Step.Advance))
    {
      hide RxReaches, RxInv, RxInit, Process, UsesBudget, Before, Effort, FirstByte;
      ghost var before := View();
      ring.Advance();
      Log(before, Plain(Step.Advance));
    }

    method PutBack()
      requires Valid() && ring.pc.Swapped?
      modifies Repr()
      ensures Valid() && Stepped() && Work() < old(Work())
      ensures ring.pc == Loop(old(ring.pc).count)
    {
      hide Valid, Work, Took, Prefix;
      Onwards<RxStep>();
      Interfere();
      WriteAddr();
      Interfere();
      WriteStop();
      Interfere();
      LinkPrev();
      Interfere();
      Advance();
    }

    // Starting a poll, and after the loop

    method Begin(budget: nat)
      requires Valid() && ring.pc.Scheduled?
      modifies Repr()
      ensures Valid() && failures == old(failures)
      ensures ring.pc == Loop(0) && ring.budget == budget && !ring.starved
      ensures taken == old(taken) && ring.written == old(ring.written) && fills == old(fills)
      ensures Took(Plain(PollStart(budget))) && Kept()
    {
      hide RxReaches, RxInv, RxInit, Process, UsesBudget, Before, Effort, FirstByte;
      ghost var before := View();
      ring.PollStart(budget);
      Log(before, Plain(PollStart(budget)));
    }

    method LeaveLoop()
      requires Valid() && ring.pc.Loop? && ring.pc.count >= ring.budget
      modifies Repr()
      ensures Valid() && Stepped() && Work() < old(Work())
      ensures ring.pc == Check(old(ring.pc).count)
      ensures Took(Plain(Step.ReadFirst))
    {
      hide RxReaches, RxInv, RxInit, Process, UsesBudget, Before, Effort, FirstByte;
      ghost var before := View();
      ring.LeaveLoop();
      Log(before, Plain(Step.ReadFirst));
    }

    method ReadStat() returns (halted: bool)
      requires Valid() && ring.pc.Check?
      modifies Repr()
      ensures Valid() && Stepped() && Work() < old(Work())
      ensures ring.pc == if halted then HaltSeen(old(ring.pc).count) else Return(old(ring.pc).count)
      ensures Took(Plain(Step.ReadStat))
    {
      hide RxReaches, RxInv, RxInit, Process, UsesBudget, Before, Effort, FirstByte;
      ghost var before := View();
      halted := ring.ReadStat();
      Log(before, Plain(Step.ReadStat));
    }

    method Recheck() returns (empty: bool)
      requires Valid() && ring.pc.HaltSeen?
      modifies Repr()
      ensures Valid() && Stepped() && Work() < old(Work())
      ensures ring.pc == if empty then Clear(old(ring.pc).count)
                         else if old(ring.pc).count < ring.budget then Loop(old(ring.pc).count)
                         else Return(old(ring.pc).count)
      ensures Took(Plain(Step.Recheck))
    {
      hide RxReaches, RxInv, RxInit, Process, UsesBudget, Before, Effort, FirstByte, Shape;
      ghost var before := View();
      empty := ring.Recheck();
      Log(before, Plain(Step.Recheck));
    }

    method ClearIrq()
      requires Valid() && ring.pc.Clear?
      modifies Repr()
      ensures Valid() && Stepped() && Work() < old(Work())
      ensures ring.pc == Restart(old(ring.pc).count)
      ensures Took(Plain(Step.ClearIrq))
    {
      hide RxReaches, RxInv, RxInit, Process, UsesBudget, Before, Effort, FirstByte;
      ghost var before := View();
      ring.ClearIrq();
      Log(before, Plain(Step.ClearIrq));
    }

    method RestartDma()
      requires Valid() && ring.pc.Restart?
      modifies Repr()
      ensures Valid() && Stepped() && Work() < old(Work())
      ensures ring.pc == Return(Min(old(ring.pc).count, ring.budget - 1))
      ensures Took(Plain(Step.RestartDma))
    {
      hide RxReaches, RxInv, RxInit, Process, UsesBudget, Before, Effort, FirstByte;
      ghost var before := View();
      ring.RestartDma();
      Log(before, Plain(Step.RestartDma));
    }

    /** One iteration of the loop; it ends the loop when the ring is empty or a
        new buffer cannot be had. */
    method HandleNext(count0: int) returns (more: bool, count: int)
      requires Valid() && ring.pc == Loop(count0) && count0 < ring.budget
      modifies Repr()
      ensures Valid() && Progressed() && Work() < old(Work())
      ensures ring.pc == if more then Loop(count) else Check(count)
      ensures count0 <= count <= ring.budget && count - count0 == Cost(taken) - old(Cost(taken))
    {
      hide Valid, Work, Took, Prefix, Cost;
      Onwards<RxStep>();
      count := count0;
      more := FindUnit();
      if more {
        Interfere();
        var ok, uses, _ := TakeOne();
        more := ok;
        if ok {
          if uses { count := count + 1; }
          PutBack();
        }
      }
    }

    /** One pass of the loop over the ring, until it is empty, the budget is
        used up or a new buffer cannot be had. */
    method Drain(budget: nat, count0: int) returns (count: int)
      requires Valid() && ring.pc == Loop(count0) && ring.budget == budget && count0 <= budget
      modifies Repr()
      ensures Valid() && Progressed() && Work() < old(Work())
      ensures ring.pc == Check(count)
      ensures count <= budget && count - count0 == Cost(taken) - old(Cost(taken))
    {
      hide Valid, Work, Took, Prefix, Cost;
      Onwards<RxStep>();
      count := count0;
      while count < budget
        invariant Valid() && Progressed() && Work() <= old(Work())
        invariant ring.pc == Loop(count)
        invariant count <= budget && count - count0 == Cost(taken) - old(Cost(taken))
        decreases Work()
      {
        var more;
        more, count := HandleNext(count);
        if !more { return; }
      }
      LeaveLoop();
    }

    /** The look at a halted engine: start it again, or go round once more. */
    method Tail(budget: nat, count0: int) returns (count: int, again: bool)
      requires Valid() && ring.pc == Check(count0) && ring.budget == budget
      modifies Repr()
      ensures Valid() && Stepped() && Work() < old(Work())
      ensures ring.pc == if again then Loop(count) else Return(count)
      ensures count == count0 || (!again && count == Min(count0, budget - 1))
    {
      hide Valid, Work, Took, Prefix;
      Onwards<RxStep>();
      count, again := count0, false;
      Interfere();
      var halted := ReadStat();
      if halted {
        Interfere();
        var empty := Recheck();
        if empty {
          Resume();
          count := Min(count, budget - 1);
        } else if count < budget {
          again := true;
        }
      }
    }

    method Resume()
      requires Valid() && ring.pc.Clear?
      modifies Repr()
      ensures Valid() && Stepped() && Work() < old(Work())
      ensures ring.pc == Return(Min(old(ring.pc).count, ring.budget - 1))
    {
      hide Valid, Work, Took, Prefix;
      Onwards<RxStep>();
      Interfere();
      ClearIrq();
      Interfere();
      RestartDma();
    }

    /** What is returned is what was delivered or failed, but for the one given
        back when the engine is restarted with the whole budget used up. */
    twostate predicate Spent(count: int, budget: nat)
      reads this
    {
      var cost := Cost(taken) - Cost(old(taken));
      cost <= budget && (count == cost || (count == budget - 1 && cost == budget))
    }

    /** The cost of what was taken, in frames delivered and statuses aborted. */
    lemma CostOfTaken()
      requires Valid()
      ensures Cost(taken) == |delivered| + Aborted(taken)
    {
      hide RxReaches, RxInit, Aborted;
      DeliversFrames(taken);
    }

    /** adi_msp_rx: the loop, the look at a halted engine, and the jump back. */
    method Rx(budget: nat) returns (count: int)
      requires Valid() && ring.pc.Scheduled?
      modifies Repr()
      ensures Valid() && Received()
      ensures ring.pc == Return(count) && ring.budget == budget
      ensures ring.starved ==> failures < old(failures)
      ensures failures <= old(failures) && |ring.written| + fills == old(|ring.written| + fills)
      ensures Kept() && old(taken) <= taken && old(delivered) <= delivered
      ensures |delivered| - old(|delivered|) <= budget
      ensures
        var spent := |delivered| + Aborted(taken) - |old(delivered)| - Aborted(old(taken));
        count == spent || (count == budget - 1 && spent == budget)
    {
      hide Valid, Work, Took, Prefix, Received, Cost, Aborted;
      Onwards<RxStep>();
      CostOfTaken();
      Begin(budget);
      label begun:
      count := 0;
      var again := true;
      while again
        invariant Valid() && Progressed@begun()
        invariant ring.pc == if again then Loop(count) else Return(count)
        invariant again ==> count <= budget && count == Cost(taken) - Cost(old(taken))
        invariant !again ==> Spent(count, budget)
        decreases Work()
      {
        count := Drain(budget, count);
        count, again := Tail(budget, count);
      }
      Settled();
      HistoryKept();
      CostOfTaken();
      AbortedGrows(old(taken), taken);
    }

    /** What the protocol invariant says about an object between polls. */
    twostate lemma Settled()
      requires old(Valid()) && Valid() && !Emptied(ring.pc)
      requires |ring.written| + fills == old(|ring.written| + fills)
      ensures Received()
    {
      hide RxReaches, RxInit;
      DeliversFrames(taken);
    }

    /** The end of adi_msp_rx_poll. */
    method Finish(budget: nat, workDone: int)
      requires Valid() && ring.pc == Return(workDone) && ring.budget == budget
      modifies Repr()
      ensures Valid() && Stepped() && workDone <= budget
      ensures ring.pc == if workDone < budget then Idle else Scheduled
      ensures workDone < budget ==> ring.enabled
      ensures workDone < budget && !ring.irq ==>
                !ring.eng.Halted? && (|taken| < |ring.written| <==> ring.starved)
    {
      hide Valid, Work, Took, Prefix;
      Onwards<RxStep>();
      Leave();
      Interfere();
      if workDone < budget {
        EnableIrq();
        Answerable();
      }
    }

    /** adi_msp_rx_poll.  A completed poll leaves something behind that will not
        interrupt again only if an allocation failed in its last pass. */
    method Poll(budget: nat) returns (workDone: int)
      requires Valid() && ring.pc.Scheduled?
      modifies Repr()
      ensures Valid() && Received() && workDone <= budget
      ensures ring.pc == if workDone < budget then Idle else Scheduled
      ensures workDone < budget ==> ring.enabled
      ensures workDone < budget && !ring.irq ==>
                !ring.eng.Halted? && (|taken| < |ring.written| <==> ring.starved)
      ensures workDone < budget && ring.starved ==> failures < old(failures)
      ensures Kept() && old(taken) <= taken && old(delivered) <= delivered
      ensures |delivered| - old(|delivered|) <= budget
      ensures
        var spent := |delivered| + Aborted(taken) - |old(delivered)| - Aborted(old(taken));
        workDone == spent || (workDone == budget - 1 && spent == budget)
    {
      hide Valid, Work, Took, Prefix, Received, Cost, Aborted;
      Onwards<RxStep>();
      workDone := Rx(budget);
      Finish(budget, workDone);
      Settled();
      HistoryKept();
    }

    method Leave()
      requires Valid() && ring.pc.Return?
      modifies Repr()
      ensures Valid() && Stepped() && ring.pc == (if old(ring.pc).count < ring.budget then Complete else Scheduled)
      ensures old(ring.pc).count <= ring.budget
      ensures Took(Plain(Step.Leave))
    {
      hide RxReaches, RxInit, Process, UsesBudget, Before, Effort, FirstByte, Core;
      ghost var before := View();
      ring.Leave();
      Log(before, Plain(Step.Leave));
    }

    method EnableIrq()
      requires Valid() && ring.pc.Complete?
      modifies Repr()
      ensures Valid() && Stepped() && ring.pc == Idle
      ensures Took(Plain(Step.EnableIrq))
    {
      hide RxReaches, RxInit, RxInv, Process, UsesBudget, Before, Effort, FirstByte;
      ghost var before := View();
      ring.EnableIrq();
      Log(before, Plain(Step.EnableIrq));
    }

    /** The DMADONE handler: mask the interrupt and schedule the poll. */
    method Interrupt()
      requires Valid() && ring.irq && ring.enabled && ring.pc.Idle?
      modifies Repr()
      ensures Valid() && Stepped() && ring.pc == Scheduled && !ring.enabled
      ensures Took(Plain(Step.Interrupt))
    {
      hide RxReaches, RxInit, RxInv, Process, UsesBudget, Before, Effort, FirstByte;
      ghost var before := View();
      ring.Interrupt();
      Log(before, Plain(Step.Interrupt));
    }

    lemma Answerable()
      requires Valid() && ring.pc.Idle?
      ensures ring.enabled
      ensures !ring.irq ==> !ring.eng.Halted? && (|taken| < |ring.written| <==> ring.starved)
    {
      hide RxReaches, RxInit, RxInv;
      if !ring.irq { RxNothingLost(start, trace, View()); }
      RxNeverStalls(start, trace, View());
    }
  }
}
