/** The one way the receiver stalls: an allocation fails after IRQDONE was cleared. */
module RxStall {
  import opened Ring
  import opened RingProofs
  import opened Reassembly
  import opened RxPath

  lemma Go(s0: RxState, steps: seq<RxStep>, s: RxState, step: RxStep)
    returns (more: seq<RxStep>, t: RxState)
    requires RxReaches(s0, steps, s) && RxEnabled(s, step)
    ensures more == steps + [step] && t == RxDo(s, step) && RxReaches(s0, more, t)
  {
    RxReachesMore(s0, steps, s, step);
    more, t := steps + [step], RxDo(s, step);
  }

  lemma NotAtStop(s0: RxState, steps: seq<RxStep>, s: RxState)
    requires RxInit(s0) && RxReaches(s0, steps, s)
    requires !Emptied(s.ring.pc) && Completed(s.ring) + 1 < s.ring.done + N
    ensures Shape(s.ring) && s.ring.flow[s.ring.cur] == Dscl
  {
    RxInitInv(s0);
    RxReachesInv(s0, steps, s);
    assert s.ring.flow[Slot(Completed(s.ring))] == Marker(s.ring, Completed(s.ring));
  }

  lemma UnitVisible(s0: RxState, steps: seq<RxStep>, s: RxState)
    requires RxInit(s0) && RxReaches(s0, steps, s)
    requires !Emptied(s.ring.pc) && Completed(s.ring) > s.ring.done
    ensures Shape(s.ring) && FirstByte(s.ring)
  {
    RxInitInv(s0);
    RxReachesInv(s0, steps, s);
    assert s.ring.mem[s.ring.drvBuf[Slot(s.ring.done)]] == Full(s.ring.written[s.ring.done]);
  }

  /** The engine fills one slot that is not marked STOP. */
  lemma EngineFills(s0: RxState, steps: seq<RxStep>, s: RxState, unit: Wu)
    returns (more: seq<RxStep>, t: RxState)
    requires RxInit(s0) && RxReaches(s0, steps, s) && unit.byte0 != 0
    requires s.ring.pc == Idle && s.ring.eng == Fetching && Completed(s.ring) + 1 < s.ring.done + N
    ensures RxReaches(s0, more, t)
    ensures t.ring.pc == Idle && t.ring.eng == Fetching && t.ring.addr == None && t.ring.irq
    ensures t.ring.enabled == s.ring.enabled
    ensures Completed(t.ring) == Completed(s.ring) + 1 && t.ring.done == s.ring.done
  {
    hide RxReaches;
    NotAtStop(s0, steps, s);
    more, t := Go(s0, steps, s, Plain(HwFetch));
    more, t := Go(s0, more, t, Plain(HwBegin));
    more, t := Go(s0, more, t, Plain(HwComplete(unit, false)));
  }

  /** The loop head finds the next slot filled and done with. */
  lemma FindsUnit(s0: RxState, steps: seq<RxStep>, s: RxState)
    returns (more: seq<RxStep>, t: RxState)
    requires RxInit(s0) && RxReaches(s0, steps, s)
    requires s.ring.pc.Loop? && s.ring.pc.count < s.ring.budget
    requires Completed(s.ring) > s.ring.done && s.ring.addr == None
    ensures RxReaches(s0, more, t) && |more| == |steps| + 3 && steps <= more
    ensures Shape(t.ring) && t == s.(ring := s.ring.(pc := Ready(s.ring.pc.count)))
  {
    hide RxReaches;
    UnitVisible(s0, steps, s);
    more, t := Go(s0, steps, s, Plain(ReadFirst));
    more, t := Go(s0, more, t, Plain(ReadAddr));
    more, t := Go(s0, more, t, Plain(ReadPrv));
  }

  /** The driver takes the unit and puts the slot back with a new buffer. */
  lemma Recycles(s0: RxState, steps: seq<RxStep>, s: RxState, newBuf: nat)
    returns (more: seq<RxStep>, t: RxState)
    requires RxReaches(s0, steps, s)
    requires Shape(s.ring) && s.ring.pc.Ready? && newBuf !in s.ring.mem
    ensures RxReaches(s0, more, t)
    ensures t.ring.pc.Loop? && t.ring.pc.count <= s.ring.pc.count + 1 && t.ring.budget == s.ring.budget
    ensures t.ring.eng == s.ring.eng && t.ring.addr == s.ring.addr && !t.ring.irq
    ensures t.ring.written == s.ring.written && t.ring.done == s.ring.done + 1
  {
    hide RxReaches;
    more, t := Go(s0, steps, s, TakeUnit(newBuf));
    more, t := PutsBack(s0, more, t);
  }

  lemma PutsBack(s0: RxState, steps: seq<RxStep>, s: RxState)
    returns (more: seq<RxStep>, t: RxState)
    requires RxReaches(s0, steps, s) && Shape(s.ring) && s.ring.pc.Swapped?
    ensures RxReaches(s0, more, t)
    ensures t.ring.pc == Loop(s.ring.pc.count) && t.ring.budget == s.ring.budget
    ensures t.ring.eng == s.ring.eng && t.ring.addr == s.ring.addr && !t.ring.irq
    ensures t.ring.written == s.ring.written && t.ring.done == s.ring.done + 1
  {
    hide RxReaches;
    more, t := Go(s0, steps, s, Plain(WriteAddr));
    more, t := Go(s0, more, t, Plain(WriteStop));
    more, t := Go(s0, more, t, Plain(LinkPrev));
    more, t := Go(s0, more, t, Plain(Advance));
  }

  /** After the allocation fails with the engine running, the poll just completes. */
  lemma GivesUp(s0: RxState, steps: seq<RxStep>, s: RxState)
    returns (more: seq<RxStep>, t: RxState)
    requires RxReaches(s0, steps, s)
    requires Shape(s.ring) && s.ring.pc.Ready? && s.ring.eng == Fetching && s.ring.pc.count < s.ring.budget
    ensures RxReaches(s0, more, t)
    ensures t.ring.pc == Idle && t.ring.irq == s.ring.irq
    ensures t.ring.written == s.ring.written && t.ring.done == s.ring.done
  {
    hide RxReaches, Process, UsesBudget, Current, Before, After, Fresh, FirstByte;
    more, t := Go(s0, steps, s, Plain(AllocFail(None)));
    more, t := Go(s0, more, t, Plain(ReadStat));
    more, t := Completes(s0, more, t);
  }

  lemma Completes(s0: RxState, steps: seq<RxStep>, s: RxState)
    returns (more: seq<RxStep>, t: RxState)
    requires RxReaches(s0, steps, s)
    requires Shape(s.ring) && s.ring.pc.Return? && s.ring.pc.count < s.ring.budget
    ensures RxReaches(s0, more, t)
    ensures t == s.(ring := s.ring.(pc := Idle, enabled := true))
  {
    hide RxReaches, Process, UsesBudget, Current, Before, After, Fresh, FirstByte;
    more, t := Go(s0, steps, s, Plain(Leave));
    more, t := Go(s0, more, t, Plain(EnableIrq));
  }

  lemma UnusedBuffer(used: map<nat, Cell<Wu>>) returns (b: nat)
    ensures b !in used
  {
    b := Above(used.Keys);
    assert b !in used.Keys;
  }

  lemma {:induction false} Above(used: set<nat>) returns (b: nat)
    ensures forall u :: u in used ==> u < b
    decreases |used|
  {
    if used == {} {
      b := 0;
    } else {
      var u :| u in used;
      var rest := Above(used - {u});
      assert used == (used - {u}) + {u};
      b := if rest > u then rest else u + 1;
    }
  }

  /** From every initial state: two units arrive, the first is delivered to the
      driver and IRQDONE cleared, and no skb can be had for the second.  The
      poll completes with a unit waiting and no interrupt latched. */
  lemma FailedAllocationStalls(s0: RxState) returns (steps: seq<RxStep>, s: RxState)
    requires RxInit(s0)
    ensures RxReaches(s0, steps, s)
    ensures s.ring.pc == Idle && Completed(s.ring) > s.ring.done && !s.ring.irq
    ensures !RxEnabled(s, Plain(Interrupt))
  {
    hide RxReaches, RxInit;
    steps, s := EngineFillsMany(s0, 2);
    steps, s := StartPoll(s0, steps, s);
    steps, s := FindsUnit(s0, steps, s);
    var newBuf := UnusedBuffer(s.ring.mem);
    steps, s := Recycles(s0, steps, s, newBuf);
    steps, s := FindsUnit(s0, steps, s);
    steps, s := GivesUp(s0, steps, s);
  }

  // A poll whose allocations keep failing

  /** The engine fills `k` slots of the ring, none of them marked STOP. */
  lemma {:induction false} EngineFillsMany(s0: RxState, k: nat)
    returns (steps: seq<RxStep>, s: RxState)
    requires RxInit(s0) && k < N
    ensures RxReaches(s0, steps, s)
    ensures s.ring.pc == Idle && s.ring.eng == Fetching && s.ring.enabled && s.ring.done == 0
    ensures Completed(s.ring) == k && (k > 0 ==> s.ring.addr == None && s.ring.irq)
  {
    if k == 0 {
      steps, s := [], s0;
    } else {
      hide RxReaches;
      steps, s := EngineFillsMany(s0, k - 1);
      steps, s := EngineFills(s0, steps, s, Wu(5, 0));
    }
  }

  /** With all N slots filled, the engine has halted at the STOP marker. */
  lemma EngineFillsRing(s0: RxState) returns (steps: seq<RxStep>, s: RxState)
    requires RxInit(s0)
    ensures RxReaches(s0, steps, s)
    ensures s.ring.pc == Idle && s.ring.eng == Halted && s.ring.enabled && s.ring.irq && s.ring.addr == None
    ensures s.ring.done == 0 && Completed(s.ring) == N
  {
    hide RxReaches;
    steps, s := EngineFillsMany(s0, N - 1);
    AtStop(s0, steps, s);
    steps, s := Go(s0, steps, s, Plain(HwFetch));
    steps, s := Go(s0, steps, s, Plain(HwBegin));
    steps, s := Go(s0, steps, s, Plain(HwComplete(Wu(5, 0), false)));
  }

  lemma AtStop(s0: RxState, steps: seq<RxStep>, s: RxState)
    requires RxInit(s0) && RxReaches(s0, steps, s)
    requires s.ring.pc == Idle && Completed(s.ring) == s.ring.done + N - 1
    ensures Shape(s.ring) && s.ring.flow[s.ring.cur] == Stop
  {
    RxInitInv(s0);
    RxReachesInv(s0, steps, s);
    assert s.ring.flow[Slot(Completed(s.ring))] == Marker(s.ring, Completed(s.ring));
  }

  /** One round: the unit is found, no buffer can be had for it, the engine is
      seen halted in front of it, and the poll goes back to where it was. */
  lemma AllocationRound(s0: RxState, steps: seq<RxStep>, s: RxState)
    returns (more: seq<RxStep>, t: RxState)
    requires RxInit(s0) && RxReaches(s0, steps, s)
    requires s.ring.pc.Loop? && s.ring.pc.count < s.ring.budget && s.ring.eng == Halted && s.ring.addr == None
    requires Completed(s.ring) > s.ring.done
    ensures RxReaches(s0, more, t) && |more| == |steps| + 6 && steps <= more
    ensures t == s.(ring := s.ring.(starved := false))
  {
    hide RxReaches;
    more, t := FindsUnit(s0, steps, s);
    UnitVisible(s0, more, t);
    more, t := GoesBack(s0, more, t);
  }

  lemma GoesBack(s0: RxState, steps: seq<RxStep>, s: RxState)
    returns (more: seq<RxStep>, t: RxState)
    requires RxReaches(s0, steps, s) && Shape(s.ring) && FirstByte(s.ring)
    requires s.ring.pc.Ready? && s.ring.pc.count < s.ring.budget && s.ring.eng == Halted
    ensures RxReaches(s0, more, t) && |more| == |steps| + 3 && steps <= more
    ensures t == s.(ring := s.ring.(pc := Loop(s.ring.pc.count), starved := false))
  {
    hide RxReaches, Process, UsesBudget, Current, Before, After, Fresh;
    more, t := Go(s0, steps, s, Plain(AllocFail(None)));
    more, t := Go(s0, more, t, Plain(ReadStat));
    more, t := Go(s0, more, t, Plain(Recheck));
  }

  /** From every initial state, and for every number of rounds, there is a run in
      which one poll goes round that often and is where it was before. */
  lemma AllocationLivelock(s0: RxState, rounds: nat)
    returns (before: seq<RxStep>, s: RxState, after: seq<RxStep>, t: RxState)
    requires RxInit(s0)
    ensures RxReaches(s0, before, s) && s.ring.pc == Loop(0)
    ensures RxReaches(s0, after, t) && before <= after && |after| == |before| + 6 * rounds
    ensures t == s
  {
    hide RxReaches, RxInit;
    before, s := EngineFillsRing(s0);
    before, s := StartPoll(s0, before, s);
    after, t := AllocationRounds(s0, before, s, rounds);
  }

  lemma StartPoll(s0: RxState, steps: seq<RxStep>, s: RxState)
    returns (more: seq<RxStep>, t: RxState)
    requires RxInit(s0) && RxReaches(s0, steps, s)
    requires s.ring.pc == Idle && s.ring.irq && s.ring.enabled && Completed(s.ring) > s.ring.done
    ensures RxReaches(s0, more, t)
    ensures t == s.(ring := s.ring.(pc := Loop(0), enabled := false, budget := 64, starved := false))
  {
    hide RxReaches;
    UnitVisible(s0, steps, s);
    more, t := Go(s0, steps, s, Plain(Interrupt));
    more, t := Go(s0, more, t, Plain(PollStart(64)));
  }

  lemma {:induction false} AllocationRounds(s0: RxState, steps: seq<RxStep>, s: RxState, rounds: nat)
    returns (more: seq<RxStep>, t: RxState)
    requires RxInit(s0) && RxReaches(s0, steps, s)
    requires s.ring.pc.Loop? && s.ring.pc.count < s.ring.budget && s.ring.eng == Halted && s.ring.addr == None
    requires Completed(s.ring) > s.ring.done && !s.ring.starved
    ensures RxReaches(s0, more, t) && |more| == |steps| + 6 * rounds && steps <= more
    ensures t == s
    decreases rounds
  {
    more, t := steps, s;
    if rounds > 0 {
      hide RxReaches, RxInit;
      more, t := AllocationRound(s0, more, t);
      more, t := AllocationRounds(s0, more, t, rounds - 1);
    }
  }
}
