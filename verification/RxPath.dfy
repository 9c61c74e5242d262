/** The receive path: the Rx ring with frame reassembly on top, as a transition system. */
module RxPath {
  import opened Ring
  import opened RingProofs
  import opened RingSafety
  import opened Reassembly

  datatype RxState = RxState(
    ring: State<Wu>,
    asm: Assembler,
    leaked: seq<nat>,      // new buffers the misalignment branch abandons
    unmapped: seq<nat>,    // new buffers freed because mapping them failed
    taken: seq<Skb>        // history: skbs taken from the ring, in order
  )

  datatype RxStep =
    | Plain(step: Step<Wu>)
    | TakeUnit(newBuf: nat)
    | Misaligned(buf: nat)
    | MapFailed(buf: nat)

  ghost predicate RxInit(s: RxState)
  {
    && Init(s.ring)
    && multiset(s.ring.drvBuf) == multiset(s.ring.mem.Keys)   // nothing else is allocated
    && s.asm == NothingYet && s.leaked == [] && s.unmapped == [] && s.taken == []
  }

  /** The skb in the slot the poll is at. */
  ghost function Current(s: RxState): Skb
    requires Shape(s.ring)
  {
    var buf := s.ring.drvBuf[s.ring.nextDone];
    Skb(buf, if s.ring.mem[buf].Full? then s.ring.mem[buf].unit else Wu(0, 0))
  }

  ghost function RingStep(s: RxState, step: RxStep): Step<Wu>
    requires Shape(s.ring)
  {
    match step
    case Plain(st) => st
    case TakeUnit(newBuf) => Take(newBuf, UsesBudget(s.asm, Current(s)))
    case Misaligned(buf) => AllocFail(Some(buf))
    case MapFailed(buf) => AllocFail(Some(buf))
  }

  ghost predicate RxEnabled(s: RxState, step: RxStep)
  {
    && Shape(s.ring)
    && Enabled(s.ring, RingStep(s, step))
    && match step
       case Plain(st) =>
         && !st.Take?
         && (st.AllocFail? ==> st.spare.None?)
         && (st.HwComplete? ==> st.unit.byte0 != 0)
       case TakeUnit(newBuf) => newBuf !in s.ring.mem
       case _ => true
  }

  ghost function RxDo(s: RxState, step: RxStep): RxState
    requires RxEnabled(s, step)
  {
    var r := Do(s.ring, RingStep(s, step));
    match step
    case Plain(_) => s.(ring := r)
    case TakeUnit(_) => s.(ring := r, asm := Process(s.asm, Current(s)), taken := s.taken + [Current(s)])
    case Misaligned(buf) => s.(ring := r, leaked := s.leaked + [buf])
    case MapFailed(buf) => s.(ring := r, unmapped := s.unmapped + [buf])
  }

  /** `t` is reached from `s` by `steps`: any interleaving of engine, interrupt and poll. */
  ghost predicate RxReaches(s: RxState, steps: seq<RxStep>, t: RxState)
    decreases |steps|
  {
    if steps == [] then s == t
    else
      var n := |steps| - 1;
      exists mid ::
        RxReaches(s, steps[..n], mid) && RxEnabled(mid, steps[n]) && t == RxDo(mid, steps[n])
  }

  lemma RxReachesMore(s: RxState, steps: seq<RxStep>, mid: RxState, step: RxStep)
    requires RxReaches(s, steps, mid) && RxEnabled(mid, step)
    ensures RxReaches(s, steps + [step], RxDo(mid, step))
  {
    assert (steps + [step])[..|steps|] == steps;
  }

  /** Each allocated buffer is accounted for exactly once. */
  ghost predicate Conserved(s: RxState)
  {
    multiset(s.ring.drvBuf) + multiset(Bufs(s.taken)) + multiset(s.leaked) + multiset(s.unmapped)
      == multiset(s.ring.mem.Keys)
  }

  /** What has been taken is a prefix of what was written, assembled as such. */
  ghost predicate History(s: RxState)
  {
    && |s.taken| == Low(s.ring) <= |s.ring.written|
    && (forall k :: 0 <= k < |s.taken| ==> s.taken[k].unit == s.ring.written[k])
    && s.asm == Feed(s.taken)
  }

  ghost predicate RxInv(s: RxState)
  {
    Inv(s.ring) && History(s) && Conserved(s)
  }

  lemma RxInitInv(s: RxState)
    requires RxInit(s)
    ensures RxInv(s)
  {
    InitInv(s.ring);
    assert Bufs([]) == [];
  }

  /** At the point where the poll takes a skb, it holds the next unit the engine completed. */
  lemma CurrentIsNext(s: RxState)
    requires Inv(s.ring) && s.ring.pc.Ready?
    ensures Current(s).unit == s.ring.written[s.ring.done]
  {
    assert s.ring.mem[s.ring.drvBuf[Slot(s.ring.done)]] == Full(s.ring.written[s.ring.done]);
  }

  /** What taking a unit does to the ring. */
  lemma Taken(s: RxState, newBuf: nat)
    requires RxEnabled(s, TakeUnit(newBuf))
    ensures
      var t := Do(s.ring, RingStep(s, TakeUnit(newBuf)));
      && s.ring.pc.Ready? && s.ring.nextDone < N == |s.ring.drvBuf|
      && Current(s).buf == s.ring.drvBuf[s.ring.nextDone]
      && t.drvBuf == s.ring.drvBuf[s.ring.nextDone := newBuf]
      && newBuf !in s.ring.mem && t.mem.Keys == s.ring.mem.Keys + {newBuf}
      && t.written == s.ring.written && Low(t) == Low(s.ring) + 1
  {
    hide UsesBudget;
  }

  lemma TakeConserves(s: RxState, newBuf: nat)
    requires RxInv(s) && RxEnabled(s, TakeUnit(newBuf))
    ensures Conserved(RxDo(s, TakeUnit(newBuf)))
  {
    hide Inv, Do, Enabled, RingStep, Process, Bufs, Current, History;
    var t := RxDo(s, TakeUnit(newBuf));
    Taken(s, newBuf);
    OneBuf(s.taken, Current(s));
    assert multiset(t.ring.mem.Keys) == multiset(s.ring.mem.Keys) + multiset{newBuf};
    var gone := s.ring.drvBuf[s.ring.nextDone];
    assert multiset(t.ring.drvBuf) == multiset(s.ring.drvBuf) - multiset{gone} + multiset{newBuf};
  }

  lemma OneBuf(taken: seq<Skb>, skb: Skb)
    ensures Bufs(taken + [skb]) == Bufs(taken) + [skb.buf]
  {
    BufsAppend(taken, [skb]);
    assert Bufs([skb]) == [skb.buf];
  }

  lemma SpareConserves(s: RxState, buf: nat, step: RxStep)
    requires RxInv(s) && RxEnabled(s, step) && (step == Misaligned(buf) || step == MapFailed(buf))
    ensures Conserved(RxDo(s, step)) && History(RxDo(s, step))
  {
    hide Inv, Do, Enabled, Feed, Bufs, Current;
    var t := RxDo(s, step);
    SpareAdds(s.ring, buf);
    assert multiset(t.ring.mem.Keys) == multiset(s.ring.mem.Keys) + multiset{buf};
  }

  lemma SpareAdds(s: State<Wu>, buf: nat)
    requires Enabled(s, AllocFail(Some(buf)))
    ensures
      var t := Do(s, AllocFail(Some(buf)));
      && buf !in s.mem && t.mem.Keys == s.mem.Keys + {buf} && t.drvBuf == s.drvBuf
      && t.written == s.written && Low(t) == Low(s)
  {
  }

  lemma PlainKeepsBuffers(s: State<Wu>, step: Step<Wu>)
    requires Enabled(s, step) && !step.Take? && (step.AllocFail? ==> step.spare.None?)
    ensures Do(s, step).mem.Keys == s.mem.Keys
    ensures Do(s, step).drvBuf == s.drvBuf
  {
    hide FirstByte, Before, After, Fresh, Min, Shape;
    if step.HwBegin? || step.HwComplete? {
      InMemory(s);
    }
  }

  lemma InMemory(s: State<Wu>)
    requires Shape(s)
    ensures s.eng.Loaded? || s.eng.Writing? ==> s.eng.buf in s.mem
  {
  }

  lemma PlainKeepsLow(s: State<Wu>, step: Step<Wu>)
    requires Enabled(s, step) && !step.Take?
    ensures Low(Do(s, step)) == Low(s)
    ensures s.written <= Do(s, step).written
  {
    hide FirstByte, Before, After, Fresh, Min, Shape;
  }

  lemma PlainKeepsHistory(s: RxState, step: Step<Wu>)
    requires RxInv(s) && RxEnabled(s, Plain(step))
    ensures History(RxDo(s, Plain(step))) && Conserved(RxDo(s, Plain(step)))
  {
    hide Do;
    PlainKeepsBuffers(s.ring, step);
    PlainKeepsLow(s.ring, step);
  }

  lemma InvOf(s: RxState)
    requires RxInv(s) && s.ring.pc.Ready?
    ensures |s.taken| == s.ring.done < |s.ring.written|
  {
  }

  lemma TakeKeepsHistory(s: RxState, newBuf: nat)
    requires RxInv(s) && RxEnabled(s, TakeUnit(newBuf))
    ensures History(RxDo(s, TakeUnit(newBuf)))
  {
    hide Inv, Do, Enabled, RingStep, Process, Current, Conserved;
    Taken(s, newBuf);
    InvOf(s);
    CurrentIsNext(s);
    assert (s.taken + [Current(s)])[..|s.taken|] == s.taken;
  }

  lemma RxStepInv(s: RxState, step: RxStep)
    requires RxInv(s) && RxEnabled(s, step)
    ensures RxInv(RxDo(s, step))
  {
    StepInv(s.ring, RingStep(s, step));
    match step {
      case Plain(st) => PlainKeepsHistory(s, st);
      case TakeUnit(newBuf) =>
        TakeKeepsHistory(s, newBuf);
        TakeConserves(s, newBuf);
      case Misaligned(buf) => SpareConserves(s, buf, step);
      case MapFailed(buf) => SpareConserves(s, buf, step);
    }
    hide Inv, History, Conserved;
  }

  lemma {:induction false} RxReachesInv(s: RxState, steps: seq<RxStep>, t: RxState)
    requires RxInv(s) && RxReaches(s, steps, t)
    ensures RxInv(t)
    decreases |steps|
  {
    if steps != [] {
      var n := |steps| - 1;
      var mid :| RxReaches(s, steps[..n], mid) && RxEnabled(mid, steps[n]) && t == RxDo(mid, steps[n]);
      RxReachesInv(s, steps[..n], mid);
      RxStepInv(mid, steps[n]);
    }
  }

  /** The steps of a run determine where it leads. */
  lemma {:induction false} RxDeterministic(s: RxState, steps: seq<RxStep>, t: RxState, t': RxState)
    requires RxReaches(s, steps, t) && RxReaches(s, steps, t')
    ensures t == t'
    decreases |steps|
  {
    hide RxDo, RxEnabled;
    if steps != [] {
      var n := |steps| - 1;
      var mid :| RxReaches(s, steps[..n], mid) && RxEnabled(mid, steps[n]) && t == RxDo(mid, steps[n]);
      var mid' :| RxReaches(s, steps[..n], mid') && RxEnabled(mid', steps[n]) && t' == RxDo(mid', steps[n]);
      RxDeterministic(s, steps[..n], mid, mid');
    }
  }

  /** What has been written, taken, delivered and freed stays so. */
  ghost predicate RxExtends(s: RxState, t: RxState)
  {
    && s.ring.written <= t.ring.written && s.taken <= t.taken
    && s.asm.delivered <= t.asm.delivered && s.asm.freed <= t.asm.freed
  }

  lemma RxStepExtends(s: RxState, step: RxStep)
    requires RxEnabled(s, step)
    ensures RxExtends(s, RxDo(s, step))
  {
    hide Shape, After, Before, Fresh, FirstByte, UsesBudget, Current;
  }

  /** The history a run ends with is an extension of the one any part of it ends with. */
  lemma {:induction false} RxHistoryGrows(s0: RxState, steps: seq<RxStep>, s: RxState, more: seq<RxStep>, t: RxState)
    requires RxReaches(s0, steps, s) && RxReaches(s0, more, t) && steps <= more
    ensures RxExtends(s, t)
    decreases |more|
  {
    if more == steps {
      hide RxReaches;
      RxDeterministic(s0, steps, s, t);
    } else {
      hide RxDo, RxEnabled, RxExtends;
      var n := |more| - 1;
      var mid :| RxReaches(s0, more[..n], mid) && RxEnabled(mid, more[n]) && t == RxDo(mid, more[n]);
      RxHistoryGrows(s0, steps, s, more[..n], mid);
      RxStepExtends(mid, more[n]);
      RxExtendsOn(s, mid, t);
    }
  }

  lemma RxExtendsOn(s: RxState, mid: RxState, t: RxState)
    requires RxExtends(s, mid) && RxExtends(mid, t)
    ensures RxExtends(s, t)
  {
  }

  // Results about every run

  /** The run has a completion that no clearing of IRQDONE has followed. */
  predicate Latched(steps: seq<RxStep>)
  {
    steps != [] &&
    var last := steps[|steps| - 1];
    if last.Plain? && last.step.HwComplete? then true
    else if last.Plain? && (last.step.Advance? || last.step.ClearIrq?) then false
    else Latched(steps[..|steps| - 1])
  }

  /** The latch says so: it is set by nothing else, and cleared by nothing else. */
  lemma {:induction false} LatchFollowsRun(s0: RxState, steps: seq<RxStep>, s: RxState)
    requires RxInit(s0) && RxReaches(s0, steps, s)
    ensures s.ring.irq <==> Latched(steps)
    decreases |steps|
  {
    if steps != [] {
      var n := |steps| - 1;
      var mid :| RxReaches(s0, steps[..n], mid) && RxEnabled(mid, steps[n]) && s == RxDo(mid, steps[n]);
      LatchFollowsRun(s0, steps[..n], mid);
      LatchMoves(mid, steps[n]);
    }
  }

  lemma LatchMoves(s: RxState, step: RxStep)
    requires RxEnabled(s, step)
    ensures RxDo(s, step).ring.irq ==
              if step.Plain? && step.step.HwComplete? then true
              else if step.Plain? && (step.step.Advance? || step.step.ClearIrq?) then false
              else s.ring.irq
  {
    hide Shape, After, Before, Fresh, FirstByte, UsesBudget, Current, Process, Min;
  }

  /** The stream of units the engine has completed, paired with the buffers they
      were taken in, delivers its frames in arrival order, whatever the
      interleaving, the number of polls and their budgets. */
  lemma RxDelivery(s0: RxState, steps: seq<RxStep>, s: RxState)
    requires RxInit(s0) && RxReaches(s0, steps, s)
    ensures |s.taken| <= |s.ring.written|
    ensures forall k :: 0 <= k < |s.taken| ==> s.taken[k].unit == s.ring.written[k]
    ensures s.asm.delivered == Frames(s.taken)
    ensures s.asm.packets == |Frames(s.taken)|
    ensures s.asm.bytes == TotalLength(Frames(s.taken))
    ensures s.asm.errors == Faults(s.taken)
    ensures |s.asm.prev| == HeldLength(s.taken) <= PREV_RX_SKB_NUM - 1
  {
    RxInitInv(s0);
    RxReachesInv(s0, steps, s);
    DeliversFrames(s.taken);
    HoldsSuffix(s.taken);
  }

  lemma {:induction false} RxStarving(s: RxState, steps: seq<RxStep>, t: RxState)
    requires RxInv(s) && Starving(s.ring) && RxReaches(s, steps, t)
    ensures RxInv(t) && Starving(t.ring)
    decreases |steps|
  {
    if steps != [] {
      var n := |steps| - 1;
      var mid :| RxReaches(s, steps[..n], mid) && RxEnabled(mid, steps[n]) && t == RxDo(mid, steps[n]);
      hide RxReaches, RxInv, Starving, Do, Enabled;
      RxStarving(s, steps[..n], mid);
      RxStepInv(mid, steps[n]);
      RxStarvingStep(mid, steps[n]);
    }
  }

  lemma RxStarvingStep(s: RxState, step: RxStep)
    requires RxInv(s) && Starving(s.ring) && RxEnabled(s, step)
    ensures Starving(RxDo(s, step).ring)
  {
    hide Inv, Starving, Do, Enabled, History, Conserved, Process, UsesBudget;
    StarvingStep(s.ring, RingStep(s, step));
  }

  lemma RunFacts(s0: RxState, steps: seq<RxStep>, s: RxState)
    requires RxInit(s0) && RxReaches(s0, steps, s)
    ensures RxInv(s) && Starving(s.ring)
  {
    hide RxReaches, RxInv;
    RxInitInv(s0);
    RxStarving(s0, steps, s);
  }

  /** Idle with no interrupt latched, the engine runs, and a completed unit is
      missing exactly when the last poll ended on a failed allocation. */
  lemma RxNothingLost(s0: RxState, steps: seq<RxStep>, s: RxState)
    requires RxInit(s0) && RxReaches(s0, steps, s)
    requires s.ring.pc == Idle && !s.ring.irq
    ensures |s.taken| < |s.ring.written| <==> s.ring.starved
    ensures !s.ring.eng.Halted?
  {
    hide RxReaches;
    RunFacts(s0, steps, s);
  }

  /** While the poll is idle, something needs it - a completed unit or a halted
      engine - and no interrupt can be taken for it, exactly when the last poll
      ended on a failed allocation and no unit has been completed since. */
  lemma RxNeverStalls(s0: RxState, steps: seq<RxStep>, s: RxState)
    requires RxInit(s0) && RxReaches(s0, steps, s)
    requires s.ring.pc == Idle
    ensures s.ring.enabled
    ensures (|s.ring.written| > s.ring.done || s.ring.eng.Halted?) && !RxEnabled(s, Plain(Interrupt))
            <==> s.ring.starved && !s.ring.irq
  {
    hide RxReaches;
    RunFacts(s0, steps, s);
  }

  /** Every buffer ever allocated is in exactly one place: the ring, held for an
      unfinished frame, delivered, freed, or abandoned by the misalignment branch. */
  lemma RxBuffersConserved(s0: RxState, steps: seq<RxStep>, s: RxState)
    requires RxInit(s0) && RxReaches(s0, steps, s)
    ensures multiset(s.ring.drvBuf) + Whereabouts(s.asm) + multiset(s.leaked) + multiset(s.unmapped)
         == multiset(s.ring.mem.Keys)
    ensures |s.ring.drvBuf| == N && forall i, j :: 0 <= i < j < N ==> s.ring.drvBuf[i] != s.ring.drvBuf[j]
  {
    RxInitInv(s0);
    RxReachesInv(s0, steps, s);
    FeedConserves(s.taken);
  }

  /** The value a poll returns never exceeds its budget. */
  lemma RxReturnsWithinBudget(s0: RxState, steps: seq<RxStep>, s: RxState)
    requires RxInit(s0) && RxReaches(s0, steps, s)
    requires s.ring.pc.Return?
    ensures s.ring.pc.count <= s.ring.budget
  {
    RxInitInv(s0);
    RxReachesInv(s0, steps, s);
  }

  // What a poll counts

  /** How the count of the poll stands to what has been delivered and aborted since
      the poll began with `before` taken: equal, except that a restart of the engine
      with the whole budget used up gives one of it back. */
  ghost predicate Counted(s: RxState, before: seq<Skb>)
  {
    var cost := Cost(s.taken) - Cost(before);
    match s.ring.pc
    case Idle => true
    case Scheduled => true
    case Complete => true
    case Return(c) => c == cost || (c == s.ring.budget - 1 && cost == s.ring.budget)
    case pc => pc.count == cost
  }

  /** In every run, from the beginning of a poll to its return, its count is the
      number of frames it delivered plus that of the statuses it saw that failed or
      came too late. */
  lemma {:induction false} RxCounts(s: RxState, steps: seq<RxStep>, t: RxState)
    requires RxInv(s) && s.ring.pc == Loop(0) && RxReaches(s, steps, t)
    requires forall i :: 0 <= i < |steps| ==> !(steps[i].Plain? && steps[i].step.PollStart?)
    ensures RxInv(t) && Counted(t, s.taken)
    decreases |steps|
  {
    if steps != [] {
      var n := |steps| - 1;
      var mid :| RxReaches(s, steps[..n], mid) && RxEnabled(mid, steps[n]) && t == RxDo(mid, steps[n]);
      hide RxReaches, RxInv, Counted, RxDo, RxEnabled;
      RxCounts(s, steps[..n], mid);
      RxStepInv(mid, steps[n]);
      CountedStep(mid, steps[n], s.taken);
    }
  }

  lemma CountedStep(s: RxState, step: RxStep, before: seq<Skb>)
    requires RxInv(s) && Counted(s, before) && RxEnabled(s, step) && !(step.Plain? && step.step.PollStart?)
    ensures Counted(RxDo(s, step), before)
  {
    hide Inv, Do, Enabled, RxEnabled, Conserved, Cost, UsesBudget, Process, Current;
    CountMoves(s, step);
    WithinBudget(s);
    if step.TakeUnit? { TakenCosts(s, step.newBuf); }
  }

  lemma TakenCosts(s: RxState, newBuf: nat)
    requires RxInv(s) && RxEnabled(s, TakeUnit(newBuf))
    ensures Shape(s.ring)
    ensures Cost(s.taken + [Current(s)]) == Cost(s.taken) + if UsesBudget(s.asm, Current(s)) then 1 else 0
  {
    hide Inv, Enabled, Conserved, Cost, UsesBudget, Current;
    CostsOne(s.taken, Current(s));
  }

  lemma WithinBudget(s: RxState)
    requires RxInv(s)
    ensures s.ring.pc.Restart? ==> s.ring.pc.count <= s.ring.budget
  {
    hide History, Conserved, Core;
  }

  predicate Counting(pc: Pc) { !pc.Idle? && !pc.Scheduled? && !pc.Complete? }

  /** Taking a unit moves the count of the poll; the other steps keep it, except
      for a restart and for leaving. */
  lemma CountMoves(s: RxState, step: RxStep)
    requires RxEnabled(s, step) && !(step.Plain? && step.step.PollStart?)
    ensures
      var pc, t := s.ring.pc, Do(s.ring, RingStep(s, step));
      && t.budget == s.ring.budget
      && if step.TakeUnit? then
           pc.Ready? && t.pc == Swapped(pc.count + if UsesBudget(s.asm, Current(s)) then 1 else 0)
         else if RingStep(s, step).RestartDma? then
           pc.Restart? && t.pc == Return(Min(pc.count, s.ring.budget - 1))
         else
           || t.pc == pc || !Counting(t.pc)
           || (Counting(pc) && !pc.Return? && Counting(t.pc) && t.pc.count == pc.count)
  {
    hide Do, UsesBudget, Process, Current;
    PcMoves(s.ring, RingStep(s, step));
  }

  lemma PcMoves(r: State<Wu>, step: Step<Wu>)
    requires Enabled(r, step) && !step.PollStart?
    ensures
      var t := Do(r, step);
      && t.budget == r.budget
      && if step.Take? then
           r.pc.Ready? && t.pc == Swapped(r.pc.count + if step.counts then 1 else 0)
         else if step.RestartDma? then
           r.pc.Restart? && t.pc == Return(Min(r.pc.count, r.budget - 1))
         else
           || t.pc == r.pc || !Counting(t.pc)
           || (Counting(r.pc) && !r.pc.Return? && Counting(t.pc) && t.pc.count == r.pc.count)
  {
    hide FirstByte, Before, After, Fresh, Shape;
  }

  // Poll termination

  ghost function Completions(steps: seq<RxStep>): nat
  {
    if steps == [] then 0
    else
      var last := steps[|steps| - 1];
      Completions(steps[..|steps| - 1]) + if last.Plain? && last.step.HwComplete? then 1 else 0
  }

  /** A step of the poll in which an allocation fails. */
  ghost predicate Fails(step: RxStep)
  {
    step.Misaligned? || step.MapFailed? || (step.Plain? && step.step.AllocFail?)
  }

  ghost function Failures(steps: seq<RxStep>): nat
  {
    if steps == [] then 0
    else Failures(steps[..|steps| - 1]) + if Fails(steps[|steps| - 1]) then 1 else 0
  }

  ghost predicate OfPoll(step: RxStep)
  {
    step.TakeUnit? || (step.Plain? && PollStep(step.step))
  }

  ghost predicate OfEngine(step: RxStep)
  {
    step.Plain? && (step.step.HwFetch? || step.step.HwBegin? || step.step.HwComplete?)
  }

  ghost function PollSteps(steps: seq<RxStep>): nat
  {
    if steps == [] then 0
    else
      var last := steps[|steps| - 1];
      PollSteps(steps[..|steps| - 1]) + if OfPoll(last) || Fails(last) then 1 else 0
  }

  lemma WrittenGrows(s: State<Wu>, step: Step<Wu>)
    requires Enabled(s, step)
    ensures |Do(s, step).written| == |s.written| + if step.HwComplete? then 1 else 0
  {
    hide FirstByte, Before, After, Fresh, Min, Shape;
  }

  lemma {:induction false} CompletionsAreWritten(s: RxState, steps: seq<RxStep>, t: RxState)
    requires RxReaches(s, steps, t)
    ensures |t.ring.written| == |s.ring.written| + Completions(steps)
    decreases |steps|
  {
    if steps != [] {
      var n := |steps| - 1;
      var mid :| RxReaches(s, steps[..n], mid) && RxEnabled(mid, steps[n]) && t == RxDo(mid, steps[n]);
      CompletionsAreWritten(s, steps[..n], mid);
      hide RxReaches, Do, Enabled;
      WrittenGrows(mid.ring, RingStep(mid, steps[n]));
    }
  }

  /** However it is scheduled, the driver handles at most the units waiting (no
      more than N) plus the units the engine completes meanwhile. */
  lemma RxHandledBound(s: RxState, steps: seq<RxStep>, t: RxState)
    requires RxInv(s) && RxReaches(s, steps, t)
    ensures |t.taken| - |s.taken| <= N + Completions(steps)
  {
    RxReachesInv(s, steps, t);
    CompletionsAreWritten(s, steps, t);
  }

  /** A poll ends if finitely many allocations fail: while F of them do and the
      engine completes K units it takes at most 16 N + 31 + 32 K + 6 F steps, the
      backward jump included. */
  lemma {:induction false} RxPollTerminates(s: RxState, steps: seq<RxStep>, t: RxState)
    requires RxInv(s) && RxReaches(s, steps, t)
    requires forall i :: 0 <= i < |steps| ==> OfPoll(steps[i]) || Fails(steps[i]) || OfEngine(steps[i])
    ensures PollSteps(steps) + Effort(t.ring) <= Effort(s.ring) + 32 * Completions(steps) + 6 * Failures(steps)
    ensures PollSteps(steps) <= 16 * N + 31 + 32 * Completions(steps) + 6 * Failures(steps)
    decreases |steps|
  {
    hide RxInv;
    EffortRange(s);
    RxReachesInv(s, steps, t);
    EffortRange(t);
    if steps != [] {
      var n := |steps| - 1;
      var mid :| RxReaches(s, steps[..n], mid) && RxEnabled(mid, steps[n]) && t == RxDo(mid, steps[n]);
      hide RxReaches;
      RxPollTerminates(s, steps[..n], mid);
      RxReachesInv(s, steps[..n], mid);
      EffortChange(mid, steps[n]);
    }
  }

  lemma EffortRange(s: RxState)
    requires RxInv(s)
    ensures 0 <= Effort(s.ring) <= 16 * N + 31
  {
    hide Inv, Effort;
    EffortBounds(s.ring);
  }

  lemma EffortChange(s: RxState, step: RxStep)
    requires RxInv(s) && RxEnabled(s, step) && (OfPoll(step) || Fails(step) || OfEngine(step))
    ensures Effort(RxDo(s, step).ring) + (if OfPoll(step) || Fails(step) then 1 else 0)
         <= Effort(s.ring) + (if step.Plain? && step.step.HwComplete? then 32 else 0)
                           + if Fails(step) then 6 else 0
  {
    if Fails(step) {
      FailureEffort(s.ring, RingStep(s, step));
    } else if OfPoll(step) {
      PollStepShrinks(s.ring, RingStep(s, step));
    } else {
      EngineStepGrows(s.ring, RingStep(s, step));
    }
  }

  lemma FailureEffort(s: State<Wu>, step: Step<Wu>)
    requires Enabled(s, step) && step.AllocFail?
    ensures Effort(Do(s, step)) + 1 <= Effort(s) + 6
  {
  }
}
