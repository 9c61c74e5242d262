/** Stopping and waking the queue.

    adi_msp_status evaluates the wake condition and wakes the queue without
    lp->lock, so its steps can fall between the moment a send decides to stop
    the queue and the end of that send.  This module says exactly which steps
    then do harm; module WakeRuns has runs in which they do.  The network core does not
    call the driver while the queue is stopped. */
module WakeRace {
  import opened Ring
  import opened RingProofs
  import opened TxTags
  import opened TxChain
  import opened TxPath
  import opened TxProofs
  import opened TxResults

  /** Room for another frame, and a free tag of each class. */
  predicate Room(s: TxState)
  {
    s.count < N && s.ptp.available >= 1 && s.nonptp.available >= 1
  }

  /** The status poll is about to evaluate the wake condition, or has found it true. */
  predicate AboutToLook(sub: Sub)
  {
    sub.Uncounted? || sub.Returned? || sub.Recorded? || (sub.Looked? && sub.wake)
  }

  /** What the driver relies on whenever no send is in progress: a running queue
      never has to drop for want of room, and a stopped one will be looked at. */
  predicate Sound(s: TxState)
  {
    && (!s.stopped ==> Room(s))
    && (s.stopped ==> s.count >= 1 || AboutToLook(s.sub))
  }

  /** The network core passes no packet to a stopped queue. */
  predicate Lawful(s: TxState, step: TxStep)
  {
    step.Enter? ==> !s.stopped
  }

  /** A step that does no harm: a commit that leaves room if the queue runs, a
      drop that leaves a stopped queue with something to wake it, and a wake-up
      whose condition still holds. */
  predicate Harmless(s: TxState, step: TxStep)
  {
    match step
    case Commit => s.sender.Tagged? ==>
      s.stopped || (s.count + 1 < N && PoolFor(s, s.sender.skb.ptp).available >= 1)
    case Abandon => s.stopped ==> s.count >= 1 || AboutToLook(s.sub)
    case WakeUp => s.sub.Looked? && s.sub.wake && s.sender.Away? ==> Room(s)
    case _ => true
  }

  /** Sound when no send is in progress, and what makes it so again at the end of one. */
  predicate Serene(s: TxState)
  {
    && (s.sub.Looked? && s.sub.wake ==> s.stopped)
    && match s.sender
       case Away => Sound(s)
       case Checked(_) => !s.stopped && Room(s)
       case MustStop(_) => !s.stopped && Room(s)
       case Preparing(packet, stopping) =>
         if stopping then !s.stopped || (s.sub.Looked? && s.sub.wake) ==> Room(s)
         else !s.stopped && Room(s) && s.count < N - STOP_QUEUE_TH
              && PoolFor(s, packet.ptp).available > STOP_QUEUE_TH
       case Tagged(skb, stopping) =>
         if stopping then !s.stopped || (s.sub.Looked? && s.sub.wake) ==>
           s.count < N && PoolFor(s, !skb.ptp).available >= 1
         else !s.stopped && Room(s) && s.count < N - STOP_QUEUE_TH
  }

  /** A pool that is nearly used up has frames of its class outstanding. */
  lemma LowPoolHasWork(p: Pool, isPtp: bool, frames: seq<TxSkb>, returned: nat, recorded: nat)
    requires returned <= |frames| && recorded <= |frames|
    requires PoolOk(p, isPtp, frames, returned, recorded)
    requires p.available <= STOP_QUEUE_TH
    ensures |frames| - returned >= 3
  {
    CountOfMonotone(frames, isPtp, returned, |frames|);
  }

  /** If the ring or a pool is nearly used up, frames are outstanding. */
  lemma NearlyFullHasWork(s: TxState, isPtp: bool)
    requires TxInv(s) && NearlyFull(s, isPtp)
    ensures s.count >= 1
  {
    hide Inv, ChainOk, TableOk, PoolOk, Ids, LedgerOk, StatusesOk, ChainServed;
    if PoolFor(s, isPtp).available <= STOP_QUEUE_TH {
      LowPoolHasWork(PoolFor(s, isPtp), isPtp, Reserved(s), Upto(s, 3), Upto(s, 4));
    }
  }

  lemma BlockedHasWork(s: TxState)
    requires TxInv(s) && !MayWake(s)
    ensures s.count >= 1
  {
    hide TxInv;
    if s.ptp.available < STOP_QUEUE_TH { NearlyFullHasWork(s, true); }
    if s.nonptp.available < STOP_QUEUE_TH { NearlyFullHasWork(s, false); }
  }

  lemma CountNotNegative(s: TxState)
    requires TxInv(s)
    ensures s.count >= 0
  {
    hide Inv, ChainOk, TableOk, PoolsOk, Ids, LedgerOk, StatusesOk, ChainServed;
  }

  /** The wake condition holds exactly when no packet but one that is too long would
      be dropped: the queue is woken neither early nor late. */
  lemma WakesWhenNoneDropped(s: TxState)
    requires TxInv(s)
    ensures MayWake(s) <==> forall packet :: Drops(s, packet) <==> packet.length > 65535
  {
    hide Inv, ChainOk, TableOk, Ids, LedgerOk, StatusesOk, ChainServed;
    var plain, timed := Packet(0, false, 0), Packet(0, true, 0);
    assert Drops(s, plain) <==> s.count >= N || s.nonptp.available == 0;
    assert Drops(s, timed) <==> s.count >= N || s.ptp.available == 0;
  }

  /** A send stops the queue exactly when, uninterrupted, it would leave no room for
      another packet of its class. */
  lemma StopsWhenLast(s: TxState)
    requires TxShape(s) && s.sender.Checked? && PoolFor(s, s.sender.packet.ptp).available > 0
    ensures
      var packet := s.sender.packet;
      var after := DoCommit(DoTakeTag(s.(sender := Preparing(packet, false))));
      NearlyFull(s, packet.ptp)
      <==> exists next: Packet :: next.ptp == packet.ptp && next.length <= 65535 && Drops(after, next)
  {
    hide Shape, ChainShape, Append;
    var packet := s.sender.packet;
    var after := DoCommit(DoTakeTag(s.(sender := Preparing(packet, false))));
    var next := Packet(0, packet.ptp, 0);
    assert Drops(after, next) <==> after.count >= N || PoolFor(after, packet.ptp).available == 0;
  }

  /** The step keeps the queue serene exactly if it is harmless; if not, it ends
      a send, or wakes the queue, in an unsound state. */
  ghost predicate Decides(s: TxState, step: TxStep)
    requires TxEnabled(s, step)
  {
    && (Serene(TxDo(s, step)) <==> Harmless(s, step))
    && (!Harmless(s, step) ==> TxDo(s, step).sender.Away? && !Sound(TxDo(s, step)))
  }

  predicate OfSender(step: TxStep)
  {
    step.Enter? || step.Threshold? || step.StopQueue? || step.Abandon? || step.TakeTag? || step.Commit?
  }

  predicate OfPoller(step: TxStep)
  {
    step.Uncount? || step.ReturnTag? || step.RecordTag? || step.Look? || step.WakeUp?
  }

  lemma SenderDecides(s: TxState, step: TxStep)
    requires TxInv(s) && Serene(s) && TxEnabled(s, step) && Lawful(s, step) && OfSender(step)
    ensures Decides(s, step)
  {
    hide TxInv, Shape, ChainShape, Append;
    CountNotNegative(s);
  }

  lemma PollerDecides(s: TxState, step: TxStep)
    requires TxInv(s) && Serene(s) && TxEnabled(s, step) && OfPoller(step)
    ensures Decides(s, step)
  {
    hide TxInv, Serene;
    CountNotNegative(s);
    if step.Look? || step.WakeUp? {
      if !MayWake(s) { BlockedHasWork(s); }
      LookDecides(s, step);
    } else {
      MakesRoom(s, step);
    }
  }

  lemma LookDecides(s: TxState, step: TxStep)
    requires Serene(s) && TxEnabled(s, step) && (step.Look? || step.WakeUp?) && (!MayWake(s) ==> s.count >= 1)
    ensures Decides(s, step)
  {
    hide TxShape;
  }

  /** The other steps of the poll only make room, and are on the way to the look. */
  lemma MakesRoom(s: TxState, step: TxStep)
    requires Serene(s) && TxEnabled(s, step) && s.count >= 0
    requires step.Uncount? || step.ReturnTag? || step.RecordTag?
    ensures Decides(s, step)
  {
    hide Shape, ChainShape, NeedsReset, CurrentStatus, HasPtp;
  }

  lemma OthersDecide(s: TxState, step: TxStep)
    requires TxInv(s) && Serene(s) && TxEnabled(s, step) && !OfSender(step) && !OfPoller(step)
    ensures Decides(s, step)
  {
    hide TxInv, Shape, ChainShape, Do, Enabled, RingEnabled, NeedsReset, CurrentStatus, HasPtp, HasError;
    CountNotNegative(s);
    ResetUnreachable(s);
  }

  /** Every lawful step does one or the other. */
  lemma SereneStep(s: TxState, step: TxStep)
    requires TxInv(s) && Serene(s) && TxEnabled(s, step) && Lawful(s, step)
    ensures Serene(TxDo(s, step)) <==> Harmless(s, step)
    ensures !Harmless(s, step) ==> TxDo(s, step).sender.Away? && !Sound(TxDo(s, step))
  {
    hide TxInv, TxEnabled, TxDo, Serene, Harmless, Sound, Lawful;
    if OfSender(step) {
      SenderDecides(s, step);
    } else if OfPoller(step) {
      PollerDecides(s, step);
    } else {
      OthersDecide(s, step);
    }
  }

  // Runs

  ghost predicate Follows(states: seq<TxState>, steps: seq<TxStep>, i: nat)
    requires i < |steps| && i + 1 < |states|
  {
    TxEnabled(states[i], steps[i]) && Lawful(states[i], steps[i]) && states[i + 1] == TxDo(states[i], steps[i])
  }

  ghost predicate Run(states: seq<TxState>, steps: seq<TxStep>)
  {
    && |states| == |steps| + 1
    && TxInit(states[0])
    && forall i :: 0 <= i < |steps| ==> Follows(states, steps, i)
  }

  lemma {:induction false} RunKeeps(states: seq<TxState>, steps: seq<TxStep>, k: nat)
    requires Run(states, steps) && k <= |steps|
    ensures TxReaches(states[0], steps[..k], states[k]) && TxInv(states[k])
  {
    hide TxInv, TxDo, TxEnabled, TxInit;
    if k == 0 {
      TxInitInv(states[0]);
      assert steps[..0] == [];
    } else {
      RunKeeps(states, steps, k - 1);
      assert Follows(states, steps, k - 1);
      TxStepInv(states[k - 1], steps[k - 1]);
      TxReachesMore(states[0], steps[..k - 1], states[k - 1], steps[k - 1]);
      assert steps[..k] == steps[..k - 1] + [steps[k - 1]];
    }
  }

  /** A state that some run of the transmit path ends in. */
  ghost predicate Reached(s: TxState)
  {
    exists states, steps :: Run(states, steps) && states[|steps|] == s
  }

  lemma ReachedInv(s: TxState)
    requires Reached(s)
    ensures TxInv(s) && TxShape(s)
  {
    hide TxInv, TxShape, TxReaches, Follows, TxInit;
    var states, steps :| Run(states, steps) && states[|steps|] == s;
    RunKeeps(states, steps, |steps|);
    ShapeFromInv(s);
  }

  lemma ShapeFromInv(s: TxState)
    requires TxInv(s)
    ensures TxShape(s)
  {
    hide StatusesOk, PoolsOk, LedgerOk, ChainServed, SenderOk, Progress;
  }

  lemma ReachedMore(s: TxState, step: TxStep)
    requires Reached(s) && TxEnabled(s, step) && Lawful(s, step)
    ensures Reached(TxDo(s, step))
  {
    hide TxDo, TxEnabled, TxInit;
    var states, steps :| Run(states, steps) && states[|steps|] == s;
    var states', steps' := states + [TxDo(s, step)], steps + [step];
    forall i | 0 <= i < |steps'|
      ensures Follows(states', steps', i)
    {
      if i < |steps| { assert Follows(states, steps, i); }
    }
    assert states'[|steps'|] == TxDo(s, step);
  }

  lemma StartReached(s: TxState)
    requires TxInit(s)
    ensures Reached(s)
  {
    hide TxInit;
    assert Run([s], []) && [s][0] == s;
  }

  /** If the first k steps are harmless, the queue is serene all along. */
  lemma {:induction false} HarmlessIsSerene(states: seq<TxState>, steps: seq<TxStep>, k: nat)
    requires Run(states, steps) && k <= |steps|
    requires forall i :: 0 <= i < k ==> Harmless(states[i], steps[i])
    ensures Serene(states[k])
  {
    hide TxInv, TxDo, TxEnabled, TxReaches, Harmless;
    if k == 0 {
      StartIsSerene(states[0]);
    } else {
      HarmlessIsSerene(states, steps, k - 1);
      RunKeeps(states, steps, k - 1);
      assert Follows(states, steps, k - 1);
      SereneStep(states[k - 1], steps[k - 1]);
    }
  }

  lemma StartIsSerene(s: TxState)
    requires TxInit(s)
    ensures Serene(s)
  {
    hide Init, EmptyChain;
  }

  /** In a run of the transmit path, the queue is sound whenever no send is in
      progress if and only if every step is harmless. */
  lemma SoundIffHarmless(states: seq<TxState>, steps: seq<TxStep>)
    requires Run(states, steps)
    ensures (forall i :: 0 <= i < |states| && states[i].sender.Away? ==> Sound(states[i]))
            <==> (forall i :: 0 <= i < |steps| ==> Harmless(states[i], steps[i]))
  {
    hide TxInv, TxDo, TxEnabled, TxReaches, Harmless, Sound, Run;
    RunLength(states, steps);
    if forall i :: 0 <= i < |steps| ==> Harmless(states[i], steps[i]) {
      forall i | 0 <= i < |states| && states[i].sender.Away?
        ensures Sound(states[i])
      {
        HarmlessIsSerene(states, steps, i);
      }
    } else {
      var k := FirstHarm(states, steps);
      HarmlessIsSerene(states, steps, k);
      RunKeeps(states, steps, k);
      RunStep(states, steps, k);
      SereneStep(states[k], steps[k]);
      assert states[k + 1].sender.Away? && !Sound(states[k + 1]);
    }
  }

  lemma RunLength(states: seq<TxState>, steps: seq<TxStep>)
    requires Run(states, steps)
    ensures |states| == |steps| + 1
  {
  }

  lemma RunStep(states: seq<TxState>, steps: seq<TxStep>, k: nat)
    requires Run(states, steps) && k < |steps|
    ensures |states| == |steps| + 1 && Follows(states, steps, k)
  {
  }

  lemma FirstHarm(states: seq<TxState>, steps: seq<TxStep>) returns (k: nat)
    requires |states| == |steps| + 1
    requires !forall i :: 0 <= i < |steps| ==> Harmless(states[i], steps[i])
    ensures k < |steps| && !Harmless(states[k], steps[k])
    ensures forall i :: 0 <= i < k ==> Harmless(states[i], steps[i])
  {
    k := 0;
    while Harmless(states[k], steps[k])
      invariant k < |steps| && forall i :: 0 <= i < k ==> Harmless(states[i], steps[i])
      decreases |steps| - k
    {
      k := k + 1;
    }
  }

  /** A running queue whose run has been harmless drops only packets that are too
      long; a stopped one has a frame out whose completion evaluates the wake
      condition, or the poll is about to evaluate it. */
  lemma QueueNeverStuck(states: seq<TxState>, steps: seq<TxStep>, k: nat)
    requires Run(states, steps) && k <= |steps| && states[k].sender.Away?
    requires forall i :: 0 <= i < k ==> Harmless(states[i], steps[i])
    ensures !states[k].stopped ==> forall packet :: Drops(states[k], packet) <==> packet.length > 0xffff
    ensures states[k].stopped ==> states[k].count >= 1 || AboutToLook(states[k].sub)
  {
    hide TxInv, TxReaches, Harmless, Run, TxInit;
    HarmlessIsSerene(states, steps, k);
  }

  /** Once everything is settled, the queue runs. */
  lemma QuiescentRuns(states: seq<TxState>, steps: seq<TxStep>, k: nat)
    requires Run(states, steps) && k <= |steps| && states[k].sender.Away?
    requires forall i :: 0 <= i < k ==> Harmless(states[i], steps[i])
    requires states[k].ring.pc == Idle && !states[k].ring.irq
    requires states[k].chain.eng.TxHalted? && |states[k].ring.written| == states[k].chain.read
    ensures !states[k].stopped
  {
    hide TxReaches, Harmless, Inv, ChainOk, TableOk, PoolsOk, LedgerOk, StatusesOk, TxDo, TxEnabled;
    HarmlessIsSerene(states, steps, k);
    RunKeeps(states, steps, k);
    TxQuiescentMeansDone(states[0], steps[..k], states[k]);
  }

  // A sufficient condition

  /** A send has decided to stop the queue and is not over. */
  predicate Exposed(s: TxState)
  {
    s.sender.MustStop? || (s.sender.Preparing? && s.sender.stopping) || (s.sender.Tagged? && s.sender.stopping)
  }

  /** The steps of the status poll that change or read what a send looks at. */
  predicate Touches(step: TxStep)
  {
    step.Uncount? || step.ReturnTag? || step.Look? || step.WakeUp?
  }

  /** Serene, and nothing has come between the decision to stop the queue and now. */
  predicate Calm(s: TxState)
  {
    && Serene(s)
    && match s.sender
       case Away => s.sub.Looked? && s.sub.wake ==> Room(s)
       case MustStop(packet) => NearlyFull(s, packet.ptp)
       case Preparing(_, stopping) => stopping ==> s.stopped && s.count >= 1 && !(s.sub.Looked? && s.sub.wake)
       case Tagged(_, stopping) => stopping ==> s.stopped && !(s.sub.Looked? && s.sub.wake)
       case _ => true
  }

  lemma CalmStep(s: TxState, step: TxStep)
    requires TxInv(s) && Calm(s) && TxEnabled(s, step) && Lawful(s, step)
    requires Exposed(s) ==> !Touches(step)
    ensures Harmless(s, step) && Calm(TxDo(s, step))
  {
    hide TxInv, Shape, ChainShape, Do, Enabled, Append, NeedsReset, CurrentStatus, HasPtp, HasError, Sound;
    SereneStep(s, step);
    if s.sender.MustStop? { NearlyFullHasWork(s, s.sender.packet.ptp); }
    ResetUnreachable(s);
  }

  /** A run in which those steps keep out of that window is harmless, so it is
      sound whenever no send is in progress. */
  lemma {:induction false} ShieldedIsHarmless(states: seq<TxState>, steps: seq<TxStep>, k: nat)
    requires Run(states, steps) && k <= |steps|
    requires forall i :: 0 <= i < k && Exposed(states[i]) ==> !Touches(steps[i])
    ensures Calm(states[k])
    ensures forall i :: 0 <= i < k ==> Harmless(states[i], steps[i])
    ensures states[k].sender.Away? ==> Sound(states[k])
  {
    hide TxInv, TxDo, TxEnabled, TxReaches, Harmless;
    if k == 0 {
      StartIsSerene(states[0]);
    } else {
      ShieldedIsHarmless(states, steps, k - 1);
      RunKeeps(states, steps, k - 1);
      assert Follows(states, steps, k - 1);
      CalmStep(states[k - 1], steps[k - 1]);
    }
  }
}
