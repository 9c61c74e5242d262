/** Two runs of the transmit path in which the status poll does harm. */
module WakeRuns {
  import opened Ring
  import opened RingProofs
  import opened TxTags
  import opened TxChain
  import opened TxPath
  import opened TxProofs
  import opened WakeRace

  lemma Next(s: TxState, step: TxStep) returns (t: TxState)
    requires Reached(s) && TxEnabled(s, step) && Lawful(s, step)
    ensures t == TxDo(s, step) && Reached(t) && TxInv(t) && TxShape(t)
  {
    hide Reached, TxInv, TxDo, TxEnabled;
    ReachedMore(s, step);
    t := TxDo(s, step);
    ReachedInv(t);
  }

  // The pieces the runs are made of

  /** A packet is accepted without the queue being stopped. */
  lemma SendOne(s: TxState, packet: Packet) returns (t: TxState)
    requires Reached(s) && s.sender.Away? && !s.stopped && packet.length <= 0xffff
    requires s.count < N - STOP_QUEUE_TH && PoolFor(s, packet.ptp).available > STOP_QUEUE_TH
    ensures Reached(t) && t.sender.Away? && !t.stopped
    ensures t.ring == s.ring && t.sub == s.sub && t.kicked == s.kicked
    ensures t.count == s.count + 1
    ensures PoolFor(t, packet.ptp).available == PoolFor(s, packet.ptp).available - 1
    ensures PoolFor(t, !packet.ptp) == PoolFor(s, !packet.ptp)
    ensures |t.frames| == |s.frames| + 1 && t.frames[|s.frames|].ptp == packet.ptp && s.frames <= t.frames
    ensures t.chain.read == s.chain.read
    ensures s.chain.eng.TxHalted? && !s.chain.filled ==>
              t.chain.eng.TxFetching? && t.chain.handed == |t.frames| && !t.chain.filled
  {
    hide Reached, TxInv, Shape, Slot, After, Before;
    ReachedInv(s);
    t := Next(s, Enter(packet));
    t := Next(t, Threshold);
    t := Next(t, TakeTag);
    t := Next(t, Commit);
  }

  /** The Tx engine reads the next descriptor. */
  lemma Transmit(s: TxState) returns (t: TxState)
    requires Reached(s) && s.chain.eng.TxFetching?
    ensures Reached(t) && t == s.(chain := t.chain)
    ensures t.chain.read == s.chain.read + 1 && t.chain.handed == s.chain.handed
    ensures t.chain.filled == s.chain.filled
    ensures t.chain.read == t.chain.handed <==> t.chain.eng.TxHalted?
    ensures !t.chain.eng.TxHalted? ==> t.chain.eng.TxFetching?
  {
    hide Reached, TxInv, Shape;
    ReachedInv(s);
    t := Next(s, TxFetch);
    t := Next(t, TxFinish);
    HaltedMeansRead(t);
  }

  lemma HaltedMeansRead(s: TxState)
    requires TxInv(s)
    ensures s.chain.read == s.chain.handed <==> s.chain.eng.TxHalted?
  {
    hide ChainOk, StatusesOk, PoolsOk, LedgerOk, ChainServed, SenderOk, Progress, TableOk, Inv;
    ChainFacts(s.chain, s.frames);
  }

  /** A status work unit for a frame of a class. */
  function StatusFor(frame: TxSkb): Status
  {
    Status(if frame.ptp then 11 else 3, frame.tag)
  }

  lemma StatusForAnswers(frame: TxSkb)
    ensures Answers(StatusFor(frame), frame)
  {
  }

  /** The status engine writes the next status, not at the STOP marker. */
  lemma WriteStatus(s: TxState) returns (t: TxState)
    requires Reached(s) && |s.ring.written| < s.chain.read && s.chain.read <= |s.frames|
    requires s.ring.eng == Fetching && !Emptied(s.ring.pc)
    requires Completed(s.ring) + 1 < s.ring.done + N
    ensures Reached(t) && t == s.(ring := t.ring)
    ensures t.ring.pc == s.ring.pc && t.ring.eng == Fetching && t.ring.addr == None && t.ring.irq
    ensures t.ring.enabled == s.ring.enabled && t.ring.budget == s.ring.budget && t.ring.done == s.ring.done
    ensures |t.ring.written| == |s.ring.written| + 1
  {
    hide Reached, TxInv, Slot, After, Before, IsTxStatus, HasPtp;
    ReachedInv(s);
    RingNotAtStop(s);
    var st := StatusFor(s.frames[|s.ring.written|]);
    StatusForAnswers(s.frames[|s.ring.written|]);
    t := Next(s, OnRing(HwFetch));
    t := Next(t, OnRing(HwBegin));
    t := Next(t, OnRing(HwComplete(st, false)));
  }

  lemma RingNotAtStop(s: TxState)
    requires TxInv(s) && !Emptied(s.ring.pc) && Completed(s.ring) + 1 < s.ring.done + N
    ensures Shape(s.ring) && s.ring.flow[s.ring.cur] == Dscl
  {
    hide ChainOk, StatusesOk, PoolsOk, LedgerOk, ChainServed, SenderOk, Progress, TableOk;
    AwayFromStop(s.ring);
  }

  lemma AwayFromStop(r: State<Status>)
    requires Inv(r) && !Emptied(r.pc) && Completed(r) + 1 < r.done + N
    ensures r.flow[r.cur] == Dscl
  {
    assert r.flow[Slot(Completed(r))] == Marker(r, Completed(r));
  }

  lemma StartsPoll(s: TxState) returns (t: TxState)
    requires Reached(s) && s.ring.pc == Idle && s.ring.irq && s.ring.enabled
    ensures Reached(t)
    ensures t == s.(ring := s.ring.(pc := Loop(0), enabled := false, budget := 64, starved := false))
  {
    hide Reached, TxInv;
    ReachedInv(s);
    t := Next(s, OnRing(Interrupt));
    t := Next(t, OnRing(PollStart(64)));
  }

  /** The loop head finds the next status there and done with. */
  lemma FindsStatus(s: TxState) returns (t: TxState)
    requires Reached(s) && s.ring.pc.Loop? && s.ring.pc.count < s.ring.budget
    requires Completed(s.ring) > s.ring.done && s.ring.addr == None
    ensures Reached(t) && t == s.(ring := s.ring.(pc := Ready(s.ring.pc.count)))
  {
    hide Reached, TxInv, FirstByte;
    ReachedInv(s);
    Visible(s);
    t := Next(s, OnRing(ReadFirst));
    t := Next(t, OnRing(ReadAddr));
    t := Next(t, OnRing(ReadPrv));
  }

  lemma Visible(s: TxState)
    requires TxInv(s) && !Emptied(s.ring.pc)
    ensures Shape(s.ring)
    ensures FirstByte(s.ring) <==> s.ring.done < Completed(s.ring) || s.ring.eng.Writing?
    ensures s.ring.done <= Completed(s.ring)
  {
    hide ChainOk, StatusesOk, PoolsOk, LedgerOk, ChainServed, SenderOk, Progress, TableOk, Core, FirstByte;
    HeadFacts(s.ring);
  }

  /** The frame the poll is at leaves the table and the count. */
  lemma TakesOut(s: TxState) returns (t: TxState)
    requires Reached(s) && s.ring.pc.Ready? && s.sub.Untouched? && s.ring.done < |s.frames|
    ensures Reached(t) && TxInv(t) && TxShape(t) && t.sub.Uncounted?
    ensures t == s.(sub := t.sub, table := t.table, count := s.count - 1)
  {
    hide Reached, TxInv, Shape, ChainShape, NeedsReset, CurrentStatus, HasPtp, IsTxStatus;
    ReachedInv(s);
    NoReset(s);
    t := Next(s, Release);
    t := Next(t, Uncount);
  }

  /** And its pool. */
  lemma GivesBack(s: TxState) returns (t: TxState)
    requires Reached(s) && s.ring.pc.Ready? && s.sub.Untouched? && s.ring.done < |s.frames|
    ensures Reached(t) && t.sub.Recorded?
    ensures t == s.(sub := t.sub, table := t.table, count := s.count - 1, ptp := t.ptp, nonptp := t.nonptp)
    ensures
      var isPtp := s.frames[s.ring.done].ptp;
      && PoolFor(t, isPtp).available == PoolFor(s, isPtp).available + 1
      && PoolFor(t, !isPtp).available == PoolFor(s, !isPtp).available
  {
    hide Reached, TxInv, Shape, ChainShape, NeedsReset, CurrentStatus, HasPtp, IsTxStatus;
    t := TakesOut(s);
    NoReset(t);
    CurrentAnswers(t);
    t := Next(t, ReturnTag);
    NoReset(t);
    CurrentAnswers(t);
    t := Next(t, RecordTag);
  }

  /** The wake condition is evaluated and acted on as well. */
  lemma RetiresToWoken(s: TxState) returns (t: TxState)
    requires Reached(s) && s.ring.pc.Ready? && s.sub.Untouched? && s.ring.done < |s.frames|
    ensures Reached(t) && t.sub.Woken?
    ensures t == s.(sub := t.sub, table := t.table, count := s.count - 1, ptp := t.ptp, nonptp := t.nonptp,
                    stopped := t.stopped)
    ensures
      var isPtp := s.frames[s.ring.done].ptp;
      && PoolFor(t, isPtp).available == PoolFor(s, isPtp).available + 1
      && PoolFor(t, !isPtp).available == PoolFor(s, !isPtp).available
    ensures t.stopped == (s.stopped && !MayWake(t))
  {
    hide Reached, TxInv, TxShape, NeedsReset, CurrentStatus, HasPtp;
    t := GivesBack(s);
    ReachedInv(t);
    t := Next(t, Look);
    t := Next(t, WakeUp);
  }

  /** The frame is settled and its slot goes back to the status engine. */
  lemma Finishes(s: TxState) returns (t: TxState)
    requires Reached(s) && s.ring.pc.Ready? && s.sub.Woken?
    ensures Reached(t) && t.sub.Untouched? && t.ring.pc == Loop(s.ring.pc.count + 1)
    ensures t == s.(sub := Untouched, ring := t.ring, stats := t.stats, freed := t.freed)
    ensures t.ring.eng == s.ring.eng && t.ring.addr == s.ring.addr && !t.ring.irq && t.ring.budget == s.ring.budget
    ensures t.ring.written == s.ring.written && t.ring.done == s.ring.done + 1 && t.ring.enabled == s.ring.enabled
  {
    hide Reached, TxInv, NeedsReset, CurrentStatus, HasPtp, HasError, After, Before;
    ReachedInv(s);
    NoReset(s);
    t := Next(s, Settle);
    t := Next(t, Recycle);
    t := PutsBack(t);
  }

  lemma PutsBack(s: TxState) returns (t: TxState)
    requires Reached(s) && TxShape(s) && s.ring.pc.Swapped?
    ensures Reached(t) && t == s.(ring := t.ring) && t.ring.pc == Loop(s.ring.pc.count)
    ensures t.ring.eng == s.ring.eng && t.ring.addr == s.ring.addr && !t.ring.irq && t.ring.budget == s.ring.budget
    ensures t.ring.written == s.ring.written && t.ring.done == s.ring.done + 1 && t.ring.enabled == s.ring.enabled
  {
    hide Reached, TxInv, After, Before;
    t := Next(s, OnRing(WriteAddr));
    t := Next(t, OnRing(WriteStop));
    t := MovesOn(t);
  }

  lemma MovesOn(s: TxState) returns (t: TxState)
    requires Reached(s) && TxShape(s) && s.ring.pc.StopSet?
    ensures Reached(t) && t == s.(ring := t.ring) && t.ring.pc == Loop(s.ring.pc.count)
    ensures t.ring.eng == s.ring.eng && t.ring.addr == s.ring.addr && !t.ring.irq && t.ring.budget == s.ring.budget
    ensures t.ring.written == s.ring.written && t.ring.done == s.ring.done + 1 && t.ring.enabled == s.ring.enabled
  {
    hide Reached, TxInv, After, Before;
    t := Next(s, OnRing(LinkPrev));
    t := Next(t, OnRing(Advance));
  }

  /** The poll finds no further status, has nothing to start, and completes. */
  lemma PollEnds(s: TxState) returns (t: TxState)
    requires Reached(s) && s.ring.pc.Loop? && s.ring.pc.count < s.ring.budget && !s.kicked
    requires s.ring.eng == Fetching && Completed(s.ring) == s.ring.done
    requires s.sender.Away? && !(s.chain.eng.TxHalted? && s.chain.filled)
    ensures Reached(t) && t == s.(ring := t.ring)
    ensures t.ring.pc == Idle && t.ring.irq == s.ring.irq && t.ring.eng == Fetching
    ensures t.ring.written == s.ring.written && t.ring.done == s.ring.done
  {
    hide Reached, TxInv, FirstByte, Shape, ChainShape, After, Before;
    ReachedInv(s);
    Visible(s);
    t := Next(s, OnRing(ReadFirst));
    t := Next(t, KickChain);
    t := Leaves(t);
  }

  lemma Leaves(s: TxState) returns (t: TxState)
    requires Reached(s) && TxShape(s) && s.ring.pc.Check? && s.ring.pc.count < s.ring.budget && s.kicked
    requires s.ring.eng == Fetching
    ensures Reached(t)
    ensures t == s.(ring := s.ring.(pc := Idle, enabled := true), kicked := false)
  {
    hide Reached, TxInv, FirstByte, Shape, ChainShape, After, Before;
    t := Next(s, OnRing(ReadStat));
    t := Completes(t);
  }

  lemma Completes(s: TxState) returns (t: TxState)
    requires Reached(s) && TxShape(s) && s.ring.pc.Return? && s.ring.pc.count < s.ring.budget
    ensures Reached(t) && t == s.(ring := s.ring.(pc := Idle, enabled := true))
  {
    hide Reached, TxInv, FirstByte, Shape, ChainShape, After, Before;
    t := Next(s, OnRing(Leave));
    t := Next(t, OnRing(EnableIrq));
  }

  lemma StartFacts(s0: TxState)
    requires TxInit(s0)
    ensures Reached(s0) && s0.sender.Away? && !s0.stopped && s0.sub.Untouched? && !s0.kicked
    ensures s0.count == 0 && s0.ptp.available == Size(true) && s0.nonptp.available == Size(false)
    ensures s0.frames == [] && s0.chain.eng.TxHalted? && !s0.chain.filled && s0.chain.read == s0.chain.handed == 0
    ensures s0.ring.pc == Idle && s0.ring.eng == Fetching && s0.ring.enabled && !s0.ring.irq
    ensures s0.ring.written == [] && s0.ring.done == 0
  {
    StartReached(s0);
  }

  // The queue runs without a tag

  /** `k` PTP packets are accepted one after the other. */
  lemma {:induction false} SendPtp(s: TxState, k: nat) returns (t: TxState)
    requires Reached(s) && s.sender.Away? && !s.stopped
    requires s.count + k <= N - STOP_QUEUE_TH && s.ptp.available - k >= STOP_QUEUE_TH
    ensures Reached(t) && t.sender.Away? && !t.stopped
    ensures t.ring == s.ring && t.sub == s.sub && t.kicked == s.kicked && t.chain.read == s.chain.read
    ensures t.count == s.count + k && t.ptp.available == s.ptp.available - k && t.nonptp == s.nonptp
    ensures s.frames <= t.frames
  {
    t := s;
    if k > 0 {
      hide Reached;
      t := SendPtp(s, k - 1);
      t := SendOne(t, Packet(0, true, 0));
    }
  }

  /** A non-PTP frame and seven PTP frames are sent.  The next PTP send finds one
      tag left and stops the queue, the poll retires the non-PTP frame and wakes
      it, and the send takes the tag: the queue runs without a PTP tag, and the
      next PTP packet is dropped. */
  lemma RunningWithoutTag(s0: TxState) returns (states: seq<TxState>, steps: seq<TxStep>, t: TxState)
    requires TxInit(s0)
    ensures Run(states, steps) && states[|steps|] == t
    ensures t.sender.Away? && !t.stopped && t.ptp.available == 0
    ensures forall packet: Packet :: packet.ptp ==> Drops(t, packet)
  {
    hide Reached, TxInv, Run, TxInit, TxDo, TxEnabled;
    StartFacts(s0);
    t := SendOne(s0, Packet(0, false, 0));
    t := Transmit(t);
    t := SendPtp(t, Size(true) - 1);
    t := WriteStatus(t);
    t := StartsPoll(t);
    t := FindsStatus(t);
    t := StopAndTake(t);
    states, steps := AsRun(t);
  }

  lemma AsRun(t: TxState) returns (states: seq<TxState>, steps: seq<TxStep>)
    requires Reached(t)
    ensures Run(states, steps) && states[|steps|] == t
  {
    hide TxInit, Follows;
    states, steps :| Run(states, steps) && states[|steps|] == t;
  }

  /** The send of the last PTP tag, with the retirement of a non-PTP frame in its window. */
  lemma StopAndTake(s: TxState) returns (t: TxState)
    requires Reached(s) && s.sender.Away? && !s.stopped && s.ptp.available == 1 && s.nonptp.available >= 1
    requires 1 <= s.count < N && s.sub.Untouched?
    requires s.ring.pc.Ready? && s.ring.done < |s.frames| && !s.frames[s.ring.done].ptp
    ensures Reached(t) && t.sender.Away? && !t.stopped && t.ptp.available == 0
  {
    hide Reached, TxInv, Shape, Append;
    ReachedInv(s);
    var packet := Packet(0, true, 0);
    t := Next(s, Enter(packet));
    t := Next(t, Threshold);
    t := Next(t, StopQueue);
    t := RetiresToWoken(t);
    ReachedInv(t);
    t := Next(t, TakeTag);
    t := Next(t, Commit);
  }

  // The queue stays stopped for good

  /** One PTP packet is accepted, read by the Tx engine, and its status written. */
  lemma SendAndReport(s: TxState) returns (t: TxState)
    requires Reached(s) && s.sender.Away? && !s.stopped && s.ptp.available > STOP_QUEUE_TH
    requires s.count < N - STOP_QUEUE_TH
    requires s.chain.eng.TxHalted? && !s.chain.filled && s.chain.read == |s.frames| == |s.ring.written|
    requires s.ring.eng == Fetching && s.ring.pc == Idle && Completed(s.ring) + 1 < s.ring.done + N
    ensures Reached(t) && t.sender.Away? && !t.stopped && t.ptp.available == s.ptp.available - 1
    ensures t.count == s.count + 1 && t.sub == s.sub && t.kicked == s.kicked && t.nonptp == s.nonptp
    ensures t.chain.eng.TxHalted? && !t.chain.filled && t.chain.read == |t.frames| == |t.ring.written|
    ensures |t.ring.written| == |s.ring.written| + 1
    ensures t.ring.eng == Fetching && t.ring.pc == Idle && t.ring.done == s.ring.done
    ensures t.ring.addr == None && t.ring.irq && t.ring.enabled == s.ring.enabled
  {
    hide Reached;
    t := SendOne(s, Packet(0, true, 0));
    t := Transmit(t);
    t := WriteStatus(t);
  }

  lemma {:induction false} SendAndReportAll(s0: TxState, k: nat) returns (t: TxState)
    requires TxInit(s0) && k < Size(true)
    ensures Reached(t) && t.sender.Away? && !t.stopped && t.ptp.available == Size(true) - k
    ensures t.count == k && t.sub.Untouched? && !t.kicked && t.nonptp.available == Size(false)
    ensures t.chain.eng.TxHalted? && !t.chain.filled && t.chain.read == |t.frames| == |t.ring.written| == k
    ensures t.ring.eng == Fetching && t.ring.pc == Idle && t.ring.done == 0
    ensures t.ring.enabled && (k > 0 ==> t.ring.addr == None && t.ring.irq)
  {
    hide Reached, TxInit;
    if k == 0 {
      StartFacts(s0);
      t := s0;
    } else {
      t := SendAndReportAll(s0, k - 1);
      t := SendAndReport(t);
    }
  }

  /** The poll retires the `k` statuses waiting, the queue not being stopped yet. */
  lemma {:induction false} RetiresAll(s: TxState, k: nat) returns (t: TxState)
    requires Reached(s) && s.ring.pc.Loop? && s.ring.pc.count + k < s.ring.budget && s.sub.Untouched? && !s.kicked
    requires s.ring.done + k == |s.ring.written| <= |s.frames| && s.ring.addr == None && s.ring.eng == Fetching
    requires !s.stopped && (k == 0 ==> !s.ring.irq)
    ensures Reached(t) && t.ring.pc == Loop(s.ring.pc.count + k) && t.sub.Untouched? && !t.kicked
    ensures t.ring.done == |t.ring.written| == |s.ring.written| && !t.ring.irq && t.ring.eng == Fetching
    ensures t.ring.budget == s.ring.budget && !t.stopped && t.count == s.count - k
    ensures t.sender == s.sender && t.chain == s.chain && t.frames == s.frames
    decreases k
  {
    hide Reached, MayWake;
    t := s;
    if k > 0 {
      t := FindsStatus(t);
      t := RetiresToWoken(t);
      t := Finishes(t);
      t := RetiresAll(t, k - 1);
    }
  }

  /** Stopped, with nothing out, nothing latched and nothing to do for anyone. */
  predicate Dead(s: TxState)
  {
    && s.stopped && s.count == 0 && s.sender.Away? && s.sub.Untouched?
    && s.ring.pc == Idle && !s.ring.irq && (s.ring.eng.Fetching? || s.ring.eng.Loaded?)
    && |s.ring.written| == s.chain.read && s.chain.eng.TxHalted?
  }

  /** Seven PTP frames are sent.  The next PTP send finds one tag left and decides
      to stop the queue; before it does, the poll retires all seven frames without
      waking anything; then the queue is stopped and the packet dropped. */
  lemma StoppedForGood(s0: TxState) returns (states: seq<TxState>, steps: seq<TxStep>, t: TxState)
    requires TxInit(s0)
    ensures Run(states, steps) && states[|steps|] == t && Dead(t)
  {
    hide Reached, TxInv, Run, TxInit, TxDo, TxEnabled;
    t := SendAndReportAll(s0, Size(true) - 1);
    t := DecidesToStop(t);
    t := StartsPoll(t);
    t := RetiresAll(t, Size(true) - 1);
    t := StopsAndDrops(t);
    t := PollEnds(t);
    states, steps := AsRun(t);
  }

  lemma DecidesToStop(s: TxState) returns (t: TxState)
    requires Reached(s) && s.sender.Away? && !s.stopped && s.ptp.available == 1 && s.count < N
    ensures Reached(t) && t.sender.MustStop?
    ensures t == s.(sender := t.sender, submitted := t.submitted, stats := t.stats)
  {
    hide Reached, TxInv, TxShape;
    ReachedInv(s);
    t := Next(s, Enter(Packet(0, true, 0)));
    t := Next(t, Threshold);
  }

  lemma StopsAndDrops(s: TxState) returns (t: TxState)
    requires Reached(s) && s.sender.MustStop?
    ensures Reached(t) && t.sender.Away? && t.stopped
    ensures t == s.(sender := Away, stopped := true, discarded := t.discarded, stats := t.stats)
  {
    hide Reached, TxInv, TxShape;
    ReachedInv(s);
    t := Next(s, StopQueue);
    t := Next(t, Abandon);
  }

  /** Whatever happens next, the queue stays stopped: only the status engine can
      take a step, and only to fetch a descriptor. */
  lemma DeadForEver(s: TxState, step: TxStep)
    requires TxInv(s) && Dead(s) && TxEnabled(s, step) && Lawful(s, step)
    ensures Dead(TxDo(s, step)) && step == OnRing(HwFetch)
  {
    hide TxInv, NeedsReset, CurrentStatus, FirstByte, Shape, ChainShape, After, Before, StatusOf;
    WrittenKept(s);
  }

  lemma WrittenKept(s: TxState)
    requires TxInv(s)
    ensures s.chain.read <= |s.frames|
  {
    hide ChainOk, StatusesOk, PoolsOk, LedgerOk, ChainServed, SenderOk, TableOk, Inv;
  }
}
