/** adi_msp_send_packet, adi_msp_status and its NAPI poll as code.  Before each
    access of the status poll to shared memory, senders and both engines may run
    for as long as they like, and before each access of a sender the poll and
    both engines.  Each access is recorded as a protocol step, so the object is
    always in a state the protocol reaches. */
module TxDriverCode {
  import opened Ring
  import opened RingProofs
  import opened RingSafety
  import opened RingDevice
  import opened TxTags
  import opened TxChain
  import opened TxPath
  import opened TxProofs
  import opened TxResults

  class TxDriver {
    const ring: RingDma<Status>            // the Tx status ring
    const td: array<Desc>                  // td_ring
    const txSkb: array<Option<TxSkb>>      // tx_skb
    var eng: TxEngine
    var head: nat
    var tail: nat
    var filled: bool
    var txCount: int
    var ptp: Pool
    var nonptp: Pool
    var stopped: bool
    var stats: Stats

    // The environment: what it has to answer, and how many statuses it may
    // still write while a poll runs
    var frames: seq<TxSkb>                 // frames accepted, in order
    var read: nat                          // how many of them the Tx engine has read
    var fills: nat

    // Where the sender that holds lp->lock and the status poll are
    var sender: Sender
    var sub: Sub
    var kicked: bool

    ghost var handed: nat
    ghost var sent: seq<nat>
    ghost var freed: seq<nat>
    ghost var discarded: seq<nat>
    ghost var submitted: seq<nat>
    ghost const start: TxState
    ghost var trace: seq<TxStep>

    ghost function RingRepr(): set<object>
    {
      {ring, ring.flow, ring.descBuf, ring.drvBuf}
    }

    ghost function Repr(): set<object>
    {
      {this, td, txSkb} + RingRepr()
    }

    ghost function ChainView(): Chain
      reads this, td
    {
      Chain(td[..], eng, head, tail, filled, handed, read, sent)
    }

    ghost function View(): TxState
      reads Repr()
    {
      TxState(ring.View(), ChainView(), txSkb[..], txCount, ptp, nonptp, stopped, sender, sub, kicked,
              stats, freed, discarded, submitted, frames)
    }

    /** The object is where the recorded run of the protocol leads. */
    ghost predicate Valid()
      reads Repr()
    {
      && ring.Valid() && TxShape(View())
      && TxInit(start) && TxReaches(start, trace, View())
      && TxInv(View())
    }

    /** Bounds the steps the status poll can still take. */
    ghost function Work(): nat
      reads this`fills, RingRepr()
    {
      var effort := Effort(ring.View());   // never negative when Valid
      (if effort < 0 then 0 else effort) + 32 * fills
    }

    /** adi_msp_alloc_ring for the Tx rings and the Tx part of adi_msp_open. */
    constructor (fills: nat)
      ensures Valid() && ring.pc == Idle && trace == []
      ensures this.fills == fills && fresh(Repr())
    {
      hide TxInv, Shape, Init, EmptyChain, TxShape, TxReaches, RingDma.View;
      var r := new RingDma<Status>();
      ring := r;
      td := new Desc[N](_ => Desc(Stop, 0, 0));
      txSkb := new Option<TxSkb>[N](_ => None);
      eng, head, tail, filled, handed, read, sent := TxHalted, 0, 0, false, 0, 0, [];
      txCount, stopped, stats := 0, false, Stats(0, 0, 0, 0, 0);
      ptp := Pool(MIN_PTP_TAG, MAX_PTP_TAG, MAX_PTP_TAG - MIN_PTP_TAG + 1);
      nonptp := Pool(MIN_NONPTP_TAG, MAX_NONPTP_TAG, MAX_NONPTP_TAG - MIN_NONPTP_TAG + 1);
      sender, sub, kicked, frames := Away, Untouched, false, [];
      freed, discarded, submitted, trace := [], [], [], [];
      this.fills := fills;
      start := StartState(r.View());
      new;
      Blank();
      IdleAtFirst();
      Matches(start, r.View());
      NothingYet(start);
      TxInitInv(start);
      TxShapeOf(start);
    }

    lemma NothingYet(s: TxState)
      ensures TxReaches(s, [], s)
    {
    }

    lemma IdleAtFirst()
      requires Init(ring.View())
      ensures ring.pc == Idle
    {
    }

    lemma Blank()
      requires td.Length == txSkb.Length == N
      requires forall k :: 0 <= k < N ==> td[k] == Desc(Stop, 0, 0) && txSkb[k] == None
      ensures td[..] == seq(N, k => Desc(Stop, 0, 0)) && txSkb[..] == seq(N, k => None)
    {
    }

    lemma Matches(s: TxState, r: State<Status>)
      requires s == StartState(r)
      ensures s.chain == Chain(seq(N, i => Desc(Stop, 0, 0)), TxHalted, 0, 0, false, 0, 0, [])
      ensures s.table == seq(N, i => None)
    {
    }

    /** One step of the protocol has been taken and recorded. */
    twostate predicate Took(step: TxStep)
      reads Repr()
    {
      && TxEnabled(old(View()), step) && View() == TxDo(old(View()), step)
      && trace == old(trace) + [step]
    }

    /** The recorded run has gone on from where it was. */
    twostate predicate Kept()
      reads Repr()
    {
      Prefix(old(trace), trace)
    }

    /** So what was accepted, discarded and given back stays so. */
    twostate lemma HistoryKept()
      requires old(Valid()) && Valid() && Kept()
      ensures old(frames) <= frames && old(freed) <= freed
      ensures old(submitted) <= submitted && old(discarded) <= discarded
    {
      hide TxInv, TxInit, TxReaches, TxShape;
      TxHistoryGrows(start, old(trace), old(View()), trace, View());
    }

    /** Record the step just taken. */
    ghost method Log(before: TxState, step: TxStep)
      requires TxInit(start) && TxReaches(start, trace, before) && TxInv(before) && TxEnabled(before, step)
      requires ring.Valid() && View() == TxDo(before, step)
      modifies this`trace
      ensures Valid() && View() == old(View()) && trace == old(trace) + [step]
    {
      hide TxReaches, TxDo, TxEnabled, TxInv, TxInit;
      TxReachesMore(start, trace, before, step);
      TxStepInv(before, step);
      TxShapeOf(View());
      trace := trace + [step];
    }

    /** The status ring's share of a step. */
    lemma RingEffort(r: State<Status>, step: Step<Status>)
      requires Inv(r) && Enabled(r, step)
      ensures 0 <= Effort(r) && 0 <= Effort(Do(r, step))
      ensures PollStep(step) ==> Effort(Do(r, step)) < Effort(r)
      ensures step.HwFetch? || step.HwBegin? || step.HwComplete? ==>
                Effort(Do(r, step)) <= Effort(r) + if step.HwComplete? then 32 else 0
    {
      hide Do, Enabled, Inv, Effort;
      StepInv(r, step);
      EffortBounds(r);
      EffortBounds(Do(r, step));
      if PollStep(step) { PollStepShrinks(r, step); }
      if step.HwFetch? || step.HwBegin? || step.HwComplete? { EngineStepGrows(r, step); }
    }

    /** Each status written used up one of `fills`; what was written, accepted and
        given back stays. */
    twostate predicate Progressed()
      reads Repr()
    {
      && Kept() && Prefix(old(ring.written), ring.written)
      && |ring.written| + fills == old(|ring.written| + fills)
      && ring.budget == old(ring.budget)
    }

    /** Others have been at work: the poll is where it was. */
    twostate predicate Undisturbed()
      reads Repr()
    {
      && Progressed()
      && ring.pc == old(ring.pc) && ring.done == old(ring.done)
      && sub == old(sub) && kicked == old(kicked)
    }

    // Senders

    method StorePool(isPtp: bool, pool: Pool)
      modifies this`ptp, this`nonptp
      ensures View() == SetPool(old(View()), isPtp, pool)
    {
      hide RingDma.View;
      if isPtp { ptp := pool; } else { nonptp := pool; }
    }

    /** get_frame_tag; 0 if there is none. */
    method GetFrameTag(isPtp: bool) returns (tag: nat)
      modifies this`ptp, this`nonptp
      ensures View() == SetPool(old(View()), isPtp, GetTag(PoolFor(old(View()), isPtp), isPtp).0)
      ensures tag == if PoolFor(old(View()), isPtp).available == 0 then 0 else PoolFor(old(View()), isPtp).next
    {
      hide RingDma.View;
      var minTag := if isPtp then MIN_PTP_TAG else MIN_NONPTP_TAG;
      var maxTag := if isPtp then MAX_PTP_TAG else MAX_NONPTP_TAG;
      var pool := if isPtp then ptp else nonptp;
      if pool.available == 0 { return 0; }
      pool := pool.(available := pool.available - 1);
      tag := pool.next;
      if pool.next == maxTag {
        pool := pool.(next := minTag);
      } else {
        pool := pool.(next := pool.next + 1);
      }
      StorePool(isPtp, pool);
    }

    /** Put the descriptor at the tail of the chain, and start the DMA if it is halted. */
    method AppendToChain(id: nat)
      requires td.Length == N && ChainShape(ChainView())
      modifies this`eng, this`head, this`tail, this`filled, this`handed, td
      ensures ChainView() == Append(old(ChainView()), id, |frames|) && ChainShape(ChainView())
    {
      hide RingDma.View;
      var idx := tail;
      td[idx] := td[idx].(flow := Stop, skb := id);
      var chainPrev, chainNext := Before(idx), After(idx);
      if eng.TxHalted? {
        if !filled {
          tail := chainNext;
          eng := TxFetching(head);
          head := tail;
        } else {
          td[chainPrev] := td[chainPrev].(flow := Dscl, next := idx);
          tail := chainNext;
          eng := TxFetching(head);
          head := tail;
          filled := false;
        }
        handed := |frames| + 1;
      } else {
        if !filled {
          tail := chainNext;
          filled := true;
        } else {
          td[chainPrev] := td[chainPrev].(flow := Dscl, next := idx);
          tail := chainNext;
        }
      }
    }

    /** The label drop_packet. */
    method Discard(id: nat)
      modifies this`sender, this`stats, this`discarded
      ensures View() == Drop(old(View()), id)
    {
      hide RingDma.View;
      stats := stats.(dropped := stats.dropped + 1);
      discarded := discarded + [id];
      sender := Away;
    }

    /** The checks before anything is done for a packet. */
    method Refuse(packet: Packet) returns (refused: bool)
      ensures refused == Drops(View(), packet)
    {
      hide RingDma.View;
      var available := if packet.ptp then ptp.available else nonptp.available;
      refused := packet.length > 0xffff || txCount > N || txCount == N || available == 0;
    }

    method CountSend(id: nat)
      modifies this`stats, this`submitted
      ensures View() == old(View()).(submitted := old(submitted) + [id],
                                     stats := old(stats).(sends := old(stats).sends + 1))
    {
      hide RingDma.View;
      submitted := submitted + [id];
      stats := stats.(sends := stats.sends + 1);
    }

    method Admit(packet: Packet) returns (dropped: bool)
      modifies this`sender, this`stats, this`discarded, this`submitted
      ensures View() == DoEnter(old(View()), packet) && dropped == Drops(old(View()), packet)
    {
      hide Drop, Drops, RingDma.View;
      dropped := Refuse(packet);
      DropsFrame(View(), packet);
      CountSend(packet.id);
      if dropped { Discard(packet.id); } else { sender := Checked(packet); }
    }

    lemma DropsFrame(s: TxState, packet: Packet)
      ensures forall submitted, stats :: Drops(s.(submitted := submitted, stats := stats), packet) == Drops(s, packet)
    {
    }

    lemma EnterFacts(s: TxState, packet: Packet)
      requires TxShape(s) && s.sender.Away?
      ensures TxEnabled(s, Enter(packet)) && TxDo(s, Enter(packet)) == DoEnter(s, packet)
      ensures
        var t := DoEnter(s, packet);
        && t.sender == (if Drops(s, packet) then Away else Checked(packet))
        && t.submitted == s.submitted + [packet.id]
        && t.discarded == if Drops(s, packet) then s.discarded + [packet.id] else s.discarded
    {
      hide Shape, ChainShape;
    }

    method EnterStep(packet: Packet) returns (dropped: bool)
      requires Valid() && sender.Away?
      modifies this`sender, this`stats, this`discarded, this`submitted, this`trace
      ensures Valid() && dropped == Drops(old(View()), packet)
      ensures sender == if dropped then Away else Checked(packet)
      ensures submitted == old(submitted) + [packet.id]
      ensures discarded == if dropped then old(discarded) + [packet.id] else old(discarded)
      ensures Took(Enter(packet)) && Kept()
    {
      hide TxReaches, TxInv, TxInit, TxShape, TxEnabled, TxDo, DoEnter, Drops;
      ghost var before := View();
      EnterFacts(before, packet);
      dropped := Admit(packet);
      Log(before, Enter(packet));
    }

    /** The steps of a sender before the commit, spelled out. */
    lemma SenderCan(s: TxState)
      requires TxInv(s)
      ensures s.sender.Checked? ==> TxEnabled(s, Threshold) && TxDo(s, Threshold) == DoThreshold(s)
      ensures s.sender.MustStop? ==>
                && TxEnabled(s, StopQueue)
                && TxDo(s, StopQueue) == s.(stopped := true, sender := Preparing(s.sender.packet, true))
      ensures s.sender.Preparing? ==>
                && TxEnabled(s, Abandon) && TxDo(s, Abandon) == Drop(s, s.sender.packet.id)
                && TxEnabled(s, TakeTag) && TxDo(s, TakeTag) == DoTakeTag(s)
    {
      hide TxInv, TxShape, DoThreshold, DoTakeTag, Drop;
      TxShapeOf(s);
    }

    method ThresholdStep() returns (must: bool)
      requires Valid() && sender.Checked?
      modifies this`sender, this`trace
      ensures Valid() && must == (!stopped && NearlyFull(old(View()), old(sender).packet.ptp))
      ensures sender == if must then MustStop(old(sender).packet) else Preparing(old(sender).packet, false)
      ensures Took(Threshold) && Kept()
    {
      hide TxReaches, TxInv, TxInit, TxShape, TxEnabled, TxDo, RingDma.View;
      ghost var before := View();
      SenderCan(before);
      var packet := sender.packet;
      var available := if packet.ptp then ptp.available else nonptp.available;
      must := !stopped && (txCount >= N - STOP_QUEUE_TH || available <= STOP_QUEUE_TH);
      sender := if must then MustStop(packet) else Preparing(packet, false);
      Log(before, Threshold);
    }

    method StopStep()
      requires Valid() && sender.MustStop?
      modifies this`sender, this`stopped, this`trace
      ensures Valid() && stopped && sender == Preparing(old(sender).packet, true)
      ensures Took(StopQueue) && Kept()
    {
      hide TxReaches, TxInv, TxInit, TxShape, TxEnabled, TxDo, RingDma.View;
      ghost var before := View();
      SenderCan(before);
      stopped := true;
      sender := Preparing(sender.packet, true);
      Log(before, StopQueue);
    }

    lemma DropFacts(s: TxState, id: nat)
      ensures Drop(s, id).sender == Away && Drop(s, id).discarded == s.discarded + [id]
    {
    }

    method AbandonStep()
      requires Valid() && sender.Preparing?
      modifies this`sender, this`stats, this`discarded, this`trace
      ensures Valid() && sender == Away && discarded == old(discarded) + [old(sender).packet.id]
      ensures Took(Abandon) && Kept()
    {
      hide TxReaches, TxInv, TxInit, TxShape, TxEnabled, TxDo, Drop, RingDma.View;
      ghost var before := View();
      SenderCan(before);
      DropFacts(before, sender.packet.id);
      Discard(sender.packet.id);
      Log(before, Abandon);
    }

    /** The header is filled in with the next tag, and the tag is taken. */
    method TakeTagStep()
      requires Valid() && sender.Preparing?
      modifies this`sender, this`ptp, this`nonptp, this`trace
      ensures Valid()
      ensures
        var packet := old(sender).packet;
        sender == Tagged(TxSkb(packet.id, packet.ptp, old(PoolFor(View(), packet.ptp)).next, packet.length),
                         old(sender).stopping)
      ensures Took(TakeTag) && Kept()
    {
      hide TxReaches, TxInv, TxInit, TxShape, TxEnabled, TxDo, GetTag, SetPool, RingDma.View;
      ghost var before := View();
      SenderCan(before);
      var packet := sender.packet;
      var next := if packet.ptp then ptp.next else nonptp.next;
      SetPoolFrame(before, packet.ptp, GetTag(PoolFor(before, packet.ptp), packet.ptp).0);
      var _ := GetFrameTag(packet.ptp);
      sender := Tagged(TxSkb(packet.id, packet.ptp, next, packet.length), sender.stopping);
      Log(before, TakeTag);
    }

    lemma SetPoolFrame(s: TxState, isPtp: bool, pool: Pool)
      ensures SetPool(s, isPtp, pool).sender == s.sender
    {
    }

    /** The frame is counted and put into the table and the chain. */
    method Enqueue()
      requires TxShape(View()) && sender.Tagged?
      modifies this`eng, this`head, this`tail, this`filled, this`handed, this`txCount, this`frames, this`sender,
               td, txSkb
      ensures View() == DoCommit(old(View()))
    {
      hide Append, Shape, After, Before, RingDma.View;
      var skb := sender.skb;
      txCount := txCount + 1;
      txSkb[tail] := Some(skb);
      assert ChainView() == old(ChainView());
      AppendToChain(skb.id);
      frames := frames + [skb];
      sender := Away;
    }

    lemma CommitFacts(s: TxState)
      requires TxShape(s) && s.sender.Tagged?
      ensures TxEnabled(s, Commit) && TxDo(s, Commit) == DoCommit(s)
      ensures
        var t := DoCommit(s);
        && t.sender == Away && t.frames == s.frames + [s.sender.skb] && t.count == s.count + 1
        && t.chain == Append(s.chain, s.sender.skb.id, |s.frames|)
        && t.table == s.table[s.chain.tail := Some(s.sender.skb)]
    {
      hide Shape, ChainShape, Append;
    }

    method CommitStep()
      requires Valid() && sender.Tagged?
      modifies this`eng, this`head, this`tail, this`filled, this`handed, this`txCount, this`frames, this`sender,
               this`trace, td, txSkb
      ensures Valid() && sender == Away && frames == old(frames) + [old(sender).skb]
      ensures txCount == old(txCount) + 1 && ChainView() == Append(old(ChainView()), old(sender).skb.id, |old(frames)|)
      ensures txSkb[..] == old(txSkb[..])[old(tail) := Some(old(sender).skb)]
      ensures Took(Commit) && Kept()
    {
      hide TxReaches, TxInv, TxInit, TxShape, TxEnabled, TxDo, DoCommit, RingDma.View;
      ghost var before := View();
      CommitFacts(before);
      Enqueue();
      Log(before, Commit);
    }

    /** What a sender can rely on while it waits: others only make room. */
    twostate predicate Waited()
      reads Repr()
    {
      && Kept() && sender == old(sender) && frames == old(frames)
      && submitted == old(submitted) && discarded == old(discarded)
      && txCount <= old(txCount)
      && ptp.available >= old(ptp.available) && nonptp.available >= old(nonptp.available)
      && ptp.next == old(ptp.next) && nonptp.next == old(nonptp.next)
    }

    /** adi_msp_send_packet, having taken lp->lock.  `prepared`: room for the header
        can be made and the buffer can be mapped.  A packet is dropped only for its
        length, for want of room or a tag when it came, or because it cannot be
        prepared; otherwise it is accepted with the next tag of its class. */
    method SendPacket(packet: Packet, prepared: bool) returns (dropped: bool)
      requires Valid() && sender.Away?
      modifies Repr()
      ensures Valid() && Kept() && sender.Away?
      ensures dropped ==> old(Drops(View(), packet)) || !prepared
      ensures !dropped ==> prepared && packet.length <= 0xffff
      ensures frames == if dropped then old(frames)
                        else old(frames) + [TxSkb(packet.id, packet.ptp, old(PoolFor(View(), packet.ptp)).next,
                                                  packet.length)]
      ensures submitted == old(submitted) + [packet.id]
      ensures discarded == if dropped then old(discarded) + [packet.id] else old(discarded)
    {
      hide Valid, Took, Prefix;
      Onwards<TxStep>();
      Onwards<Status>();
      TagsNotNegative();
      OthersRun();
      dropped := EnterStep(packet);
      if !dropped {
        dropped := Deliver(prepared);
      }
    }

    lemma TagsNotNegative()
      requires Valid()
      ensures ptp.available >= 0 && nonptp.available >= 0
    {
      hide TxReaches, TxInit, TxShape, TxInv;
      AvailableNotNegative(View(), true);
      AvailableNotNegative(View(), false);
    }

    /** The rest of a send that has passed the first checks. */
    method Deliver(prepared: bool) returns (dropped: bool)
      requires Valid() && sender.Checked?
      modifies Repr()
      ensures Valid() && Kept() && sender.Away? && dropped == !prepared
      ensures
        var packet := old(sender).packet;
        && frames == (if dropped then old(frames)
                      else old(frames) + [TxSkb(packet.id, packet.ptp, old(PoolFor(View(), packet.ptp)).next,
                                                packet.length)])
        && discarded == if dropped then old(discarded) + [packet.id] else old(discarded)
      ensures submitted == old(submitted)
    {
      hide Valid, Took, Prefix;
      Onwards<TxStep>();
      Onwards<Status>();
      OthersRun();
      var must := ThresholdStep();
      OthersRun();
      if must {
        StopStep();
        OthersRun();
      }
      if prepared { TagAndCommit(); } else { AbandonStep(); }
      dropped := !prepared;
    }

    method TagAndCommit()
      requires Valid() && sender.Preparing?
      modifies Repr()
      ensures Valid() && Kept() && sender.Away?
      ensures
        var packet := old(sender).packet;
        frames == old(frames) + [TxSkb(packet.id, packet.ptp, old(PoolFor(View(), packet.ptp)).next, packet.length)]
      ensures submitted == old(submitted) && discarded == old(discarded)
    {
      hide Valid, Took, Prefix;
      Onwards<TxStep>();
      Onwards<Status>();
      TakeTagStep();
      OthersRun();
      CommitStep();
    }

    /** The rest of a send that somebody else has begun, one step. */
    method SenderStep()
      requires Valid() && !sender.Away?
      modifies Repr() - RingRepr()
      ensures Valid() && Undisturbed() && SendLeft(sender) < SendLeft(old(sender))
    {
      hide Valid, Took, Prefix;
      Onwards<TxStep>();
      Onwards<Status>();
      match sender {
        case Checked(_) => var _ := ThresholdStep();
        case MustStop(_) => StopStep();
        case Preparing(_, _) =>
          var prepared: bool := *;
          if prepared { TakeTagStep(); } else { AbandonStep(); }
        case Tagged(_, _) => CommitStep();
      }
    }

    function SendLeft(sender: Sender): nat
    {
      match sender
      case Away => 0
      case Tagged(_, _) => 1
      case Preparing(_, _) => 2
      case MustStop(_) => 3
      case Checked(_) => 4
    }

    /** spin_lock: the poll waits until the sender is done. */
    method TakeLock()
      requires Valid()
      modifies Repr() - RingRepr()
      ensures Valid() && Undisturbed() && sender.Away?
    {
      hide Valid, Took, Prefix;
      Onwards<TxStep>();
      Onwards<Status>();
      while !sender.Away?
        invariant Valid() && Undisturbed()
        decreases SendLeft(sender)
      {
        SenderStep();
      }
    }

    // The engines

    lemma OnRingFacts(s: TxState, step: Step<Status>)
      requires TxInv(s) && RingEnabled(s, step)
      ensures TxEnabled(s, OnRing(step))
      ensures var t := Do(s.ring, step);
              && TxDo(s, OnRing(step)) == s.(ring := t, kicked := s.kicked && !step.ReadStat?)
              && 0 <= Effort(s.ring) && 0 <= Effort(t)
              && (PollStep(step) ==> Effort(t) < Effort(s.ring))
              && (step.HwFetch? || step.HwBegin? || step.HwComplete? ==>
                    Effort(t) <= Effort(s.ring) + if step.HwComplete? then 32 else 0)
              && s.ring.written <= t.written
    {
      hide Inv, ChainOk, TableOk, PoolsOk, StatusesOk, SenderOk, LedgerOk, Effort, RingEnabled, Do, Enabled;
      TxShapeOf(s);
      RingCan(s, step);
      RingEffort(s.ring, step);
      RingKeeps(s, step);
    }

    lemma RingCan(s: TxState, step: Step<Status>)
      requires RingEnabled(s, step)
      ensures Enabled(s.ring, step)
    {
    }

    lemma TxShapeOf(s: TxState)
      requires TxInv(s)
      ensures TxShape(s)
    {
    }

    method EngineFetches()
      requires Valid() && ring.eng.Fetching?
      modifies RingRepr(), this`trace
      ensures Valid() && Progressed() && Work() <= old(Work())
      ensures ring.pc == old(ring.pc) && ring.done == old(ring.done)
      ensures sub == old(sub) && kicked == old(kicked)
      ensures Took(OnRing(HwFetch))
    {
      hide TxReaches, TxInv, TxInit, Effort, StatusOf, Before, After, Fresh, TxShape;
      ghost var before := View();
      OnRingFacts(before, HwFetch);
      ring.HwFetch();
      Log(before, OnRing(HwFetch));
    }

    method EngineBegins()
      requires Valid() && ring.eng.Loaded? && |ring.written| < read
      modifies RingRepr(), this`trace
      ensures Valid() && Progressed() && Work() <= old(Work())
      ensures ring.pc == old(ring.pc) && ring.done == old(ring.done)
      ensures sub == old(sub) && kicked == old(kicked)
      ensures Took(OnRing(HwBegin))
    {
      hide TxReaches, TxInv, TxInit, Effort, StatusOf, Before, After, Fresh, TxShape;
      ghost var before := View();
      OnRingFacts(before, HwBegin);
      ring.HwBegin();
      Log(before, OnRing(HwBegin));
    }

    method EngineCompletes(st: Status, stays: bool)
      requires Valid() && ring.eng.Writing? && fills > 0 && StatusOf(View(), st)
      modifies RingRepr(), this`trace, this`fills
      ensures Valid() && Undisturbed() && Work() <= old(Work())
      ensures Took(OnRing(HwComplete(st, stays)))
    {
      hide TxReaches, TxInv, TxInit, Effort, StatusOf, Before, After, Fresh, TxShape;
      ghost var before := View();
      OnRingFacts(before, HwComplete(st, stays));
      ring.HwComplete(st, stays);
      fills := fills - 1;
      Log(before, OnRing(HwComplete(st, stays)));
    }

    lemma FinishShape(s: TxState)
      requires TxInv(s) && s.chain.eng.TxLoaded?
      ensures ChainShape(Finish(s.chain))
    {
      hide Inv, TableOk, PoolsOk, StatusesOk, SenderOk, LedgerOk;
      FinishOk(s.chain, s.frames);
    }

    lemma EngineStepIs(s: TxState)
      requires TxInv(s) && TxShape(s)
      ensures CanFetch(s.chain) ==> TxEnabled(s, TxFetch) && TxDo(s, TxFetch) == s.(chain := Fetch(s.chain))
      ensures s.chain.eng.TxLoaded? ==> TxEnabled(s, TxFinish) && TxDo(s, TxFinish) == s.(chain := Finish(s.chain))
    {
      hide TxInv, Shape, Slot;
      if s.chain.eng.TxLoaded? { FinishShape(s); }
    }

    method TxEngineReads()
      requires Valid() && eng.TxFetching?
      modifies this`eng, this`trace
      ensures Valid() && Kept() && Took(TxFetch)
    {
      hide TxReaches, TxInv, TxInit, TxDo, TxEnabled, Shape, Slot, RingDma.View;
      ghost var before := View();
      EngineStepIs(before);
      eng := TxLoaded(eng.cur, td[eng.cur]);
      Log(before, TxFetch);
    }

    method TxEngineFinishes()
      requires Valid() && eng.TxLoaded?
      modifies this`eng, this`read, this`sent, this`trace
      ensures Valid() && Kept() && Took(TxFinish)
    {
      hide TxReaches, TxInv, TxInit, TxDo, TxEnabled, Shape, Slot, RingDma.View;
      ghost var before := View();
      EngineStepIs(before);
      var desc := eng.desc;
      eng := if desc.flow.Stop? then TxHalted else TxFetching(desc.next);
      read, sent := read + 1, sent + [desc.skb];
      Log(before, TxFinish);
    }

    /** One step of the Tx engine, if it can take one. */
    method TxEngineStep()
      requires Valid()
      modifies this`eng, this`read, this`sent, this`trace
      ensures Valid() && Kept()
    {
      hide Valid, Took;
      match eng {
        case TxHalted =>
        case TxFetching(_) => TxEngineReads();
        case TxLoaded(_, _) => TxEngineFinishes();
      }
    }

    /** Senders and engines run between two accesses of the status poll. */
    method Interfere()
      requires Valid()
      modifies Repr()
      ensures Valid() && Undisturbed() && Work() <= old(Work())
    {
      hide Valid, Work, Took, Prefix;
      Onwards<TxStep>();
      Onwards<Status>();
      var steps: int := *;
      while steps > 0
        invariant Valid() && Undisturbed() && Work() <= old(Work())
      {
        OtherStep();
        steps := steps - 1;
      }
    }

    method OtherStep()
      requires Valid()
      modifies Repr()
      ensures Valid() && Undisturbed() && Work() <= old(Work())
    {
      hide Valid, Work, Took, Prefix;
      Onwards<TxStep>();
      Onwards<Status>();
      if
      case sender.Away? =>
        var packet: Packet := *;
        var _ := EnterStep(packet);
      case !sender.Away? => SenderStep();
      case true => EngineStep();
    }

    method EngineStep()
      requires Valid()
      modifies RingRepr(), this`fills, this`eng, this`read, this`sent, this`trace
      ensures Valid() && Undisturbed() && Work() <= old(Work())
    {
      hide TxReaches, TxInv, TxInit, Effort;
      if
      case true => TxEngineStep();
      case ring.eng.Fetching? => EngineFetches();
      case ring.eng.Loaded? && |ring.written| < read => EngineBegins();
      case ring.eng.Writing? && fills > 0 && |ring.written| < read <= |frames| =>
        var byte0: bv8, stays: bool := *, *;
        var frame := frames[|ring.written|];
        var st := Status(byte0, frame.tag);
        if IsTxStatus(st) && HasPtp(st) == frame.ptp { EngineCompletes(st, stays); }
    }

    // The head of the loop: is the next status there and done with?

    method ReadFirst() returns (started: bool)
      requires Valid() && ring.pc.Loop? && ring.pc.count < ring.budget
      modifies RingRepr(), this`trace
      ensures Valid() && Progressed() && Work() < old(Work())
      ensures ring.pc == if started then Started(old(ring.pc).count) else Check(old(ring.pc).count)
      ensures sub == old(sub) && kicked == old(kicked)
      ensures Took(OnRing(Step.ReadFirst))
      ensures ring.done == old(ring.done)
    {
      hide TxReaches, TxInv, TxInit, Effort, StatusOf, Before, After, Fresh, TxShape;
      ghost var before := View();
      OnRingFacts(before, Step.ReadFirst);
      started := ring.ReadFirst();
      Log(before, OnRing(Step.ReadFirst));
    }

    method ReadAddr() returns (inside: bool)
      requires Valid() && ring.pc.Started?
      modifies RingRepr(), this`trace
      ensures Valid() && Progressed() && Work() < old(Work())
      ensures ring.pc == Addressed(old(ring.pc).count, inside)
      ensures sub == old(sub) && kicked == old(kicked)
      ensures Took(OnRing(Step.ReadAddr))
      ensures ring.done == old(ring.done)
    {
      hide TxReaches, TxInv, TxInit, Effort, StatusOf, Before, After, Fresh, TxShape;
      ghost var before := View();
      OnRingFacts(before, Step.ReadAddr);
      inside := ring.ReadAddr();
      Log(before, OnRing(Step.ReadAddr));
    }

    method ReadPrv(inside: bool) returns (complete: bool)
      requires Valid() && ring.pc.Addressed? && ring.pc.inside == inside
      modifies RingRepr(), this`trace
      ensures Valid() && Progressed() && Work() < old(Work())
      ensures ring.pc == if complete then Ready(old(ring.pc).count) else Check(old(ring.pc).count)
      ensures sub == old(sub) && kicked == old(kicked)
      ensures Took(OnRing(Step.ReadPrv))
      ensures ring.done == old(ring.done)
    {
      hide TxReaches, TxInv, TxInit, Effort, StatusOf, Before, After, Fresh, TxShape;
      ghost var before := View();
      OnRingFacts(before, Step.ReadPrv);
      complete := ring.ReadPrv(inside);
      Log(before, OnRing(Step.ReadPrv));
    }

    method FindStatus() returns (found: bool)
      requires Valid() && ring.pc.Loop? && ring.pc.count < ring.budget
      modifies Repr()
      ensures Valid() && Progressed() && Work() < old(Work())
      ensures ring.pc == if found then Ready(old(ring.pc).count) else Check(old(ring.pc).count)
      ensures sub == old(sub) && kicked == old(kicked)
      ensures ring.done == old(ring.done)
    {
      hide Valid, Work, Took, Prefix;
      Onwards<TxStep>();
      Onwards<Status>();
      Interfere();
      found := ReadFirst();
      if found {
        Interfere();
        var inside := ReadAddr();
        Interfere();
        found := ReadPrv(inside);
      }
    }

    // Retiring the frame the status answers

    lemma Expected(s: TxState)
      requires TxInv(s) && s.ring.pc.Ready?
      ensures TxShape(s) && !NeedsReset(s) && s.ring.nextDone < N == |s.ring.drvBuf|
      ensures s.ring.done < |s.ring.written| && CurrentStatus(s) == s.ring.written[s.ring.done]
    {
      hide TxInv;
      TxShapeOf(s);
      NoReset(s);
      CurrentIsWritten(s);
      RingShape(s.ring);
    }

    lemma RingShape(r: State<Status>)
      requires Shape(r)
      ensures r.nextDone < N == |r.drvBuf|
    {
    }

    /** The checks that could ask for a reset all succeed. */
    lemma ExpectedTag(s: TxState)
      requires TxInv(s) && s.ring.pc.Ready? && TxShape(s)
      ensures
        var st := CurrentStatus(s);
        var isPtp := HasPtp(st);
        && (s.sub.Untouched? ==> IsTxStatus(st) && s.table[s.ring.nextDone] != None)
        && (s.sub.Uncounted? ==> InRange(isPtp, st.tag))
        && (s.sub.Returned? ==> st.tag == Succ(isPtp, PoolFor(s, isPtp).last))
        && (s.sub.Woken? ==> st.tag == s.sub.skb.tag)
    {
      hide TxInv, TxShape, HasPtp, IsTxStatus, CurrentStatus;
      NoReset(s);
    }

    /** The status work unit the poll is at; it will not change any more. */
    method ReadStatus() returns (st: Status)
      requires Valid() && ring.pc.Ready?
      ensures ring.done < |ring.written| && st == ring.written[ring.done]
    {
      hide TxReaches, TxInv, TxInit, NeedsReset, Effort;
      Expected(View());
      var cell := ring.mem[ring.drvBuf[ring.nextDone]];
      st := if cell.Full? then cell.unit else Status(0, 0);
    }

    /** The checks of the status, and tx_skb[idx] given up. */
    method Release(st: Status) returns (skb: TxSkb)
      requires Valid() && ring.pc.Ready? && sub.Untouched?
      requires ring.done < |ring.written| && st == ring.written[ring.done]
      modifies this`sub, this`trace, txSkb
      ensures Valid() && sub == Released(skb)
      ensures Took(TxStep.Release) && Kept()
    {
      hide TxReaches, TxInv, TxInit, Effort, Shape, NeedsReset, CurrentStatus, RingDma.View;
      ring.Fields();
      ghost var before := View();
      Expected(before);
      ExpectedTag(before);
      if !IsTxStatus(st) { assert false; }
      var idx := ring.nextDone;
      var slot := txSkb[idx];
      if slot == None { assert false; }
      skb := slot.value;
      txSkb[idx] := None;
      sub := Released(skb);
      Log(before, TxStep.Release);
    }

    /** The steps of the poll on counters and the queue, spelled out. */
    lemma PollerCan(s: TxState)
      requires TxInv(s) && s.ring.pc.Ready?
      ensures s.sub.Released? ==>
                && TxEnabled(s, TxStep.Uncount)
                && TxDo(s, TxStep.Uncount) == s.(sub := Uncounted(s.sub.skb), count := s.count - 1)
      ensures s.sub.Recorded? ==>
                && TxEnabled(s, TxStep.Look)
                && TxDo(s, TxStep.Look) == s.(sub := Looked(s.sub.skb, s.stopped && MayWake(s)))
      ensures s.sub.Looked? ==>
                && TxEnabled(s, TxStep.WakeUp)
                && TxDo(s, TxStep.WakeUp) == s.(sub := Woken(s.sub.skb), stopped := s.stopped && !s.sub.wake)
    {
      hide TxInv, TxShape, MayWake;
      TxShapeOf(s);
    }

    method Uncount()
      requires Valid() && ring.pc.Ready? && sub.Released?
      modifies this`sub, this`trace, this`txCount
      ensures Valid() && sub == Uncounted(old(sub).skb) && Waited()
      ensures Took(TxStep.Uncount)
    {
      hide TxReaches, TxInv, TxInit, TxShape, TxEnabled, TxDo, RingDma.View;
      ring.Fields();
      ghost var before := View();
      PollerCan(before);
      txCount := txCount - 1;
      sub := Uncounted(sub.skb);
      Log(before, TxStep.Uncount);
    }

    lemma ReturnTagIs(s: TxState)
      requires TxShape(s) && s.ring.pc.Ready? && s.sub.Uncounted? && !NeedsReset(s)
      ensures
        var isPtp := HasPtp(CurrentStatus(s));
        var pool := PoolFor(s, isPtp);
        && TxEnabled(s, TxStep.ReturnTag)
        && TxDo(s, TxStep.ReturnTag) == SetPool(s, isPtp, pool.(available := pool.available + 1)).(
             sub := Returned(s.sub.skb))
    {
      hide CurrentStatus, NeedsReset, Shape, ChainShape, HasPtp;
    }

    lemma RecordTagIs(s: TxState)
      requires TxShape(s) && s.ring.pc.Ready? && s.sub.Returned? && !NeedsReset(s)
      ensures
        var isPtp := HasPtp(CurrentStatus(s));
        && TxEnabled(s, TxStep.RecordTag)
        && TxDo(s, TxStep.RecordTag) == SetPool(s, isPtp, PoolFor(s, isPtp).(last := CurrentStatus(s).tag)).(
             sub := Recorded(s.sub.skb))
    {
      hide CurrentStatus, NeedsReset, Shape, ChainShape, HasPtp;
    }

    /** put_frame_tag up to the count of available tags. */
    method ReturnTag(tag: nat, isPtp: bool)
      requires Valid() && ring.pc.Ready? && sub.Uncounted?
      requires ring.done < |ring.written| && tag == ring.written[ring.done].tag
      requires isPtp == HasPtp(ring.written[ring.done])
      modifies this`sub, this`trace, this`ptp, this`nonptp
      ensures Valid() && sub == Returned(old(sub).skb) && Waited()
      ensures Took(TxStep.ReturnTag)
    {
      hide TxReaches, TxInv, TxInit, TxDo, TxEnabled, Effort, Shape, HasPtp, CurrentStatus, NeedsReset, RingDma.View;
      ring.Fields();
      ghost var before := View();
      Expected(before);
      ExpectedTag(before);
      ReturnTagIs(before);
      var minTag := if isPtp then MIN_PTP_TAG else MIN_NONPTP_TAG;
      var maxTag := if isPtp then MAX_PTP_TAG else MAX_NONPTP_TAG;
      if tag < minTag || tag > maxTag { assert false; }
      var pool := if isPtp then ptp else nonptp;
      StorePool(isPtp, pool.(available := pool.available + 1));
      sub := Returned(sub.skb);
      Log(before, TxStep.ReturnTag);
    }

    /** The rest of put_frame_tag. */
    method RecordTag(tag: nat, isPtp: bool)
      requires Valid() && ring.pc.Ready? && sub.Returned?
      requires ring.done < |ring.written| && tag == ring.written[ring.done].tag
      requires isPtp == HasPtp(ring.written[ring.done])
      modifies this`sub, this`trace, this`ptp, this`nonptp
      ensures Valid() && sub == Recorded(old(sub).skb) && Waited()
      ensures Took(TxStep.RecordTag)
    {
      hide TxReaches, TxInv, TxInit, TxDo, TxEnabled, Effort, Shape, HasPtp, CurrentStatus, NeedsReset, RingDma.View;
      ring.Fields();
      ghost var before := View();
      Expected(before);
      ExpectedTag(before);
      RecordTagIs(before);
      var minTag := if isPtp then MIN_PTP_TAG else MIN_NONPTP_TAG;
      var maxTag := if isPtp then MAX_PTP_TAG else MAX_NONPTP_TAG;
      var pool := if isPtp then ptp else nonptp;
      var expected := if pool.last == maxTag then minTag else pool.last + 1;
      if tag != expected { assert false; }
      StorePool(isPtp, pool.(last := tag));
      sub := Recorded(sub.skb);
      Log(before, TxStep.RecordTag);
    }

    method PutFrameTag(tag: nat, isPtp: bool)
      requires Valid() && ring.pc.Ready? && sub.Uncounted?
      requires ring.done < |ring.written| && tag == ring.written[ring.done].tag
      requires isPtp == HasPtp(ring.written[ring.done])
      modifies Repr()
      ensures Valid() && Progressed() && Work() <= old(Work())
      ensures ring.pc == old(ring.pc) && ring.done == old(ring.done) && kicked == old(kicked)
      ensures sub == Recorded(old(sub).skb)
    {
      hide Valid, Work, Took, Prefix, HasPtp;
      Onwards<TxStep>();
      Onwards<Status>();
      ReturnTag(tag, isPtp);
      Interfere();
      RecordTag(tag, isPtp);
    }

    /** The wake condition is evaluated. */
    method Look()
      requires Valid() && ring.pc.Ready? && sub.Recorded?
      modifies this`sub, this`trace
      ensures Valid() && sub == Looked(old(sub).skb, stopped && MayWake(old(View())))
      ensures Took(TxStep.Look) && Kept()
    {
      hide TxReaches, TxInv, TxInit, TxShape, TxEnabled, TxDo, RingDma.View;
      ring.Fields();
      ghost var before := View();
      PollerCan(before);
      var wake := stopped && txCount <= N - STOP_QUEUE_TH
                  && ptp.available >= STOP_QUEUE_TH && nonptp.available >= STOP_QUEUE_TH;
      sub := Looked(sub.skb, wake);
      Log(before, TxStep.Look);
    }

    /** The queue is woken if the condition held. */
    method WakeUp()
      requires Valid() && ring.pc.Ready? && sub.Looked?
      modifies this`sub, this`trace, this`stopped
      ensures Valid() && sub == Woken(old(sub).skb) && stopped == (old(stopped) && !old(sub).wake)
      ensures Took(TxStep.WakeUp) && Kept()
    {
      hide TxReaches, TxInv, TxInit, TxShape, TxEnabled, TxDo, RingDma.View;
      ring.Fields();
      ghost var before := View();
      PollerCan(before);
      if sub.wake { stopped := false; }
      sub := Woken(sub.skb);
      Log(before, TxStep.WakeUp);
    }

    method Account(st: Status, skb: TxSkb)
      modifies this`stats, this`freed, this`sub
      ensures View() == Settlement(old(View()), st, skb)
    {
      hide RingDma.View, HasPtp, HasError;
      if HasError(st) {
        stats := stats.(errors := stats.errors + 1);
      } else if skb.ptp && !HasPtp(st) {
        stats := stats.(errors := stats.errors + 1);
      } else {
        stats := stats.(packets := stats.packets + 1);
      }
      freed := freed + [skb.id];
      sub := Settled;
    }

    function Settlement(s: TxState, st: Status, skb: TxSkb): TxState
    {
      s.(sub := Settled, freed := s.freed + [skb.id],
         stats := if HasError(st) || (skb.ptp && !HasPtp(st)) then s.stats.(errors := s.stats.errors + 1)
                  else s.stats.(packets := s.stats.packets + 1))
    }

    lemma SettleFacts(s: TxState)
      requires TxInv(s) && s.ring.pc.Ready? && s.sub.Woken?
      ensures TxEnabled(s, TxStep.Settle) && s.ring.done < |s.ring.written|
      ensures
        var st, skb := s.ring.written[s.ring.done], s.sub.skb;
        && st.tag == skb.tag
        && TxDo(s, TxStep.Settle) == Settlement(s, st, skb) && Settlement(s, st, skb).sub == Settled
    {
      hide TxInv, Shape, HasPtp, HasError, CurrentStatus, IsTxStatus, NeedsReset;
      Expected(s);
      ExpectedTag(s);
    }

    /** The tag check, the statistics and the end of the skb. */
    method Settle(st: Status, skb: TxSkb)
      requires Valid() && ring.pc.Ready? && sub == Woken(skb)
      requires ring.done < |ring.written| && st == ring.written[ring.done]
      modifies this`sub, this`trace, this`stats, this`freed
      ensures Valid() && sub == Settled
      ensures Took(TxStep.Settle) && Kept()
    {
      hide TxReaches, TxInv, TxInit, Effort, Settlement, TxEnabled, TxDo, TxShape, RingDma.View;
      ring.Fields();
      ghost var before := View();
      SettleFacts(before);
      if st.tag != skb.tag { assert false; }
      Account(st, skb);
      Log(before, TxStep.Settle);
    }

    lemma RecycleFacts(s: TxState, step: Step<Status>)
      requires TxInv(s) && s.ring.pc.Ready? && s.sub.Settled?
      requires Shape(s.ring) && step == Take(s.ring.drvBuf[s.ring.nextDone], true)
      ensures TxEnabled(s, TxStep.Recycle) && Enabled(s.ring, step)
      ensures TxDo(s, TxStep.Recycle) == s.(sub := Untouched, ring := Do(s.ring, step))
      ensures Recycled(s.ring, Do(s.ring, step))
    {
      hide TxInv, NeedsReset, Do, Recycled, Enabled, Shape;
      TxShapeOf(s);
      RecycleRing(s, step);
    }

    /** The ring with the current status zeroed in place. */
    ghost predicate Recycled(r: State<Status>, t: State<Status>)
    {
      && r.pc.Ready? && t.pc == Swapped(r.pc.count + 1) && t.budget == r.budget && t.done == r.done
      && t.written == r.written
      && 0 <= Effort(t) < Effort(r)
    }

    lemma RecycleRing(s: TxState, step: Step<Status>)
      requires TxInv(s) && s.ring.pc.Ready?
      requires Shape(s.ring) && step == Take(s.ring.drvBuf[s.ring.nextDone], true)
      ensures Enabled(s.ring, step) && Recycled(s.ring, Do(s.ring, step))
    {
      hide ChainOk, TableOk, PoolsOk, StatusesOk, SenderOk, LedgerOk, ChainServed, Progress, Slot;
      assert s.ring.descBuf == s.ring.drvBuf;
      RingEffort(s.ring, step);
    }

    /** The status work unit is zeroed; its buffer stays in the descriptor. */
    method Recycle()
      requires Valid() && ring.pc.Ready? && sub.Settled?
      modifies RingRepr(), this`trace, this`sub
      ensures Valid() && Progressed() && Work() < old(Work())
      ensures ring.pc == Swapped(old(ring.pc).count + 1)
      ensures sub == Untouched && kicked == old(kicked)
      ensures Took(TxStep.Recycle)
      ensures ring.done == old(ring.done)
    {
      hide TxReaches, TxInv, TxInit, TxShape, TxEnabled, TxDo, Effort, Do, Enabled, Shape, RingDma.View;
      ring.Fields();
      ghost var before := View();
      Expected(before);
      RecycleFacts(before, Take(ring.drvBuf[ring.nextDone], true));
      sub := Untouched;
      ring.Take(ring.drvBuf[ring.nextDone], true);
      ring.Fields();
      Log(before, TxStep.Recycle);
    }

    /** The skb leaves the table and the count. */
    method Remove(st: Status) returns (skb: TxSkb)
      requires Valid() && ring.pc.Ready? && sub.Untouched?
      requires ring.done < |ring.written| && st == ring.written[ring.done]
      modifies Repr()
      ensures Valid() && Progressed() && Work() <= old(Work())
      ensures ring.pc == old(ring.pc) && ring.done == old(ring.done) && kicked == old(kicked)
      ensures sub == Uncounted(skb)
    {
      hide Valid, Work, Took, Prefix;
      Onwards<TxStep>();
      Onwards<Status>();
      skb := Release(st);
      Interfere();
      Uncount();
    }

    /** The skb leaves the table, the count and the tag pool. */
    method GiveBack(st: Status) returns (skb: TxSkb)
      requires Valid() && ring.pc.Ready? && sub.Untouched?
      requires ring.done < |ring.written| && st == ring.written[ring.done]
      modifies Repr()
      ensures Valid() && Progressed() && Work() <= old(Work())
      ensures ring.pc == old(ring.pc) && ring.done == old(ring.done) && kicked == old(kicked)
      ensures sub == Recorded(skb)
    {
      hide Valid, Work, Took, Prefix, HasPtp;
      Onwards<TxStep>();
      Onwards<Status>();
      skb := Remove(st);
      Interfere();
      PutFrameTag(st.tag, HasPtp(st));
    }

    method Retire()
      requires Valid() && ring.pc.Ready? && sub.Untouched?
      modifies Repr()
      ensures Valid() && Progressed() && Work() < old(Work())
      ensures ring.pc == Swapped(old(ring.pc).count + 1)
      ensures sub == Untouched && kicked == old(kicked)
      ensures ring.done == old(ring.done)
    {
      hide Valid, Work, Took, Prefix;
      Onwards<TxStep>();
      Onwards<Status>();
      var st := ReadStatus();
      var skb := GiveBack(st);
      WakeIfRoom();
      Conclude(st, skb);
    }

    method Conclude(st: Status, skb: TxSkb)
      requires Valid() && ring.pc.Ready? && sub == Woken(skb)
      requires ring.done < |ring.written| && st == ring.written[ring.done]
      modifies Repr()
      ensures Valid() && Progressed() && Work() < old(Work())
      ensures ring.pc == Swapped(old(ring.pc).count + 1)
      ensures sub == Untouched && kicked == old(kicked)
      ensures ring.done == old(ring.done)
    {
      hide Valid, Work, Took, Prefix;
      Onwards<TxStep>();
      Onwards<Status>();
      Interfere();
      Settle(st, skb);
      Recycle();
    }

    method WakeIfRoom()
      requires Valid() && ring.pc.Ready? && sub.Recorded?
      modifies Repr()
      ensures Valid() && Progressed() && Work() <= old(Work())
      ensures ring.pc == old(ring.pc) && ring.done == old(ring.done) && kicked == old(kicked)
      ensures sub == Woken(old(sub).skb)
    {
      hide Valid, Work, Took, Prefix;
      Onwards<TxStep>();
      Onwards<Status>();
      Interfere();
      Look();
      Interfere();
      WakeUp();
    }

    // The end of an iteration: the slot goes back to the engine

    lemma SameBuffers(s: TxState)
      requires TxInv(s)
      ensures s.ring.descBuf == s.ring.drvBuf
    {
      hide Inv, ChainOk, TableOk, PoolsOk, StatusesOk, SenderOk, LedgerOk, ChainServed;
    }

    method KeepAddr()
      requires Valid() && ring.pc.Swapped?
      modifies RingRepr(), this`trace
      ensures Valid() && Progressed() && Work() < old(Work())
      ensures ring.pc == Pointed(old(ring.pc).count)
      ensures sub == old(sub) && kicked == old(kicked)
      ensures Took(OnRing(Step.WriteAddr))
      ensures ring.done == old(ring.done)
    {
      hide TxReaches, TxInv, TxInit, Effort, StatusOf, Before, After, Fresh, TxShape;
      ghost var before := View();
      SameBuffers(before);
      OnRingFacts(before, Step.WriteAddr);
      ring.KeepAddr();
      Log(before, OnRing(Step.WriteAddr));
    }

    method WriteStop()
      requires Valid() && ring.pc.Pointed?
      modifies RingRepr(), this`trace
      ensures Valid() && Progressed() && Work() < old(Work())
      ensures ring.pc == StopSet(old(ring.pc).count)
      ensures sub == old(sub) && kicked == old(kicked)
      ensures Took(OnRing(Step.WriteStop))
      ensures ring.done == old(ring.done)
    {
      hide TxReaches, TxInv, TxInit, Effort, StatusOf, Before, After, Fresh, TxShape;
      ghost var before := View();
      OnRingFacts(before, Step.WriteStop);
      ring.WriteStop();
      Log(before, OnRing(Step.WriteStop));
    }

    method LinkPrev()
      requires Valid() && ring.pc.StopSet?
      modifies RingRepr(), this`trace
      ensures Valid() && Progressed() && Work() < old(Work())
      ensures ring.pc == Linked(old(ring.pc).count)
      ensures sub == old(sub) && kicked == old(kicked)
      ensures Took(OnRing(Step.LinkPrev))
      ensures ring.done == old(ring.done)
    {
      hide TxReaches, TxInv, TxInit, Effort, StatusOf, Before, After, Fresh, TxShape;
      ghost var before := View();
      OnRingFacts(before, Step.LinkPrev);
      ring.LinkPrev();
      Log(before, OnRing(Step.LinkPrev));
    }

    method Advance()
      requires Valid() && ring.pc.Linked?
      modifies RingRepr(), this`trace
      ensures Valid() && Progressed() && Work() < old(Work())
      ensures ring.pc == Loop(old(ring.pc).count)
      ensures sub == old(sub) && kicked == old(kicked)
      ensures Took(OnRing(Step.Advance))
      ensures ring.done == old(ring.done) + 1
    {
      hide TxReaches, TxInv, TxInit, Effort, StatusOf, Before, After, Fresh, TxShape;
      ghost var before := View();
      OnRingFacts(before, Step.Advance);
      ring.Advance();
      Log(before, OnRing(Step.Advance));
    }

    method PutBack()
      requires Valid() && ring.pc.Swapped?
      modifies Repr()
      ensures Valid() && Progressed() && Work() < old(Work())
      ensures ring.pc == Loop(old(ring.pc).count) && sub == old(sub) && kicked == old(kicked)
      ensures ring.done == old(ring.done) + 1
    {
      hide Valid, Work, Took, Prefix;
      Onwards<TxStep>();
      Onwards<Status>();
      KeepAddr();
      Interfere();
      WriteStop();
      Interfere();
      LinkPrev();
      Interfere();
      Advance();
    }

    /** One pass of the loop over the status ring. */
    method Drain(budget: nat, count0: int) returns (count: int)
      requires Valid() && ring.pc == Loop(count0) && ring.budget == budget && sub == Untouched
      modifies Repr()
      ensures Valid() && Progressed() && Work() < old(Work())
      ensures ring.pc == Check(count) && sub == Untouched && kicked == old(kicked)
      ensures count - count0 == ring.done - old(ring.done) >= 0
      ensures count0 <= budget ==> count <= budget
    {
      hide Valid, Work, Took, Prefix;
      Onwards<TxStep>();
      Onwards<Status>();
      count := count0;
      while count < budget
        invariant Valid() && Progressed() && Work() <= old(Work())
        invariant ring.pc == Loop(count) && sub == Untouched && kicked == old(kicked)
        invariant count - count0 == ring.done - old(ring.done) >= 0 && (count0 <= budget ==> count <= budget)
        decreases Work()
      {
        var found := FindStatus();
        if !found { return; }
        Interfere();
        Retire();
        count := count + 1;
        PutBack();
      }
      LeaveLoop();
    }

    // Starting a poll, and after the loop

    method Begin(budget: nat)
      requires Valid() && ring.pc.Scheduled?
      modifies RingRepr(), this`trace
      ensures Valid() && old(ring.written) == ring.written && fills == old(fills)
      ensures ring.pc == Loop(0) && ring.budget == budget && sub == old(sub) && kicked == old(kicked)
      ensures Took(OnRing(PollStart(budget))) && Kept()
      ensures ring.done == old(ring.done)
    {
      hide TxReaches, TxInv, TxInit, Effort, StatusOf, Before, After, Fresh, TxShape;
      ghost var before := View();
      OnRingFacts(before, PollStart(budget));
      ring.PollStart(budget);
      Log(before, OnRing(PollStart(budget)));
    }

    method LeaveLoop()
      requires Valid() && ring.pc.Loop? && ring.pc.count >= ring.budget
      modifies RingRepr(), this`trace
      ensures Valid() && Progressed() && Work() < old(Work())
      ensures ring.pc == Check(old(ring.pc).count)
      ensures sub == old(sub) && kicked == old(kicked)
      ensures Took(OnRing(Step.ReadFirst))
      ensures ring.done == old(ring.done)
    {
      hide TxReaches, TxInv, TxInit, Effort, StatusOf, Before, After, Fresh, TxShape;
      ghost var before := View();
      OnRingFacts(before, Step.ReadFirst);
      ring.LeaveLoop();
      Log(before, OnRing(Step.ReadFirst));
    }

    lemma KickIs(s: TxState)
      requires TxInv(s) && s.ring.pc.Check? && !s.kicked && s.sender.Away?
      ensures TxEnabled(s, TxStep.KickChain)
      ensures TxDo(s, TxStep.KickChain) == s.(chain := Kick(s.chain, |s.frames|), kicked := true)
    {
      hide TxInv, TxShape, Kick;
      TxShapeOf(s);
    }

    /** The locked region after the loop: start the pending chain if the Tx DMA is halted. */
    method KickChain()
      requires Valid() && ring.pc.Check? && !kicked && sender.Away?
      modifies this`eng, this`head, this`filled, this`handed, this`kicked, this`trace
      ensures Valid() && kicked && ChainView() == Kick(old(ChainView()), |frames|)
      ensures Took(TxStep.KickChain) && Kept()
    {
      hide TxReaches, TxInv, TxInit, TxShape, TxEnabled, TxDo, Kick, RingDma.View;
      ring.Fields();
      ghost var before := View();
      KickIs(before);
      StartPending();
      kicked := true;
      Log(before, TxStep.KickChain);
    }

    method StartPending()
      modifies this`eng, this`head, this`filled, this`handed
      ensures ChainView() == Kick(old(ChainView()), |frames|)
    {
      hide RingDma.View;
      if eng.TxHalted? {
        if filled {
          eng := TxFetching(head);
          head := tail;
          filled := false;
          handed := |frames|;
        }
      }
    }

    method ReadStat() returns (halted: bool)
      requires Valid() && ring.pc.Check? && kicked
      modifies RingRepr(), this`trace, this`kicked
      ensures Valid() && Progressed() && Work() < old(Work())
      ensures ring.pc == if halted then HaltSeen(old(ring.pc).count) else Return(old(ring.pc).count)
      ensures sub == old(sub) && !kicked
      ensures Took(OnRing(Step.ReadStat))
      ensures ring.done == old(ring.done)
    {
      hide TxReaches, TxInv, TxInit, Effort, StatusOf, Before, After, Fresh, TxShape;
      ghost var before := View();
      OnRingFacts(before, Step.ReadStat);
      halted := ring.ReadStat();
      kicked := false;
      Log(before, OnRing(Step.ReadStat));
    }

    lemma RecheckFacts(s: TxState)
      requires TxInv(s) && s.ring.pc.HaltSeen?
      ensures RingEnabled(s, Step.Recheck) && Enabled(s.ring, Step.Recheck)
      ensures var t := Do(s.ring, Step.Recheck);
              && t.pc == (if !FirstByte(s.ring) then Clear(s.ring.pc.count)
                          else if s.ring.pc.count < s.ring.budget then Loop(s.ring.pc.count)
                          else Return(s.ring.pc.count))
              && t.budget == s.ring.budget && t.written == s.ring.written && t.done == s.ring.done
    {
      hide TxInv, FirstByte;
      TxShapeOf(s);
    }

    lemma RestartFacts(s: TxState)
      requires TxInv(s) && s.ring.pc.Restart?
      ensures RingEnabled(s, Step.RestartDma) && Enabled(s.ring, Step.RestartDma)
      ensures var t := Do(s.ring, Step.RestartDma);
              && t.pc == Return(Min(s.ring.pc.count, s.ring.budget - 1))
              && t.budget == s.ring.budget && t.written == s.ring.written && t.done == s.ring.done
    {
      hide TxInv;
      TxShapeOf(s);
    }

    method Recheck() returns (empty: bool)
      requires Valid() && ring.pc.HaltSeen?
      modifies RingRepr(), this`trace
      ensures Valid() && Progressed() && Work() < old(Work())
      ensures ring.pc == if empty then Clear(old(ring.pc).count)
                         else if old(ring.pc).count < ring.budget then Loop(old(ring.pc).count)
                         else Return(old(ring.pc).count)
      ensures sub == old(sub) && kicked == old(kicked)
      ensures Took(OnRing(Step.Recheck))
      ensures ring.done == old(ring.done)
    {
      hide TxReaches, TxInv, TxInit, Effort, FirstByte, Do, Enabled, RingEnabled, TxShape;
      ghost var before := View();
      RecheckFacts(before);
      OnRingFacts(before, Step.Recheck);
      empty := ring.Recheck();
      Log(before, OnRing(Step.Recheck));
    }

    method ClearIrq()
      requires Valid() && ring.pc.Clear?
      modifies RingRepr(), this`trace
      ensures Valid() && Progressed() && Work() < old(Work())
      ensures ring.pc == Restart(old(ring.pc).count)
      ensures sub == old(sub) && kicked == old(kicked)
      ensures Took(OnRing(Step.ClearIrq))
      ensures ring.done == old(ring.done)
    {
      hide TxReaches, TxInv, TxInit, Effort, StatusOf, Before, After, Fresh, TxShape;
      ghost var before := View();
      OnRingFacts(before, Step.ClearIrq);
      ring.ClearIrq();
      Log(before, OnRing(Step.ClearIrq));
    }

    method RestartDma()
      requires Valid() && ring.pc.Restart?
      modifies RingRepr(), this`trace
      ensures Valid() && Progressed() && Work() < old(Work())
      ensures ring.pc == Return(Min(old(ring.pc).count, ring.budget - 1))
      ensures sub == old(sub) && kicked == old(kicked)
      ensures Took(OnRing(Step.RestartDma))
      ensures ring.done == old(ring.done)
    {
      hide TxReaches, TxInv, TxInit, Effort, FirstByte, Do, Enabled, RingEnabled, TxShape;
      ghost var before := View();
      RestartFacts(before);
      OnRingFacts(before, Step.RestartDma);
      ring.RestartDma();
      Log(before, OnRing(Step.RestartDma));
    }

    method Resume()
      requires Valid() && ring.pc.Clear?
      modifies Repr()
      ensures Valid() && Progressed() && Work() < old(Work())
      ensures ring.pc == Return(Min(old(ring.pc).count, ring.budget - 1))
      ensures sub == old(sub) && kicked == old(kicked)
      ensures ring.done == old(ring.done)
    {
      hide Valid, Work, Took, Prefix;
      Onwards<TxStep>();
      Onwards<Status>();
      Interfere();
      ClearIrq();
      Interfere();
      RestartDma();
    }

    /** lp->lock is taken for the restart of the Tx DMA. */
    method LockAndKick()
      requires Valid() && ring.pc.Check? && !kicked
      modifies Repr()
      ensures Valid() && Progressed() && Work() <= old(Work())
      ensures ring.pc == old(ring.pc) && sub == old(sub) && kicked
      ensures ring.done == old(ring.done)
    {
      hide Valid, Work, Took, Prefix;
      Onwards<TxStep>();
      Onwards<Status>();
      Interfere();
      TakeLock();
      KickChain();
    }

    /** The restart of the Tx DMA, then the look at a halted status engine. */
    method Tail(budget: nat, count0: int) returns (count: int, again: bool)
      requires Valid() && ring.pc == Check(count0) && ring.budget == budget && sub == Untouched && !kicked
      modifies Repr()
      ensures Valid() && Progressed() && Work() < old(Work())
      ensures ring.pc == (if again then Loop(count) else Return(count)) && sub == Untouched && !kicked
      ensures ring.done == old(ring.done)
      ensures count == count0 || (!again && count == Min(count0, budget - 1))
    {
      hide Valid, Work, Took, Prefix;
      Onwards<TxStep>();
      Onwards<Status>();
      count, again := count0, false;
      LockAndKick();
      Interfere();
      var halted := ReadStat();
      if halted { count, again := AtHalt(budget, count); }
    }

    method AtHalt(budget: nat, count0: int) returns (count: int, again: bool)
      requires Valid() && ring.pc == HaltSeen(count0) && ring.budget == budget && sub == Untouched && !kicked
      modifies Repr()
      ensures Valid() && Progressed() && Work() < old(Work())
      ensures ring.pc == (if again then Loop(count) else Return(count)) && sub == Untouched && !kicked
      ensures ring.done == old(ring.done)
      ensures count == count0 || (!again && count == Min(count0, budget - 1))
    {
      hide Valid, Work, Took, Prefix;
      Onwards<TxStep>();
      Onwards<Status>();
      count, again := count0, false;
      Interfere();
      var empty := Recheck();
      if empty {
        Resume();
        count := Min(count, budget - 1);
      } else if count < budget {
        again := true;
      }
    }

    /** What a poll returns for the statuses it has retired; a restart of the engine
        keeps it below the budget. */
    predicate Counted(budget: nat, count: int, retired: int)
    {
      0 <= retired <= budget && (count == retired || (count == budget - 1 && retired == budget))
    }

    /** adi_msp_status: the loop, the two restarts and the jump back. */
    method HandleStatuses(budget: nat) returns (count: int)
      requires Valid() && ring.pc.Scheduled? && sub == Untouched && !kicked
      modifies Repr()
      ensures Valid() && Kept() && ring.pc == Return(count) && ring.budget == budget && sub == Untouched && !kicked
      ensures old(ring.written) <= ring.written && |ring.written| + fills == old(|ring.written| + fills)
      ensures old(frames) <= frames && old(freed) <= freed
      ensures Counted(budget, count, ring.done - old(ring.done))
    {
      hide Valid, Work, Took;
      Onwards<TxStep>();
      Onwards<Status>();
      Begin(budget);
      label begun:
      count := 0;
      var again := true;
      while again
        invariant Valid() && Progressed@begun()
        invariant ring.pc == (if again then Loop(count) else Return(count)) && sub == Untouched && !kicked
        invariant Counted(budget, count, ring.done - old(ring.done)) && (again ==> count == ring.done - old(ring.done))
        decreases Work()
      {
        count := Drain(budget, count);
        count, again := Tail(budget, count);
      }
      HistoryKept();
    }

    /** The books balance whenever the status poll is between two statuses. */
    ghost predicate Balanced()
      reads Repr()
    {
      && stats.resets == 0
      && stats.sends == stats.packets + stats.errors + stats.dropped + txCount + |InHand(sender)|
      && txCount + ptp.available + nonptp.available + (if sender.Tagged? then 1 else 0) == NUM_FRAME_TAGS
      && stats.packets + stats.errors <= |ring.written| && stats.packets + stats.errors <= |frames|
      && stats.errors == ErrorCount(ring.written, stats.packets + stats.errors)
      && freed == Ids(frames[..stats.packets + stats.errors])
      && multiset(submitted) == multiset(Ids(frames)) + multiset(discarded) + multiset(InHand(sender))
    }

    lemma BooksBalance()
      requires Valid() && sub.Untouched? && !Emptied(ring.pc)
      ensures Balanced()
      ensures stats.packets + stats.errors == ring.done
      ensures ring.done <= |ring.written| <= ring.done + N
    {
      hide TxReaches, TxInit, ChainOk, TableOk, StatusesOk, PoolOk, Ids, ChainServed;
      PoolBalance(ptp, nonptp, Reserved(View()), ring.done, ring.done);
    }

    /** adi_msp_status_poll.  It never asks for a Tx reset, keeps the books, and
        a completed poll leaves nothing behind that would not interrupt again. */
    method Poll(budget: nat) returns (workDone: int)
      requires Valid() && ring.pc.Scheduled? && sub == Untouched && !kicked
      modifies Repr()
      ensures Valid() && Balanced() && Kept() && sub == Untouched && !kicked
      ensures old(frames) <= frames && old(freed) <= freed
      ensures old(submitted) <= submitted && old(discarded) <= discarded
      ensures workDone <= budget
      ensures ring.pc == if workDone < budget then Idle else Scheduled
      ensures
        var settled := stats.packets + stats.errors - old(stats.packets + stats.errors);
        settled <= budget && (workDone == settled || (workDone == budget - 1 && settled == budget))
      ensures stats.packets + stats.errors - old(stats.packets + stats.errors) <= N + old(fills) - fills
      ensures workDone < budget ==> ring.enabled
      ensures workDone < budget && !ring.irq ==>
                stats.packets + stats.errors == |ring.written| && !ring.eng.Halted?
    {
      hide Valid, Work, Took, Prefix, Balanced;
      Onwards<TxStep>();
      Onwards<Status>();
      BooksBalance();
      workDone := HandleStatuses(budget);
      Leave();
      Interfere();
      if workDone < budget {
        EnableIrq();
        Answerable();
      }
      BooksBalance();
      HistoryKept();
    }

    lemma Answerable()
      requires Valid() && ring.pc.Idle?
      ensures ring.enabled
      ensures !ring.irq ==> ring.done == |ring.written| && !ring.eng.Halted?
    {
      hide TxReaches, TxInit, ChainOk, TableOk, StatusesOk, PoolsOk, LedgerOk;
      RingQuietOr(ring.View());
    }

    lemma RingQuietOr(r: State<Status>)
      requires Inv(r) && r.pc == Idle && !r.starved
      ensures r.enabled
      ensures !r.irq ==> |r.written| == r.done && !r.eng.Halted?
    {
    }

    method Leave()
      requires Valid() && ring.pc.Return?
      modifies RingRepr(), this`trace
      ensures Valid() && Progressed() && sub == old(sub) && kicked == old(kicked)
      ensures ring.pc == if old(ring.pc).count < ring.budget then Complete else Scheduled
      ensures old(ring.pc).count <= ring.budget
      ensures Took(OnRing(Step.Leave))
      ensures ring.done == old(ring.done)
    {
      hide TxReaches, TxInit, TxInv, Effort, StatusOf;
      ghost var before := View();
      WithinBudget(before);
      OnRingFacts(before, Step.Leave);
      ring.Leave();
      Log(before, OnRing(Step.Leave));
    }

    lemma WithinBudget(s: TxState)
      requires TxInv(s) && s.ring.pc.Return?
      ensures s.ring.pc.count <= s.ring.budget
    {
      hide ChainOk, TableOk, StatusesOk, PoolsOk, SenderOk, LedgerOk, ChainServed, Progress, Core;
    }

    method EnableIrq()
      requires Valid() && ring.pc.Complete?
      modifies RingRepr(), this`trace
      ensures Valid() && Progressed()
      ensures ring.pc == Idle
      ensures sub == old(sub) && kicked == old(kicked)
      ensures Took(OnRing(Step.EnableIrq))
      ensures ring.done == old(ring.done)
    {
      hide TxReaches, TxInv, TxInit, Effort, StatusOf, Before, After, Fresh, TxShape;
      ghost var before := View();
      OnRingFacts(before, Step.EnableIrq);
      ring.EnableIrq();
      Log(before, OnRing(Step.EnableIrq));
    }

    /** The DMADONE handler: mask the interrupt and schedule the poll. */
    method Interrupt()
      requires Valid() && ring.irq && ring.enabled && ring.pc.Idle?
      modifies RingRepr(), this`trace
      ensures Valid() && Progressed()
      ensures ring.pc == Scheduled && !ring.enabled
      ensures sub == old(sub) && kicked == old(kicked)
      ensures Took(OnRing(Step.Interrupt))
    {
      hide TxReaches, TxInv, TxInit, Effort, StatusOf, Before, After, Fresh, TxShape;
      ghost var before := View();
      OnRingFacts(before, Step.Interrupt);
      ring.Interrupt();
      Log(before, OnRing(Step.Interrupt));
    }

    // The status poll seen from a sender

    /** The poll and the engines run between two accesses of a sender. */
    method OthersRun()
      requires Valid()
      modifies Repr()
      ensures Valid() && Waited()
    {
      hide Valid, Took, Prefix;
      Onwards<TxStep>();
      Onwards<Status>();
      var steps: int := *;
      while steps > 0
        invariant Valid() && Waited()
      {
        if * { EngineStep(); } else { PollerStep(); }
        steps := steps - 1;
      }
    }

    /** One step of the status poll, from wherever it is. */
    method PollerStep()
      requires Valid()
      modifies Repr()
      ensures Valid() && Waited()
    {
      hide Valid, Waited;
      match ring.pc {
        case Ready(_) => RetireStep();
        case Loop(_) => LoopStep();
        case Started(_) => LoopStep();
        case Addressed(_, _) => LoopStep();
        case Swapped(_) => LoopStep();
        case Pointed(_) => LoopStep();
        case StopSet(_) => LoopStep();
        case Linked(_) => LoopStep();
        case _ => TailStep();
      }
    }

    method LoopStep()
      requires Valid()
      requires ring.pc.Loop? || ring.pc.Started? || ring.pc.Addressed? || Emptied(ring.pc)
      modifies Repr()
      ensures Valid() && Waited()
    {
      hide Valid, Work, Took, Prefix;
      Onwards<TxStep>();
      Onwards<Status>();
      match ring.pc {
        case Loop(count) =>
          if count < ring.budget { var _ := ReadFirst(); } else { LeaveLoop(); }
        case Started(_) => var _ := ReadAddr();
        case Addressed(_, inside) => var _ := ReadPrv(inside);
        case Swapped(_) => KeepAddr();
        case Pointed(_) => WriteStop();
        case StopSet(_) => LinkPrev();
        case Linked(_) => Advance();
      }
    }

    method TailStep()
      requires Valid()
      requires !ring.pc.Loop? && !ring.pc.Started? && !ring.pc.Addressed? && !ring.pc.Ready? && !Emptied(ring.pc)
      modifies Repr()
      ensures Valid() && Waited()
    {
      hide Valid, Work, Took, Prefix;
      Onwards<TxStep>();
      Onwards<Status>();
      match ring.pc {
        case Idle => if ring.irq && ring.enabled { Interrupt(); }
        case Scheduled =>
          var budget: nat := *;
          Begin(budget);
        case Check(_) =>
          if kicked {
            var _ := ReadStat();
          } else if sender.Away? {
            KickChain();
          }
        case HaltSeen(_) => var _ := Recheck();
        case Clear(_) => ClearIrq();
        case Restart(_) => RestartDma();
        case Return(_) => Leave();
        case Complete => EnableIrq();
      }
    }

    method RetireStep()
      requires Valid() && ring.pc.Ready?
      modifies Repr()
      ensures Valid() && Waited()
    {
      hide Valid, Work, Took, Prefix, HasPtp;
      Onwards<TxStep>();
      Onwards<Status>();
      var st := ReadStatus();
      match sub {
        case Untouched => var _ := Release(st);
        case Released(_) => Uncount();
        case Uncounted(_) => ReturnTag(st.tag, HasPtp(st));
        case Returned(_) => RecordTag(st.tag, HasPtp(st));
        case Recorded(_) => Look();
        case Looked(_, _) => WakeUp();
        case Woken(skb) => Settle(st, skb);
        case Settled => Recycle();
      }
    }
  }
}
