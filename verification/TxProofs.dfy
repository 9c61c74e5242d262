/** What every step of the transmit path keeps. */
module TxProofs {
  import opened Ring
  import opened RingProofs
  import opened TxTags
  import opened TxChain
  import opened TxPath

  ghost function Stage(sub: Sub): nat
  {
    match sub
    case Untouched => 0
    case Released(_) => 1
    case Uncounted(_) => 2
    case Returned(_) => 3
    case Recorded(_) => 4
    case Looked(_, _) => 5
    case Woken(_) => 6
    case Settled => 7
  }

  /** How many frames the poll has brought at least to the given stage. */
  ghost function Upto(s: TxState, stage: nat): nat
  {
    if Stage(s.sub) >= stage || Emptied(s.ring.pc) then s.ring.done + 1 else s.ring.done
  }

  /** tx_skb holds the frames not yet released, and nothing else. */
  ghost predicate TableOk(table: seq<Option<TxSkb>>, frames: seq<TxSkb>, released: nat)
  {
    && |table| == N
    && (forall k :: released <= k < |frames| ==> table[Slot(k)] == Some(frames[k]))
    && (forall k :: |frames| <= k < released + N ==> table[Slot(k)] == None)
  }

  /** The k-th status written answers the k-th frame accepted. */
  ghost predicate Answers(st: Status, f: TxSkb)
  {
    IsTxStatus(st) && st.tag == f.tag && HasPtp(st) == f.ptp
  }

  ghost predicate StatusesOk(written: seq<Status>, frames: seq<TxSkb>)
  {
    && |written| <= |frames|
    && forall k :: 0 <= k < |written| ==> Answers(written[k], frames[k])
  }

  ghost predicate Progress(s: TxState)
  {
    && (s.sub.Untouched? || s.ring.pc.Ready?)
    && (s.kicked ==> s.ring.pc.Check?)
    && !s.ring.starved
    && s.ring.descBuf == s.ring.drvBuf
    && |s.ring.written| <= s.chain.read <= s.chain.handed <= |s.frames|
    && (s.ring.eng.Writing? ==> |s.ring.written| < s.chain.read)
    && Upto(s, 1) <= |s.ring.written|
    && (!s.sub.Untouched? && !s.sub.Settled? ==> s.sub.skb == s.frames[s.ring.done])
    && s.count == |s.frames| - Upto(s, 2)
    && s.count <= N
  }

  /** The frames that have a tag: those accepted, and one a sender is about to commit. */
  ghost function Reserved(s: TxState): seq<TxSkb>
  {
    if s.sender.Tagged? then s.frames + [s.sender.skb] else s.frames
  }

  ghost predicate PoolsOk(s: TxState)
    requires Upto(s, 1) <= |s.frames|
  {
    && PoolOk(s.ptp, true, Reserved(s), Upto(s, 3), Upto(s, 4))
    && PoolOk(s.nonptp, false, Reserved(s), Upto(s, 3), Upto(s, 4))
  }

  /** What a sender has seen stays true: the poll only makes room. */
  ghost predicate SenderOk(s: TxState)
  {
    match s.sender
    case Away => true
    case Tagged(skb, _) => s.count < N
    case _ =>
      && s.sender.packet.length <= 0xffff && s.count < N
      && PoolFor(s, s.sender.packet.ptp).available >= 1
  }

  ghost predicate InLoop(pc: Pc)
  {
    pc.Loop? || pc.Started? || pc.Addressed? || pc.Ready? || Emptied(pc)
  }

  /** A halted DMA leaves a chain pending only while a frame handed to it is
      still to be retired or the poll has yet to pass the restart. */
  ghost predicate ChainServed(s: TxState)
  {
    s.chain.eng.TxHalted? && s.chain.filled ==>
      Upto(s, 2) < s.chain.handed || InLoop(s.ring.pc) || (s.ring.pc.Check? && !s.kicked)
  }

  /** How many of the first `k` statuses report an error. */
  ghost function ErrorCount(written: seq<Status>, k: nat): (n: nat)
    requires k <= |written|
    ensures n <= k
  {
    if k == 0 then 0 else ErrorCount(written, k - 1) + if HasError(written[k - 1]) then 1 else 0
  }

  lemma {:induction false} ErrorCountPrefix(written: seq<Status>, st: Status, k: nat)
    requires k <= |written|
    ensures ErrorCount(written + [st], k) == ErrorCount(written, k)
  {
    if k > 0 { ErrorCountPrefix(written, st, k - 1); }
  }

  /** The skb a sender is working on. */
  function InHand(sender: Sender): seq<nat>
  {
    match sender
    case Away => []
    case Tagged(skb, _) => [skb.id]
    case _ => [sender.packet.id]
  }

  ghost predicate LedgerOk(s: TxState)
    requires Upto(s, 7) <= |s.frames| && Upto(s, 7) <= |s.ring.written|
  {
    && s.stats.resets == 0
    && s.stats.errors == ErrorCount(s.ring.written, Upto(s, 7))
    && s.stats.packets == Upto(s, 7) - s.stats.errors
    && s.stats.sends == |s.submitted| == |s.frames| + s.stats.dropped + |InHand(s.sender)|
    && s.stats.dropped == |s.discarded|
    && multiset(s.submitted) == multiset(Ids(s.frames)) + multiset(s.discarded) + multiset(InHand(s.sender))
    && s.freed == Ids(s.frames[..Upto(s, 7)])
  }

  ghost predicate TxInv(s: TxState)
  {
    && Inv(s.ring)
    && Progress(s)
    && ChainOk(s.chain, s.frames)
    && StatusesOk(s.ring.written, s.frames)
    && TableOk(s.table, s.frames, Upto(s, 1))
    && PoolsOk(s)
    && SenderOk(s)
    && ChainServed(s)
    && LedgerOk(s)
  }

  lemma TxInitInv(s: TxState)
    requires TxInit(s)
    ensures TxInv(s)
  {
    InitInv(s.ring);
    EmptyOk();
    FullPoolOk(true);
    FullPoolOk(false);
  }

  /** The status found done belongs to the oldest frame not yet retired. */
  lemma CurrentAnswers(s: TxState)
    requires TxInv(s) && s.ring.pc.Ready?
    ensures s.ring.done < |s.frames| && Answers(CurrentStatus(s), s.frames[s.ring.done])
  {
    assert s.ring.mem[s.ring.drvBuf[Slot(s.ring.done)]] == Full(s.ring.written[s.ring.done]);
    assert Answers(s.ring.written[s.ring.done], s.frames[s.ring.done]);
  }

  lemma CurrentIsWritten(s: TxState)
    requires TxInv(s) && s.ring.pc.Ready?
    ensures s.ring.done < |s.ring.written| && CurrentStatus(s) == s.ring.written[s.ring.done]
  {
    assert s.ring.mem[s.ring.drvBuf[Slot(s.ring.done)]] == Full(s.ring.written[s.ring.done]);
  }

  lemma NoReset(s: TxState)
    requires TxInv(s) && TxShape(s) && s.ring.pc.Ready?
    ensures !NeedsReset(s)
  {
    hide Inv, ChainOk, CurrentStatus, HasPtp, IsTxStatus, TagAt, CountOf, Slot, TableOk, Ids, StatusesOk, PoolOk;
    NextIsDone(s.ring);
    CurrentAnswers(s);
    var k := s.ring.done;
    var f := s.frames[k];
    if s.sub.Untouched? {
      TableReleaseOk(s.table, s.frames, k);
    } else if s.sub.Uncounted? || s.sub.Returned? {
      NextReturnIsExpected(PoolFor(s, f.ptp), f.ptp, Reserved(s), Upto(s, 3), Upto(s, 4));
    }
  }

  /** None of the reset branches can be taken. */
  lemma ResetUnreachable(s: TxState)
    requires TxInv(s)
    ensures !TxEnabled(s, Reset)
  {
    hide TxInv, NeedsReset;
    if TxShape(s) && s.ring.pc.Ready? { NoReset(s); }
  }

  lemma NextIsDone(r: State<Status>)
    requires Inv(r)
    ensures r.nextDone == Slot(r.done)
    ensures r.pc.Ready? || Emptied(r.pc) ==> r.done < |r.written|
  {
  }

  lemma TxStepInv(s: TxState, step: TxStep)
    requires TxInv(s) && TxEnabled(s, step)
    ensures TxInv(TxDo(s, step))
  {
    hide TxInv, TxDo, TxEnabled;
    match step
    case OnRing(st) => OnRingInv(s, st);
    case Enter(packet) => EnterInv(s, packet);
    case Threshold => ThresholdInv(s);
    case StopQueue => StopQueueInv(s);
    case Abandon => AbandonInv(s);
    case TakeTag => TakeTagInv(s);
    case Commit => CommitInv(s);
    case TxFetch => TxFetchInv(s);
    case TxFinish => TxFinishInv(s);
    case Release => ReleaseInv(s);
    case Uncount => UncountInv(s);
    case ReturnTag => ReturnTagInv(s);
    case RecordTag => RecordTagInv(s);
    case Look => LookInv(s);
    case WakeUp => WakeUpInv(s);
    case Settle => SettleInv(s);
    case Recycle => RecycleInv(s);
    case KickChain => KickChainInv(s);
    case Reset => ResetUnreachable(s);
  }

  // The status ring

  lemma RingKeeps(s: TxState, step: Step<Status>)
    requires RingEnabled(s, step)
    ensures
      var t := Do(s.ring, step);
      && (t.written == s.ring.written || (step.HwComplete? && t.written == s.ring.written + [step.unit]))
      && (t.eng.Writing? ==> s.ring.eng.Writing? || step.HwBegin?)
      && (step.HwComplete? ==> !t.eng.Writing?)
      && t.done == (if step.Advance? then s.ring.done + 1 else s.ring.done)
      && (t.starved ==> s.ring.starved)
  {
    hide Enabled, Do;
    EnabledOnRing(s, step);
    RingHistory(s.ring, step);
    RingEngine(s.ring, step);
  }

  lemma EnabledOnRing(s: TxState, step: Step<Status>)
    requires RingEnabled(s, step)
    ensures Enabled(s.ring, step) && !step.Take? && !step.AllocFail?
  {
  }

  lemma RingHistory(r: State<Status>, step: Step<Status>)
    requires Enabled(r, step) && !step.AllocFail?
    ensures
      var t := Do(r, step);
      && t.written == (if step.HwComplete? then r.written + [step.unit] else r.written)
      && t.done == (if step.Advance? then r.done + 1 else r.done)
      && (t.starved ==> r.starved)
  {
    hide FirstByte, Before, After, Fresh, Min, Shape;
  }

  lemma RingEngine(r: State<Status>, step: Step<Status>)
    requires Enabled(r, step)
    ensures
      var t := Do(r, step);
      && (t.eng.Writing? ==> r.eng.Writing? || step.HwBegin?)
      && (step.HwComplete? ==> !t.eng.Writing?)
  {
    hide FirstByte, Before, After, Fresh, Min, Shape;
  }

  /** Status buffers stay where they are. */
  lemma RingBuffers(s: TxState, step: Step<Status>)
    requires RingEnabled(s, step) && s.ring.descBuf == s.ring.drvBuf
    ensures Do(s.ring, step).descBuf == Do(s.ring, step).drvBuf
  {
    hide FirstByte, Before, After, StatusOf, Fresh, Min;
    var r := s.ring;
    assert r.descBuf[r.nextDone := r.drvBuf[r.nextDone]] == r.descBuf;
  }

  lemma RingMoves(s: TxState, step: Step<Status>)
    requires RingEnabled(s, step)
    ensures
      var t := Do(s.ring, step);
      && (s.ring.pc.Ready? ==> t.pc == s.ring.pc)
      && (Emptied(t.pc) <==> Emptied(s.ring.pc) && !step.Advance?)
      && (step.Advance? ==> s.ring.pc.Linked?)
      && (s.ring.pc.Check? && !step.ReadStat? ==> t.pc == s.ring.pc)
      && (t.pc.Check? ==> InLoop(s.ring.pc) || s.ring.pc.Check?)
      && (InLoop(s.ring.pc) ==> InLoop(t.pc) || t.pc.Check?)
      && (step.ReadStat? ==> s.ring.pc.Check? && !t.pc.Check?)
  {
    hide FirstByte, Before, After, StatusOf, Fresh, Min, Shape;
  }

  lemma StatusesMore(written: seq<Status>, frames: seq<TxSkb>, st: Status)
    requires StatusesOk(written, frames) && |written| < |frames| && Answers(st, frames[|written|])
    ensures StatusesOk(written + [st], frames)
  {
    hide Answers;
  }

  lemma OnRingInv(s: TxState, step: Step<Status>)
    requires TxInv(s) && TxEnabled(s, OnRing(step))
    ensures TxInv(TxDo(s, OnRing(step)))
  {
    hide Do, Enabled, Inv, ChainOk, TableOk, PoolOk, Ids, StatusesOk, IsTxStatus, HasPtp;
    var t := TxDo(s, OnRing(step));
    StepInv(s.ring, step);
    RingKeeps(s, step);
    RingMoves(s, step);
    RingBuffers(s, step);
    NextIsDone(s.ring);
    if step.HwComplete? {
      StatusesMore(s.ring.written, s.frames, step.unit);
      ErrorCountPrefix(s.ring.written, step.unit, Upto(s, 7));
    }
    assert forall n :: n >= 1 ==> Upto(t, n) == Upto(s, n);
  }

  // The senders

  lemma TableAppendOk(table: seq<Option<TxSkb>>, frames: seq<TxSkb>, released: nat, f: TxSkb)
    requires TableOk(table, frames, released) && released <= |frames| < released + N
    ensures TableOk(table[Slot(|frames|) := Some(f)], frames + [f], released)
  {
    hide Slot;
    SlotOthers(released, |frames|);
  }

  lemma ClearedSlot(table: seq<Option<TxSkb>>, released: nat)
    requires |table| == N
    ensures
      var after := table[Slot(released) := None];
      && (forall k :: released < k < released + N ==> after[Slot(k)] == table[Slot(k)])
      && after[Slot(released + N)] == None
  {
    hide Slot;
    SlotStep(released);
    forall k | released < k < released + N
      ensures Slot(k) != Slot(released)
    {
      SlotApart(released, k);
    }
  }

  lemma TableReleaseOk(table: seq<Option<TxSkb>>, frames: seq<TxSkb>, released: nat)
    requires TableOk(table, frames, released) && released < |frames| <= released + N
    ensures TableOk(table[Slot(released) := None], frames, released + 1)
    ensures table[Slot(released)] == Some(frames[released])
  {
    hide Slot;
    ClearedSlot(table, released);
  }

  lemma StatusesAppend(written: seq<Status>, frames: seq<TxSkb>, f: TxSkb)
    requires StatusesOk(written, frames)
    ensures StatusesOk(written, frames + [f])
  {
    hide Answers;
  }

  lemma AppendFacts(c: Chain, skb: nat, total: nat)
    requires ChainShape(c)
    ensures
      var t := Append(c, skb, total);
      && t.read == c.read
      && (if c.eng.TxHalted? then t.handed == total + 1 else t.handed == c.handed)
      && !t.eng.TxHalted?
  {
  }

  /** A step of a sender before the commit touches neither the rings nor the books of the frames. */
  ghost predicate SameRings(s: TxState, t: TxState)
  {
    && t.ring == s.ring && t.chain == s.chain && t.table == s.table && t.count == s.count
    && t.sub == s.sub && t.kicked == s.kicked && t.frames == s.frames
  }

  lemma RingsFrame(s: TxState, t: TxState)
    requires TxInv(s) && SameRings(s, t)
    ensures Inv(t.ring) && Progress(t) && ChainOk(t.chain, t.frames) && StatusesOk(t.ring.written, t.frames)
    ensures TableOk(t.table, t.frames, Upto(t, 1)) && ChainServed(t)
    ensures Upto(t, 1) == Upto(s, 1) <= |s.frames| && Upto(t, 3) == Upto(s, 3) && Upto(t, 4) == Upto(s, 4)
    ensures Upto(t, 7) == Upto(s, 7) <= |s.frames| && Upto(s, 7) <= |s.ring.written|
  {
    hide Inv, ChainOk, PoolOk, TableOk, StatusesOk, LedgerOk, SenderOk;
  }

  lemma PoolsFrame(s: TxState, t: TxState)
    requires Upto(s, 1) <= |s.frames| && Upto(t, 1) <= |t.frames| && PoolsOk(s)
    requires t.ptp == s.ptp && t.nonptp == s.nonptp && Reserved(t) == Reserved(s)
    requires Upto(t, 3) == Upto(s, 3) && Upto(t, 4) == Upto(s, 4)
    ensures PoolsOk(t)
  {
    hide Upto, Reserved, PoolOk;
  }

  lemma EnterInv(s: TxState, packet: Packet)
    requires TxInv(s) && TxEnabled(s, Enter(packet))
    ensures TxInv(TxDo(s, Enter(packet)))
  {
    hide Inv, Progress, ChainOk, PoolsOk, TableOk, StatusesOk, ChainServed, LedgerOk, Upto, Shape, ChainShape;
    var t := TxDo(s, Enter(packet));
    RingsFrame(s, t);
    PoolsFrame(s, t);
    EnterLedger(s, packet);
    AvailableNotNegative(s, packet.ptp);
  }

  lemma AvailableNotNegative(s: TxState, isPtp: bool)
    requires TxInv(s)
    ensures PoolFor(s, isPtp).available >= 0
  {
    hide Inv, ChainOk, PoolOk, TableOk, StatusesOk, LedgerOk, ChainServed;
    NotNegative(PoolFor(s, isPtp), isPtp, Reserved(s), Upto(s, 3), Upto(s, 4));
  }

  lemma NotNegative(p: Pool, isPtp: bool, frames: seq<TxSkb>, returned: nat, recorded: nat)
    requires returned <= |frames| && recorded <= |frames|
    requires PoolOk(p, isPtp, frames, returned, recorded)
    ensures p.available >= 0
  {
  }

  /** The ledger depends on the histories and the statistics only. */
  lemma LedgerFrame(s: TxState, t: TxState)
    requires Upto(s, 7) <= |s.frames| && Upto(s, 7) <= |s.ring.written| && LedgerOk(s)
    requires Upto(t, 7) == Upto(s, 7) && t.frames == s.frames && t.ring.written == s.ring.written
    requires t.stats == s.stats && t.submitted == s.submitted && t.discarded == s.discarded && t.freed == s.freed
    requires InHand(t.sender) == InHand(s.sender)
    ensures LedgerOk(t)
  {
  }

  lemma CommitLedger(s: TxState)
    requires Upto(s, 7) <= |s.frames| && Upto(s, 7) <= |s.ring.written| && LedgerOk(s)
    requires TxShape(s) && s.sender.Tagged?
    ensures
      var t := DoCommit(s);
      Upto(t, 7) <= |t.frames| && Upto(t, 7) <= |t.ring.written| && LedgerOk(t)
  {
    hide Ids, ErrorCount, Append, Shape;
    var t := DoCommit(s);
    IdsAppend(s.frames, s.sender.skb);
    assert t.frames[..Upto(s, 7)] == s.frames[..Upto(s, 7)];
  }

  lemma EnterLedger(s: TxState, packet: Packet)
    requires Upto(s, 7) <= |s.frames| && Upto(s, 7) <= |s.ring.written| && LedgerOk(s) && s.sender.Away?
    ensures
      var t := DoEnter(s, packet);
      Upto(t, 7) <= |t.frames| && Upto(t, 7) <= |t.ring.written| && LedgerOk(t)
  {
    hide Ids, ErrorCount;
    var t := DoEnter(s, packet);
    assert multiset(t.submitted) == multiset(s.submitted) + multiset([packet.id]);
  }

  lemma DropLedger(s: TxState)
    requires Upto(s, 7) <= |s.frames| && Upto(s, 7) <= |s.ring.written| && LedgerOk(s) && s.sender.Preparing?
    ensures
      var t := Drop(s, s.sender.packet.id);
      Upto(t, 7) <= |t.frames| && Upto(t, 7) <= |t.ring.written| && LedgerOk(t)
  {
    hide Ids, ErrorCount;
  }

  lemma ThresholdInv(s: TxState)
    requires TxInv(s) && TxEnabled(s, Threshold)
    ensures TxInv(TxDo(s, Threshold))
  {
    hide Inv, Progress, ChainOk, PoolsOk, TableOk, StatusesOk, ChainServed, LedgerOk, Upto, Shape, ChainShape;
    var t := TxDo(s, Threshold);
    RingsFrame(s, t);
    PoolsFrame(s, t);
    LedgerFrame(s, t);
  }

  lemma StopQueueInv(s: TxState)
    requires TxInv(s) && TxEnabled(s, StopQueue)
    ensures TxInv(TxDo(s, StopQueue))
  {
    hide Inv, Progress, ChainOk, PoolsOk, TableOk, StatusesOk, ChainServed, LedgerOk, Upto, Shape, ChainShape;
    var t := TxDo(s, StopQueue);
    RingsFrame(s, t);
    PoolsFrame(s, t);
    LedgerFrame(s, t);
  }

  lemma AbandonInv(s: TxState)
    requires TxInv(s) && TxEnabled(s, Abandon)
    ensures TxInv(TxDo(s, Abandon))
  {
    hide Inv, Progress, ChainOk, PoolsOk, TableOk, StatusesOk, ChainServed, LedgerOk, Upto, Shape, ChainShape;
    var t := TxDo(s, Abandon);
    RingsFrame(s, t);
    PoolsFrame(s, t);
    DropLedger(s);
  }

  lemma TakeTagInv(s: TxState)
    requires TxInv(s) && TxEnabled(s, TakeTag)
    ensures TxInv(TxDo(s, TakeTag))
  {
    hide Inv, Progress, ChainOk, PoolsOk, TableOk, StatusesOk, ChainServed, LedgerOk, Upto, Shape, ChainShape, GetTag;
    var t := TxDo(s, TakeTag);
    RingsFrame(s, t);
    TakeTagPools(s);
    LedgerFrame(s, t);
  }

  lemma TakeTagPools(s: TxState)
    requires TxInv(s) && s.sender.Preparing?
    ensures
      var t := DoTakeTag(s);
      Upto(t, 1) <= |t.frames| && PoolsOk(t)
  {
    hide Inv, ChainOk, PoolOk, TableOk, StatusesOk, Ids, GetTag, ChainServed, LedgerOk;
    var t := DoTakeTag(s);
    var isPtp := s.sender.packet.ptp;
    GetKeepsPool(PoolFor(s, isPtp), isPtp, s.frames, Upto(s, 3), Upto(s, 4), t.sender.skb);
    OtherKeepsPool(PoolFor(s, !isPtp), !isPtp, s.frames, Upto(s, 3), Upto(s, 4), t.sender.skb);
    assert Upto(t, 1) == Upto(s, 1) && Upto(t, 3) == Upto(s, 3) && Upto(t, 4) == Upto(s, 4);
  }

  lemma CommitInv(s: TxState)
    requires TxInv(s) && TxEnabled(s, Commit)
    ensures TxInv(TxDo(s, Commit))
  {
    hide Inv, ChainOk, PoolOk, TableOk, StatusesOk, Ids, DescOk, Slot, Append, LedgerOk;
    var f := s.sender.skb;
    var t := TxDo(s, Commit);
    ChainFacts(s.chain, s.frames);
    AppendOk(s.chain, s.frames, f);
    ChainFacts(t.chain, t.frames);
    AppendFacts(s.chain, f.id, |s.frames|);
    TableAppendOk(s.table, s.frames, Upto(s, 1), f);
    StatusesAppend(s.ring.written, s.frames, f);
    CommitLedger(s);
    assert forall n :: n >= 1 ==> Upto(t, n) == Upto(s, n);
  }

  lemma IdsAppend(frames: seq<TxSkb>, f: TxSkb)
    ensures Ids(frames + [f]) == Ids(frames) + [f.id]
  {
  }

  // The Tx engine

  lemma TxFetchInv(s: TxState)
    requires TxInv(s) && TxEnabled(s, TxFetch)
    ensures TxInv(TxDo(s, TxFetch))
  {
    hide Inv, ChainOk, PoolsOk, TableOk, StatusesOk, LedgerOk, Shape, Slot;
    var t := TxDo(s, TxFetch);
    FetchOk(s.chain, s.frames);
    assert forall n :: n >= 1 ==> Upto(t, n) == Upto(s, n);
    PoolsFrame(s, t);
    LedgerFrame(s, t);
  }

  lemma TxFinishInv(s: TxState)
    requires TxInv(s) && TxEnabled(s, TxFinish)
    ensures TxInv(TxDo(s, TxFinish))
  {
    hide Inv, ChainOk, PoolsOk, TableOk, StatusesOk, LedgerOk, Shape, Slot;
    var t := TxDo(s, TxFinish);
    ChainFacts(s.chain, s.frames);
    FinishOk(s.chain, s.frames);
    ChainFacts(t.chain, t.frames);
    assert forall n :: n >= 1 ==> Upto(t, n) == Upto(s, n);
    PoolsFrame(s, t);
    LedgerFrame(s, t);
  }

  // The status poll

  lemma ReleaseInv(s: TxState)
    requires TxInv(s) && TxEnabled(s, Release)
    ensures TxInv(TxDo(s, Release))
  {
    hide Inv, ChainOk, PoolOk, TableOk, StatusesOk, Ids, NeedsReset, Slot;
    var t := TxDo(s, Release);
    NextIsDone(s.ring);
    TableReleaseOk(s.table, s.frames, s.ring.done);
    assert Upto(t, 1) == s.ring.done + 1;
    assert forall n :: n >= 2 ==> Upto(t, n) == Upto(s, n) == s.ring.done;
  }

  lemma UncountInv(s: TxState)
    requires TxInv(s) && TxEnabled(s, Uncount)
    ensures TxInv(TxDo(s, Uncount))
  {
    hide Inv, ChainOk, PoolOk, TableOk, StatusesOk, Ids;
    var t := TxDo(s, Uncount);
    assert Upto(t, 2) == s.ring.done + 1 && Upto(s, 2) == s.ring.done;
    assert forall n :: n >= 1 && n != 2 ==> Upto(t, n) == Upto(s, n);
  }

  lemma ReturnTagInv(s: TxState)
    requires TxInv(s) && TxEnabled(s, ReturnTag)
    ensures TxInv(TxDo(s, ReturnTag))
  {
    hide Inv, ChainOk, PoolsOk, TableOk, StatusesOk, Ids, LedgerOk, NeedsReset, CurrentStatus, HasPtp, IsTxStatus;
    var t := TxDo(s, ReturnTag);
    CurrentAnswers(s);
    ReturnTagPools(s);
    assert forall n :: n >= 1 && n != 3 ==> Upto(t, n) == Upto(s, n);
    LedgerFrame(s, t);
  }

  lemma ReturnTagPools(s: TxState)
    requires TxInv(s) && TxEnabled(s, ReturnTag)
    ensures var t := TxDo(s, ReturnTag); Upto(t, 1) <= |t.frames| && PoolsOk(t)
  {
    hide Inv, ChainOk, PoolOk, TableOk, StatusesOk, Ids, LedgerOk, NeedsReset, CurrentStatus, HasPtp, IsTxStatus,
         ChainServed, SenderOk;
    CurrentAnswers(s);
    ReturnKeepsPool(s.ptp, true, Reserved(s), s.ring.done);
    ReturnKeepsPool(s.nonptp, false, Reserved(s), s.ring.done);
  }

  lemma RecordTagInv(s: TxState)
    requires TxInv(s) && TxEnabled(s, RecordTag)
    ensures TxInv(TxDo(s, RecordTag))
  {
    hide Inv, ChainOk, PoolsOk, TableOk, StatusesOk, Ids, LedgerOk, NeedsReset, CurrentStatus, HasPtp, IsTxStatus;
    var t := TxDo(s, RecordTag);
    CurrentAnswers(s);
    RecordTagPools(s);
    assert forall n :: n >= 1 && n != 4 ==> Upto(t, n) == Upto(s, n);
    LedgerFrame(s, t);
  }

  lemma RecordTagPools(s: TxState)
    requires TxInv(s) && TxEnabled(s, RecordTag)
    ensures var t := TxDo(s, RecordTag); Upto(t, 1) <= |t.frames| && PoolsOk(t)
  {
    hide Inv, ChainOk, PoolOk, TableOk, StatusesOk, Ids, LedgerOk, NeedsReset, CurrentStatus, HasPtp, IsTxStatus,
         ChainServed, SenderOk;
    CurrentAnswers(s);
    RecordKeepsPool(s.ptp, true, Reserved(s), s.ring.done);
    RecordKeepsPool(s.nonptp, false, Reserved(s), s.ring.done);
  }

  lemma LookInv(s: TxState)
    requires TxInv(s) && TxEnabled(s, Look)
    ensures TxInv(TxDo(s, Look))
  {
    hide Inv, ChainOk, PoolOk, TableOk, StatusesOk, Ids;
    var t := TxDo(s, Look);
    assert forall n :: n >= 1 && n != 5 ==> Upto(t, n) == Upto(s, n);
  }

  lemma WakeUpInv(s: TxState)
    requires TxInv(s) && TxEnabled(s, WakeUp)
    ensures TxInv(TxDo(s, WakeUp))
  {
    hide Inv, ChainOk, PoolOk, TableOk, StatusesOk, Ids;
    var t := TxDo(s, WakeUp);
    assert forall n :: n >= 1 && n != 6 ==> Upto(t, n) == Upto(s, n);
  }

  lemma IdsMore(frames: seq<TxSkb>, k: nat)
    requires k < |frames|
    ensures Ids(frames[..k + 1]) == Ids(frames[..k]) + [frames[k].id]
  {
  }

  lemma SettleInv(s: TxState)
    requires TxInv(s) && TxEnabled(s, Settle)
    ensures TxInv(TxDo(s, Settle))
  {
    hide Inv, ChainOk, PoolOk, TableOk, StatusesOk, Ids, NeedsReset, CurrentStatus, HasPtp, HasError;
    var t := TxDo(s, Settle);
    CurrentAnswers(s);
    IdsMore(s.frames, s.ring.done);
    assert Upto(t, 7) == s.ring.done + 1 && Upto(s, 7) == s.ring.done;
    CurrentIsWritten(s);
    assert forall n :: n >= 1 && n != 7 ==> Upto(t, n) == Upto(s, n);
  }

  lemma RecycleInv(s: TxState)
    requires TxInv(s) && TxEnabled(s, Recycle)
    ensures TxInv(TxDo(s, Recycle))
  {
    hide Inv, ChainOk, PoolOk, TableOk, StatusesOk, Ids;
    var t := TxDo(s, Recycle);
    StepInv(s.ring, Take(s.ring.drvBuf[s.ring.nextDone], true));
    assert forall n :: 1 <= n <= 7 ==> Upto(t, n) == Upto(s, n);
  }

  lemma KickChainInv(s: TxState)
    requires TxInv(s) && TxEnabled(s, KickChain)
    ensures TxInv(TxDo(s, KickChain))
  {
    hide Inv, ChainOk, PoolsOk, TableOk, StatusesOk, LedgerOk, Shape, Slot;
    var t := TxDo(s, KickChain);
    ChainFacts(s.chain, s.frames);
    KickOk(s.chain, s.frames);
    ChainFacts(t.chain, t.frames);
    assert forall n :: n >= 1 ==> Upto(t, n) == Upto(s, n);
    PoolsFrame(s, t);
    LedgerFrame(s, t);
  }
}
