/** What holds of the transmit path in every run: any interleaving of senders,
    the Tx engine, the status engine, the interrupt and the status poll. */
module TxResults {
  import opened Ring
  import opened RingProofs
  import opened RingSafety
  import opened TxTags
  import opened TxChain
  import opened TxPath
  import opened TxProofs

  lemma {:induction false} TxReachesInv(s: TxState, steps: seq<TxStep>, t: TxState)
    requires TxInv(s) && TxReaches(s, steps, t)
    ensures TxInv(t)
    decreases |steps|
  {
    hide TxInv, TxDo, TxEnabled;
    if steps != [] {
      var n := |steps| - 1;
      var mid :| TxReaches(s, steps[..n], mid) && TxEnabled(mid, steps[n]) && t == TxDo(mid, steps[n]);
      TxReachesInv(s, steps[..n], mid);
      TxStepInv(mid, steps[n]);
    }
  }

  lemma RunInv(s0: TxState, steps: seq<TxStep>, s: TxState)
    requires TxInit(s0) && TxReaches(s0, steps, s)
    ensures TxInv(s)
  {
    hide TxReaches, TxInv;
    TxInitInv(s0);
    TxReachesInv(s0, steps, s);
  }

  /** The steps of a run determine where it leads. */
  lemma {:induction false} TxDeterministic(s: TxState, steps: seq<TxStep>, t: TxState, t': TxState)
    requires TxReaches(s, steps, t) && TxReaches(s, steps, t')
    ensures t == t'
    decreases |steps|
  {
    hide TxDo, TxEnabled;
    if steps != [] {
      var n := |steps| - 1;
      var mid :| TxReaches(s, steps[..n], mid) && TxEnabled(mid, steps[n]) && t == TxDo(mid, steps[n]);
      var mid' :| TxReaches(s, steps[..n], mid') && TxEnabled(mid', steps[n]) && t' == TxDo(mid', steps[n]);
      TxDeterministic(s, steps[..n], mid, mid');
    }
  }

  /** What has been accepted, discarded, given back and read stays so. */
  ghost predicate TxExtends(s: TxState, t: TxState)
  {
    && s.frames <= t.frames && s.freed <= t.freed
    && s.submitted <= t.submitted && s.discarded <= t.discarded
    && s.ring.written <= t.ring.written && s.chain.sent <= t.chain.sent
  }

  lemma ChainSent(c: Chain, skb: nat, total: nat)
    requires ChainShape(c)
    ensures Append(c, skb, total).sent == c.sent
  {
  }

  lemma KickSent(c: Chain, total: nat)
    ensures Kick(c, total).sent == c.sent
  {
  }

  lemma TxStepExtends(s: TxState, step: TxStep)
    requires TxEnabled(s, step)
    ensures TxExtends(s, TxDo(s, step))
  {
    hide TxEnabled, TxDo, TxExtends;
    match step
    case OnRing(st) => RingExtends(s, st);
    case Recycle => RecycleExtends(s);
    case _ => OthersExtend(s, step);
  }

  lemma RingExtends(s: TxState, step: Step<Status>)
    requires TxEnabled(s, OnRing(step))
    ensures TxExtends(s, TxDo(s, OnRing(step)))
  {
    hide Do, Enabled, RingEnabled, Shape, ChainShape;
    RingKeeps(s, step);
  }

  lemma RecycleExtends(s: TxState)
    requires TxEnabled(s, Recycle)
    ensures TxExtends(s, TxDo(s, Recycle))
  {
    hide FirstByte, Before, After, Fresh, NeedsReset, CurrentStatus, ChainShape;
  }

  lemma OthersExtend(s: TxState, step: TxStep)
    requires TxEnabled(s, step) && !step.OnRing? && !step.Recycle?
    ensures TxExtends(s, TxDo(s, step))
  {
    hide Shape, ChainShape, NeedsReset, CurrentStatus, HasPtp, HasError, Append, Kick;
    if step.Commit? { ChainSent(s.chain, s.sender.skb.id, |s.frames|); }
    if step.KickChain? { KickSent(s.chain, |s.frames|); }
  }

  /** The history a run ends with is an extension of the one any part of it ends with. */
  lemma {:induction false} TxHistoryGrows(s0: TxState, steps: seq<TxStep>, s: TxState, more: seq<TxStep>, t: TxState)
    requires TxReaches(s0, steps, s) && TxReaches(s0, more, t) && steps <= more
    ensures TxExtends(s, t)
    decreases |more|
  {
    if more == steps {
      hide TxReaches;
      TxDeterministic(s0, steps, s, t);
    } else {
      hide TxDo, TxEnabled, TxExtends;
      var n := |more| - 1;
      var mid :| TxReaches(s0, more[..n], mid) && TxEnabled(mid, more[n]) && t == TxDo(mid, more[n]);
      TxHistoryGrows(s0, steps, s, more[..n], mid);
      TxStepExtends(mid, more[n]);
      TxExtendsOn(s, mid, t);
    }
  }

  lemma TxExtendsOn(s: TxState, mid: TxState, t: TxState)
    requires TxExtends(s, mid) && TxExtends(mid, t)
    ensures TxExtends(s, t)
  {
  }

  /** Statuses that come one per frame, in order, never drive the driver into
      one of its four reset branches. */
  lemma TxNeverResets(s0: TxState, steps: seq<TxStep>, s: TxState)
    requires TxInit(s0) && TxReaches(s0, steps, s)
    ensures s.stats.resets == 0
    ensures !TxEnabled(s, Reset)
  {
    RunInv(s0, steps, s);
    hide TxReaches;
    ResetUnreachable(s);
  }

  /** Frames whose tag has not been given back carry different, nonzero tags. */
  lemma TxTagsDistinct(s0: TxState, steps: seq<TxStep>, s: TxState, j: nat, k: nat)
    requires TxInit(s0) && TxReaches(s0, steps, s)
    requires Upto(s, 3) <= j < k < |s.frames|
    ensures s.frames[j].tag != s.frames[k].tag
    ensures s.frames[j].tag != 0 && s.frames[k].tag != 0
  {
    hide TxReaches, PoolOk, Inv, ChainOk, TableOk, StatusesOk;
    RunInv(s0, steps, s);
    OutstandingTagsDiffer(s.ptp, s.nonptp, Reserved(s), Upto(s, 3), Upto(s, 4), j, k);
  }

  /** The Tx DMA reads the accepted frames in acceptance order, each once. */
  lemma TxTransmitsInOrder(s0: TxState, steps: seq<TxStep>, s: TxState)
    requires TxInit(s0) && TxReaches(s0, steps, s)
    ensures s.chain.sent <= Ids(s.frames)
  {
    RunInv(s0, steps, s);
    hide TxReaches, Inv, TableOk, PoolsOk, LedgerOk;
  }

  /** Whenever the locked region of the status poll starts the DMA, the engine
      will read exactly the pending frames and stop. */
  lemma TxKickStartsPending(s0: TxState, steps: seq<TxStep>, s: TxState)
    requires TxInit(s0) && TxReaches(s0, steps, s) && TxEnabled(s, KickChain)
    requires s.chain.eng.TxHalted? && s.chain.filled
    ensures s.chain.handed < |s.frames|
    ensures TxDo(s, KickChain).chain.eng == TxFetching(s.chain.head)
    ensures Walks(TxDo(s, KickChain).chain.td, s.chain.head, Ids(s.frames[s.chain.handed..]))
  {
    hide TxReaches, Inv, TableOk, PoolsOk, LedgerOk, ChainOk, Walks;
    RunInv(s0, steps, s);
    ChainFacts(s.chain, s.frames);
    KickStartsPending(s.chain, s.frames);
  }

  /** Whenever a send starts the DMA, the engine will read exactly the frames
      pending before it and then the new one, and stop. */
  lemma TxSendStartsPending(s0: TxState, steps: seq<TxStep>, s: TxState)
    requires TxInit(s0) && TxReaches(s0, steps, s)
    requires TxEnabled(s, Commit) && s.chain.eng.TxHalted?
    ensures
      var t := TxDo(s, Commit);
      && s.chain.handed <= |s.frames| && t.frames == s.frames + [s.sender.skb]
      && t.chain.eng == TxFetching(s.chain.head)
      && Walks(t.chain.td, s.chain.head, Ids(t.frames[s.chain.handed..]))
  {
    hide TxReaches, Inv, TableOk, PoolsOk, LedgerOk, ChainOk, Walks, Append;
    RunInv(s0, steps, s);
    ChainFacts(s.chain, s.frames);
    var t := TxDo(s, Commit);
    AppendStartsPending(s.chain, s.frames, s.sender.skb);
    assert t.frames[s.chain.handed..] == s.frames[s.chain.handed..] + [s.sender.skb];
  }

  /** No step rewrites a descriptor that was handed to DMA and is not yet read. */
  lemma TxHandedIsFrozen(s0: TxState, steps: seq<TxStep>, s: TxState, step: TxStep, k: nat)
    requires TxInit(s0) && TxReaches(s0, steps, s) && TxEnabled(s, step)
    requires s.chain.read <= k < s.chain.handed
    ensures ChainShape(TxDo(s, step).chain)
    ensures TxDo(s, step).chain.td[Slot(k)] == s.chain.td[Slot(k)]
  {
    hide TxReaches, TxInv, TxDo, TxEnabled, ChainOk, Slot;
    RunInv(s0, steps, s);
    TxStepInv(s, step);
    ShapeAfter(s);
    ShapeAfter(TxDo(s, step));
    match step
    case Commit =>
      RoomToCommit(s);
      FrozenByCommit(s, k);
    case _ => OthersKeepTd(s, step);
  }

  lemma ShapeAfter(s: TxState)
    requires TxInv(s)
    ensures ChainOk(s.chain, s.frames) && ChainShape(s.chain)
  {
    hide Inv, TableOk, PoolsOk, LedgerOk, Slot;
  }

  lemma RoomToCommit(s: TxState)
    requires TxInv(s) && TxEnabled(s, Commit)
    ensures |s.frames| < s.chain.read + N
  {
    hide Inv, TableOk, ChainOk, Shape, StatusesOk, PoolsOk, LedgerOk, ChainServed;
  }

  lemma FrozenByCommit(s: TxState, k: nat)
    requires TxEnabled(s, Commit) && ChainOk(s.chain, s.frames) && s.chain.read <= k < s.chain.handed
    requires |s.frames| < s.chain.read + N && ChainShape(s.chain) && ChainShape(TxDo(s, Commit).chain)
    ensures TxDo(s, Commit).chain.td[Slot(k)] == s.chain.td[Slot(k)]
  {
    hide ChainOk, Append, Slot, Shape;
    HandedIsFrozen(s.chain, s.frames, s.sender.skb, k);
  }

  lemma OthersKeepTd(s: TxState, step: TxStep)
    requires TxEnabled(s, step) && ChainShape(s.chain) && !step.Commit?
    ensures TxDo(s, step).chain.td == s.chain.td
  {
    hide Do, Enabled, RingEnabled, Shape, NeedsReset, CurrentStatus, Kick;
    if step.KickChain? { KickKeepsTd(s.chain, |s.frames|); }
  }

  /** Between two statuses tx_skb is set exactly on the tx_count slots from the
      next status on, which end at the chain's tail.  An empty chain has its head
      at the tail; a filled one has 1 to tx_count frames pending from its head,
      and its head meets the tail only if all N slots are pending. */
  lemma TxRingShape(s0: TxState, steps: seq<TxStep>, s: TxState) returns (pending: nat)
    requires TxInit(s0) && TxReaches(s0, steps, s)
    requires s.sub.Untouched? && !Emptied(s.ring.pc)
    ensures 0 <= s.count <= N && |s.table| == N
    ensures s.ring.nextDone == Slot(s.ring.done)
    ensures s.chain.tail == Slot(s.ring.done + s.count)
    ensures forall k :: s.ring.done <= k < s.ring.done + N ==>
              (s.table[Slot(k)] != None <==> k < s.ring.done + s.count)
    ensures if s.chain.filled then 1 <= pending <= s.count else pending == 0
    ensures s.chain.head == Slot(s.ring.done + s.count - pending)
    ensures s.chain.head == s.chain.tail <==> pending == 0 || pending == N
  {
    hide TxReaches, PoolsOk, LedgerOk, Inv, Slot, ChainOk, TableOk, StatusesOk, ChainServed;
    RunInv(s0, steps, s);
    NextIsDone(s.ring);
    ChainFacts(s.chain, s.frames);
    TableWindow(s.table, s.frames, s.ring.done);
    pending := |s.frames| - s.chain.handed;
    SlotStep(s.chain.handed);
    if 0 < pending < N { SlotApart(s.chain.handed, |s.frames|); }
  }

  lemma TableWindow(table: seq<Option<TxSkb>>, frames: seq<TxSkb>, released: nat)
    requires TableOk(table, frames, released)
    ensures |table| == N
    ensures forall k :: released <= k < released + N ==> (table[Slot(k)] != None <==> k < |frames|)
  {
    hide Slot;
  }

  /** Sends are conserved: transmitted, failed, dropped, still out or in a sender's
      hands; those whose status reports an error are the failed ones.  Each skb
      passed to the driver is in exactly one place: accepted, discarded or in hand;
      the accepted ones are freed once, in the order they were accepted. */
  lemma TxConservation(s0: TxState, steps: seq<TxStep>, s: TxState)
    requires TxInit(s0) && TxReaches(s0, steps, s)
    ensures Upto(s, 7) <= |s.frames| && Upto(s, 7) <= |s.ring.written|
    ensures s.stats.sends == s.stats.packets + s.stats.errors + s.stats.dropped + (|s.frames| - Upto(s, 7))
                             + |InHand(s.sender)|
    ensures multiset(s.submitted) == multiset(Ids(s.frames)) + multiset(s.discarded) + multiset(InHand(s.sender))
    ensures s.stats.sends == |s.submitted| && s.stats.dropped == |s.discarded|
    ensures s.stats.errors == ErrorCount(s.ring.written, Upto(s, 7))
    ensures s.freed == Ids(s.frames[..Upto(s, 7)])
    ensures s.sub.Untouched? ==> s.count == |s.frames| - Upto(s, 7)
  {
    hide TxReaches, Inv, TableOk, PoolOk, ChainOk, Ids;
    RunInv(s0, steps, s);
  }

  lemma PoolBalance(p: Pool, q: Pool, frames: seq<TxSkb>, returned: nat, recorded: nat)
    requires returned <= |frames| && recorded <= |frames|
    requires PoolOk(p, true, frames, returned, recorded) && PoolOk(q, false, frames, returned, recorded)
    ensures p.available + q.available + (|frames| - returned) == NUM_FRAME_TAGS
  {
    CountOfBoth(frames, |frames|);
    CountOfBoth(frames, returned);
  }

  /** Between two statuses, frames out, free tags and the tag of a frame about to
      be committed add up to the 255 tags. */
  lemma TxTagsConserved(s0: TxState, steps: seq<TxStep>, s: TxState)
    requires TxInit(s0) && TxReaches(s0, steps, s)
    requires s.sub.Untouched?
    ensures s.count + s.ptp.available + s.nonptp.available + (if s.sender.Tagged? then 1 else 0) == NUM_FRAME_TAGS
  {
    hide TxReaches, Inv, TableOk, PoolOk, ChainOk, Ids;
    RunInv(s0, steps, s);
    PoolBalance(s.ptp, s.nonptp, Reserved(s), Upto(s, 3), Upto(s, 4));
  }

  /** A pending chain is never stranded: with the status poll idle, a halted
      DMA and a filled chain imply a frame handed to DMA whose status is still
      to be handled, and handling it passes the restart. */
  lemma TxChainNotStranded(s0: TxState, steps: seq<TxStep>, s: TxState)
    requires TxInit(s0) && TxReaches(s0, steps, s)
    requires s.ring.pc == Idle && s.chain.eng.TxHalted? && s.chain.filled
    ensures s.ring.done < s.chain.handed
  {
    hide TxReaches, Inv, TableOk, PoolOk, ChainOk, Ids;
    RunInv(s0, steps, s);
  }

  /** If the status poll is idle with no interrupt latched, the Tx DMA is halted
      and every frame it read has its status written, then nothing is pending and
      every accepted frame is settled. */
  lemma TxQuiescentMeansDone(s0: TxState, steps: seq<TxStep>, s: TxState)
    requires TxInit(s0) && TxReaches(s0, steps, s)
    requires s.ring.pc == Idle && !s.ring.irq
    requires s.chain.eng.TxHalted? && |s.ring.written| == s.chain.read
    ensures !s.chain.filled && s.count == 0
    ensures s.stats.packets + s.stats.errors == |s.frames|
    ensures !s.ring.eng.Halted?
  {
    hide TxReaches, Inv, TableOk, PoolOk, ChainOk, Ids;
    RunInv(s0, steps, s);
    ChainFacts(s.chain, s.frames);
    RingQuiet(s.ring);
  }

  lemma RingQuiet(r: State<Status>)
    requires Inv(r) && r.pc == Idle && !r.irq && !r.starved
    ensures |r.written| == r.done && !r.eng.Halted?
  {
  }

  /** With the status poll idle, a written status or a halted status engine has an interrupt. */
  lemma TxStatusNeverStalls(s0: TxState, steps: seq<TxStep>, s: TxState)
    requires TxInit(s0) && TxReaches(s0, steps, s)
    requires s.ring.pc == Idle
    ensures |s.ring.written| > s.ring.done || s.ring.eng.Halted? ==> TxEnabled(s, OnRing(Interrupt))
  {
    hide TxReaches, PoolsOk, LedgerOk, Inv, Slot;
    RunInv(s0, steps, s);
    IdleHasInterrupt(s.ring);
    ChainFacts(s.chain, s.frames);
    ShapeOf(s.ring);
  }

  lemma ShapeOf(r: State<Status>)
    requires Inv(r)
    ensures Shape(r)
  {
  }
}
