/** The Tx descriptor ring: a part handed to the Tx DMA, and a pending chain behind it. */
module TxChain {
  import opened Ring
  import opened RingProofs
  import opened TxTags

  datatype Desc = Desc(flow: Flow, next: nat, skb: nat)

  datatype TxEngine =
    | TxHalted
    | TxFetching(cur: nat)
    | TxLoaded(cur: nat, desc: Desc)   // descriptor fetched, its data being read

  datatype Chain = Chain(
    td: seq<Desc>,
    eng: TxEngine,
    head: nat,           // tx_chain_head
    tail: nat,           // tx_chain_tail
    filled: bool,        // tx_chain_status == FILLED
    handed: nat,         // history: frames handed to DMA so far
    read: nat,           // history: frames DMA has finished reading
    sent: seq<nat>       // history: the skbs read, in order
  )

  ghost predicate ChainShape(c: Chain)
  {
    && |c.td| == N && c.head < N && c.tail < N
    && (c.eng.TxFetching? ==> c.eng.cur < N)
  }

  /** The chain part of adi_msp_send_packet, `total` frames having been accepted before. */
  ghost function Append(c: Chain, skb: nat, total: nat): Chain
    requires ChainShape(c)
  {
    var idx := c.tail;
    var prev := Before(idx);
    var tail := After(idx);
    var td := c.td[idx := c.td[idx].(flow := Stop, skb := skb)];
    var linked := td[prev := td[prev].(flow := Dscl, next := idx)];
    if c.eng.TxHalted? then
      if !c.filled then
        c.(td := td, tail := tail, eng := TxFetching(c.head), head := tail, handed := total + 1)
      else
        c.(td := linked, tail := tail, eng := TxFetching(c.head), head := tail, filled := false,
           handed := total + 1)
    else
      if !c.filled then c.(td := td, tail := tail, filled := true)
      else c.(td := linked, tail := tail)
  }

  /** The locked region of adi_msp_status: start the pending chain if DMA is halted. */
  ghost function Kick(c: Chain, total: nat): Chain
  {
    if c.eng.TxHalted? && c.filled then
      c.(eng := TxFetching(c.head), head := c.tail, filled := false, handed := total)
    else c
  }

  ghost predicate CanFetch(c: Chain) { ChainShape(c) && c.eng.TxFetching? }

  /** The Tx engine samples the descriptor it is at. */
  ghost function Fetch(c: Chain): Chain
    requires CanFetch(c)
  {
    c.(eng := TxLoaded(c.eng.cur, c.td[c.eng.cur]))
  }

  /** The Tx engine finishes a descriptor: halt at STOP, else follow dscptr_nxt. */
  ghost function Finish(c: Chain): Chain
    requires c.eng.TxLoaded?
  {
    c.(eng := if c.eng.desc.flow.Stop? then TxHalted else TxFetching(c.eng.desc.next),
       read := c.read + 1, sent := c.sent + [c.eng.desc.skb])
  }

  /** What descriptor `k` must say: the last of each chain is STOP, the others lead to the next. */
  ghost predicate DescOk(d: Desc, c: Chain, frames: seq<TxSkb>, k: nat)
    requires k < |frames|
  {
    && d.skb == frames[k].id
    && (if k + 1 == c.handed || k + 1 == |frames| then d.flow == Stop
        else d.flow == Dscl && d.next == Slot(k + 1))
  }

  ghost predicate ChainOk(c: Chain, frames: seq<TxSkb>)
  {
    && ChainShape(c)
    && c.read <= c.handed <= |frames| <= c.read + N
    && c.tail == Slot(|frames|)
    && c.head == Slot(c.handed)
    && (c.filled <==> c.handed < |frames|)
    && (c.eng.TxHalted? <==> c.read == c.handed)
    && (c.eng.TxFetching? ==> c.eng.cur == Slot(c.read))
    && (c.eng.TxLoaded? ==> DescOk(c.eng.desc, c, frames, c.read))
    && (forall k :: c.read <= k < |frames| ==> DescOk(c.td[Slot(k)], c, frames, k))
    && |c.sent| == c.read
    && (forall k :: 0 <= k < c.read ==> c.sent[k] == frames[k].id)
  }

  /** The chain as adi_msp_alloc_ring leaves it. */
  function EmptyChain(): Chain
  {
    Chain(seq(N, i => Desc(Stop, 0, 0)), TxHalted, 0, 0, false, 0, 0, [])
  }

  lemma EmptyOk()
    ensures ChainOk(EmptyChain(), [])
  {
  }

  lemma ChainFacts(c: Chain, frames: seq<TxSkb>)
    requires ChainOk(c, frames)
    ensures ChainShape(c) && c.tail == Slot(|frames|) && c.head == Slot(c.handed)
    ensures c.filled <==> c.handed < |frames|
    ensures c.eng.TxHalted? <==> c.read == c.handed
    ensures c.read <= c.handed <= |frames|
  {
  }

  lemma DescAt(c: Chain, frames: seq<TxSkb>, k: nat)
    requires ChainOk(c, frames) && c.read <= k < |frames|
    ensures ChainShape(c) && DescOk(c.td[Slot(k)], c, frames, k)
  {
    hide DescOk, Slot;
  }

  lemma AppendOk(c: Chain, frames: seq<TxSkb>, f: TxSkb)
    requires ChainOk(c, frames) && |frames| < c.read + N
    ensures ChainOk(Append(c, f.id, |frames|), frames + [f])
  {
    hide Slot, DescOk, Before, After;
    SlotStep(|frames|);
    forall k | c.read <= k <= |frames|
      ensures
        var c' := Append(c, f.id, |frames|);
        DescOk(c'.td[Slot(k)], c', frames + [f], k)
    {
      AppendDescOk(c, frames, f, k);
    }
    if c.eng.TxLoaded? { LoadedStays(c, frames, f); }
  }

  lemma LoadedStays(c: Chain, frames: seq<TxSkb>, f: TxSkb)
    requires ChainOk(c, frames) && c.eng.TxLoaded?
    ensures DescOk(c.eng.desc, Append(c, f.id, |frames|), frames + [f], c.read)
  {
    hide Slot, Before, After;
  }

  /** Append touches the slot at the tail and, to link it, the one before. */
  lemma AppendAt(c: Chain, skb: nat, total: nat, i: nat)
    requires ChainShape(c) && i < N
    ensures
      var c' := Append(c, skb, total);
      && |c'.td| == N
      && (i == c.tail ==> c'.td[i].flow == Stop && c'.td[i].skb == skb)
      && (i != c.tail ==> c'.td[i] == if c.filled && i == Before(c.tail) then c.td[i].(flow := Dscl, next := c.tail)
                                      else c.td[i])
      && c'.handed == if c.eng.TxHalted? then total + 1 else c.handed
  {
  }

  lemma AppendDescOk(c: Chain, frames: seq<TxSkb>, f: TxSkb, k: nat)
    requires ChainOk(c, frames) && |frames| < c.read + N
    requires c.read <= k <= |frames|
    ensures
      var c' := Append(c, f.id, |frames|);
      DescOk(c'.td[Slot(k)], c', frames + [f], k)
  {
    hide Slot, Before, After, Append, ChainOk;
    var n := |frames|;
    ChainFacts(c, frames);
    SlotStep(n);
    AppendAt(c, f.id, n, Slot(k));
    if n > 0 { SlotApart(n - 1, n); }
    if k < n {
      DescAt(c, frames, k);
      SlotApart(k, n);
      if k + 1 < n { SlotApart(k, n - 1); }
    }
  }

  lemma KickOk(c: Chain, frames: seq<TxSkb>)
    requires ChainOk(c, frames)
    ensures ChainOk(Kick(c, |frames|), frames)
    ensures Kick(c, |frames|).eng.TxHalted? ==> !Kick(c, |frames|).filled
  {
  }

  lemma KickKeepsTd(c: Chain, total: nat)
    ensures Kick(c, total).td == c.td
  {
  }

  lemma FetchOk(c: Chain, frames: seq<TxSkb>)
    requires ChainOk(c, frames) && CanFetch(c)
    ensures ChainOk(Fetch(c), frames)
  {
    assert DescOk(c.td[Slot(c.read)], c, frames, c.read);
  }

  lemma FinishOk(c: Chain, frames: seq<TxSkb>)
    requires ChainOk(c, frames) && c.eng.TxLoaded?
    ensures ChainOk(Finish(c), frames)
  {
    hide Slot;
    var t := Finish(c);
    forall k | t.read <= k < |frames|
      ensures DescOk(t.td[Slot(k)], t, frames, k)
    {
      DescAt(c, frames, k);
    }
  }

  /** Starting at `slot` and following dscptr_nxt while the flow field is DSCL,
      the engine reads exactly `ids` and then stops. */
  ghost predicate Walks(td: seq<Desc>, slot: nat, ids: seq<nat>)
    decreases |ids|
  {
    && ids != [] && slot < |td|
    && td[slot].skb == ids[0]
    && if |ids| == 1 then td[slot].flow == Stop
       else td[slot].flow == Dscl && Walks(td, td[slot].next, ids[1..])
  }

  ghost function Ids(frames: seq<TxSkb>): (ids: seq<nat>)
    ensures |ids| == |frames|
  {
    seq(|frames|, i requires 0 <= i < |frames| => frames[i].id)
  }

  lemma {:induction false} HandedWalk(c: Chain, frames: seq<TxSkb>, k: nat)
    requires ChainOk(c, frames) && c.read <= k < c.handed
    ensures Walks(c.td, Slot(k), Ids(frames[k..c.handed]))
    decreases c.handed - k
  {
    hide Slot;
    assert DescOk(c.td[Slot(k)], c, frames, k);
    assert Ids(frames[k..c.handed])[1..] == Ids(frames[k + 1..c.handed]);
    if k + 1 < c.handed {
      HandedWalk(c, frames, k + 1);
    }
  }

  /** A send that finds the DMA halted starts it on exactly the frames pending
      before it plus its own, in acceptance order. */
  lemma AppendStartsPending(c: Chain, frames: seq<TxSkb>, f: TxSkb)
    requires ChainOk(c, frames) && |frames| < c.read + N
    requires c.eng.TxHalted?
    ensures
      var started := Append(c, f.id, |frames|);
      && started.eng == TxFetching(c.head)
      && Walks(started.td, c.head, Ids(frames[c.handed..] + [f]))
  {
    hide Walks, Slot, DescOk, Before, After;
    var started := Append(c, f.id, |frames|);
    AppendOk(c, frames, f);
    assert c.head == Slot(c.handed) && started.handed == |frames| + 1 && started.read == c.handed;
    assert (frames + [f])[c.handed..started.handed] == frames[c.handed..] + [f];
    hide ChainOk, Append;
    HandedWalk(started, frames + [f], c.handed);
  }

  /** The same when the status poll restarts a halted DMA. */
  lemma KickStartsPending(c: Chain, frames: seq<TxSkb>)
    requires ChainOk(c, frames) && c.eng.TxHalted? && c.filled
    ensures
      var started := Kick(c, |frames|);
      && started.eng == TxFetching(c.head)
      && Walks(started.td, c.head, Ids(frames[c.handed..]))
  {
    var started := Kick(c, |frames|);
    KickOk(c, frames);
    HandedWalk(started, frames, c.handed);
    assert frames[c.handed..started.handed] == frames[c.handed..];
  }

  /** A descriptor handed to DMA and not yet read is never written again. */
  lemma HandedIsFrozen(c: Chain, frames: seq<TxSkb>, f: TxSkb, k: nat)
    requires ChainOk(c, frames) && |frames| < c.read + N
    requires c.read <= k < c.handed
    ensures Append(c, f.id, |frames|).td[Slot(k)] == c.td[Slot(k)]
    ensures Kick(c, |frames|).td == c.td
  {
    hide Slot, DescOk, Before, After, Append;
    SlotStep(|frames|);
    SlotApart(k, |frames|);
    if k < |frames| - 1 { SlotApart(k, |frames| - 1); }
    AppendAt(c, f.id, |frames|, Slot(k));
  }
}
