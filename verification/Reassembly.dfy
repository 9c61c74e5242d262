/** Turning the stream of Rx work units into Ethernet frames.

    `Process` follows the branches of adi_msp_rx on one work unit; `Frames`,
    `HeldLength` and `Faults` say independently what a whole stream means. */
module Reassembly {
  const PREV_RX_SKB_NUM: nat := 6
  const DATA_WU_PER_FRAME: nat := 1

  /** A work unit: its header byte and, for a status unit, the frame length. */
  datatype Wu = Wu(byte0: bv8, frameLen: nat)

  /** An skb: the buffer it owns and the work unit the engine wrote into it. */
  datatype Skb = Skb(buf: nat, unit: Wu)

  /** What is passed to the network stack. */
  datatype Frame = Frame(data: Skb, length: nat)

  datatype Kind = Sof | Cont | Good | Failed | Bad

  function KindOf(byte0: bv8): Kind
  {
    if byte0 & 0x3 == 1 && byte0 & 0xf8 == 0 then
      if byte0 & 0x4 != 0 then Sof else Cont
    else if byte0 & 0x3 == 2 && byte0 & 0xe0 == 0 then
      if byte0 & 0x10 != 0 || byte0 & 0x4 != 0 then Failed else Good
    else Bad
  }

  // What the header bytes are, one by one

  /** A status unit without error, for either port. */
  predicate GoodByte(byte0: bv8) { byte0 == 2 || byte0 == 10 }

  /** A status unit with the error bit or the dropped bit, or both, for either port. */
  predicate FailedByte(byte0: bv8)
  {
    byte0 == 6 || byte0 == 14 || byte0 == 18 || byte0 == 22 || byte0 == 26 || byte0 == 30
  }

  /** Every byte means what it should; all the others are invalid. */
  lemma HeaderBytes(byte0: bv8)
    ensures KindOf(byte0) == Sof <==> byte0 == 5
    ensures KindOf(byte0) == Cont <==> byte0 == 1
    ensures KindOf(byte0) == Good <==> byte0 == 2 || byte0 == 10
    ensures KindOf(byte0) == Failed <==>
              byte0 == 6 || byte0 == 14 || byte0 == 18 || byte0 == 22 || byte0 == 26 || byte0 == 30
  {
  }

  datatype Assembler = Assembler(
    prev: seq<Skb>,          // prev_rx_skb[0 .. prev_rx_skb_count]
    delivered: seq<Frame>,
    freed: seq<nat>,         // buffers given back, in order
    packets: nat,
    bytes: nat,
    errors: nat
  )

  const NothingYet: Assembler := Assembler([], [], [], 0, 0, 0)

  function Bufs(skbs: seq<Skb>): (bs: seq<nat>)
    ensures |bs| == |skbs|
  {
    seq(|skbs|, i requires 0 <= i < |skbs| => skbs[i].buf)
  }

  /** adi_msp_drop_prev_rx_skb followed by rx_errors++. */
  function Drop(a: Assembler): Assembler
  {
    a.(prev := [], freed := a.freed + Bufs(a.prev), errors := a.errors + 1)
  }

  function Process(a: Assembler, skb: Skb): Assembler
  {
    var held := a.(prev := a.prev + [skb]);
    match KindOf(skb.unit.byte0)
    case Sof =>
      (if a.prev != [] then Drop(a) else a).(prev := [skb])
    case Cont =>
      if a.prev == [] || |a.prev| == PREV_RX_SKB_NUM - 1 then Drop(held) else held
    case Failed => Drop(held)
    case Good =>
      if a.prev == [] || |a.prev| > DATA_WU_PER_FRAME then Drop(held)
      else
        a.(prev := [], delivered := a.delivered + [Frame(a.prev[0], skb.unit.frameLen)],
           freed := a.freed + [skb.buf],
           packets := a.packets + 1, bytes := a.bytes + skb.unit.frameLen)
    case Bad => Drop(held)
  }

  /** Whether processing the unit uses up one unit of NAPI budget. */
  predicate UsesBudget(a: Assembler, skb: Skb)
  {
    match KindOf(skb.unit.byte0)
    case Failed => true
    case Good => a.prev != []
    case _ => false
  }

  /** What a unit does, in header bytes and numbers: the frames delivered and the
      statistics, the units then held, and whether one of the budget is used up. */
  lemma ProcessInBytes(a: Assembler, skb: Skb)
    requires |a.prev| <= 5
    ensures
      var byte0, h, t := skb.unit.byte0, |a.prev|, Process(a, skb);
      var delivers := (byte0 == 2 || byte0 == 10) && h == 1;
      && t.delivered == (if delivers then a.delivered + [Frame(a.prev[0], skb.unit.frameLen)] else a.delivered)
      && t.packets == (if delivers then a.packets + 1 else a.packets)
      && t.bytes == (if delivers then a.bytes + skb.unit.frameLen else a.bytes)
      && t.prev == (if byte0 == 5 then [skb] else if byte0 == 1 && 1 <= h <= 4 then a.prev + [skb] else [])
      && t.errors == (if delivers || (byte0 == 5 && h == 0) || (byte0 == 1 && 1 <= h <= 4) then a.errors
                      else a.errors + 1)
    ensures
      var byte0, t := skb.unit.byte0, Process(a, skb);
      UsesBudget(a, skb) <==>
        || |t.delivered| == |a.delivered| + 1
        || byte0 == 6 || byte0 == 14 || byte0 == 18 || byte0 == 22 || byte0 == 26 || byte0 == 30
        || ((byte0 == 2 || byte0 == 10) && |a.prev| > 1)
  {
    hide KindOf, Bufs;
    HeaderBytes(skb.unit.byte0);
  }

  function Feed(skbs: seq<Skb>): Assembler
  {
    if skbs == [] then NothingYet
    else Process(Feed(skbs[..|skbs| - 1]), skbs[|skbs| - 1])
  }

  // What a stream means

  /** The frames of a stream: a SOF data unit directly followed by an error-free status unit. */
  function Frames(skbs: seq<Skb>): seq<Frame>
  {
    var n := |skbs|;
    if n < 2 then []
    else if KindOf(skbs[n - 2].unit.byte0) == Sof && KindOf(skbs[n - 1].unit.byte0) == Good then
      Frames(skbs[..n - 1]) + [Frame(skbs[n - 2], skbs[n - 1].unit.frameLen)]
    else Frames(skbs[..n - 1])
  }

  function TotalLength(fs: seq<Frame>): nat
  {
    if fs == [] then 0 else TotalLength(fs[..|fs| - 1]) + fs[|fs| - 1].length
  }

  /** How many units at the end of the stream are an unfinished frame. */
  function HeldLength(skbs: seq<Skb>): (n: nat)
    ensures n <= |skbs| && n < PREV_RX_SKB_NUM
  {
    if skbs == [] then 0
    else
      var before := HeldLength(skbs[..|skbs| - 1]);
      match KindOf(skbs[|skbs| - 1].unit.byte0)
      case Sof => 1
      case Cont => if 1 <= before < PREV_RX_SKB_NUM - 1 then before + 1 else 0
      case _ => 0
  }

  /** The unit breaks the grammar SOF CONT* GOOD, with one data unit per frame. */
  predicate Fault(before: nat, kind: Kind)
  {
    match kind
    case Sof => before != 0
    case Cont => before == 0 || before == PREV_RX_SKB_NUM - 1
    case Good => before != 1
    case _ => true
  }

  function Faults(skbs: seq<Skb>): nat
  {
    if skbs == [] then 0
    else
      var rest := skbs[..|skbs| - 1];
      Faults(rest) + if Fault(HeldLength(rest), KindOf(skbs[|skbs| - 1].unit.byte0)) then 1 else 0
  }

  /** The held units are exactly the unfinished suffix of the stream, and
      a single held unit is a SOF. */
  lemma {:induction false} HoldsSuffix(skbs: seq<Skb>)
    ensures HeldLength(skbs) <= |skbs|
    ensures Feed(skbs).prev == skbs[|skbs| - HeldLength(skbs)..]
    ensures |skbs| > 0 ==> (HeldLength(skbs) == 1 <==> KindOf(skbs[|skbs| - 1].unit.byte0) == Sof)
  {
    if skbs != [] {
      var rest := skbs[..|skbs| - 1];
      HoldsSuffix(rest);
      assert skbs == rest + [skbs[|skbs| - 1]];
    }
  }

  /** What one more unit adds. */
  lemma Unfolded(rest: seq<Skb>, last: Skb)
    ensures
      var skbs, kind := rest + [last], KindOf(last.unit.byte0);
      && Feed(skbs) == Process(Feed(rest), last)
      && Faults(skbs) == Faults(rest) + (if Fault(HeldLength(rest), kind) then 1 else 0)
      && Frames(skbs) == if |rest| > 0 && KindOf(rest[|rest| - 1].unit.byte0) == Sof && kind == Good
                         then Frames(rest) + [Frame(rest[|rest| - 1], last.unit.frameLen)] else Frames(rest)
  {
    hide KindOf, Process, Fault;
    var skbs := rest + [last];
    assert skbs[..|skbs| - 1] == rest;
  }

  lemma TotalAppend(fs: seq<Frame>, f: Frame)
    ensures TotalLength(fs + [f]) == TotalLength(fs) + f.length
  {
    assert (fs + [f])[..|fs|] == fs;
  }

  /** The stream's frames have been delivered, in arrival order, and counted. */
  ghost predicate Delivers(skbs: seq<Skb>)
  {
    && Feed(skbs).delivered == Frames(skbs) && Feed(skbs).packets == |Frames(skbs)|
    && Feed(skbs).bytes == TotalLength(Frames(skbs)) && Feed(skbs).errors == Faults(skbs)
  }

  lemma DeliversNext(rest: seq<Skb>, last: Skb)
    requires Delivers(rest)
    ensures Delivers(rest + [last])
  {
    hide KindOf, Feed, Frames, Faults, TotalLength, HeldLength;
    Unfolded(rest, last);
    HoldsSuffix(rest);
    if rest != [] { TotalAppend(Frames(rest), Frame(rest[|rest| - 1], last.unit.frameLen)); }
  }

  lemma DeliversNone()
    ensures Delivers([])
  {
  }

  /** Processing the stream delivers its frames in arrival order and counts them. */
  lemma {:induction false} DeliversFrames(skbs: seq<Skb>)
    ensures Feed(skbs).delivered == Frames(skbs)
    ensures Feed(skbs).packets == |Frames(skbs)|
    ensures Feed(skbs).bytes == TotalLength(Frames(skbs))
    ensures Feed(skbs).errors == Faults(skbs)
  {
    hide KindOf, Process, Feed, Frames, Faults, TotalLength;
    if skbs == [] {
      DeliversNone();
    } else {
      var rest := skbs[..|skbs| - 1];
      DeliversFrames(rest);
      DeliversNext(rest, skbs[|skbs| - 1]);
      assert skbs == rest + [skbs[|skbs| - 1]];
    }
  }

  /** In header bytes: a 5 directly followed by a 2 or a 10 is a frame, and nothing else is. */
  lemma FramesInBytes(rest: seq<Skb>, last: Skb)
    ensures Frames(rest + [last]) ==
              if |rest| > 0 && rest[|rest| - 1].unit.byte0 == 5 && (last.unit.byte0 == 2 || last.unit.byte0 == 10)
              then Frames(rest) + [Frame(rest[|rest| - 1], last.unit.frameLen)] else Frames(rest)
    ensures Frames([]) == []
  {
    hide KindOf, Feed, Faults, HeldLength;
    Unfolded(rest, last);
    HeaderBytes(last.unit.byte0);
    if rest != [] { HeaderBytes(rest[|rest| - 1].unit.byte0); }
  }

  // What a stream costs

  /** The status units that end no frame and yet use up budget: the failed ones,
      and those that find more than one unit held. */
  function Aborted(skbs: seq<Skb>): nat
  {
    if skbs == [] then 0
    else
      var rest, byte0 := skbs[..|skbs| - 1], skbs[|skbs| - 1].unit.byte0;
      Aborted(rest) + if FailedByte(byte0) || (GoodByte(byte0) && HeldLength(rest) > 1) then 1 else 0
  }

  /** The budget a stream uses up. */
  function Cost(skbs: seq<Skb>): nat { |Frames(skbs)| + Aborted(skbs) }

  lemma AbortedMore(rest: seq<Skb>, last: Skb)
    ensures
      var byte0 := last.unit.byte0;
      Aborted(rest + [last]) ==
        Aborted(rest) + if FailedByte(byte0) || (GoodByte(byte0) && HeldLength(rest) > 1) then 1 else 0
  {
    hide FailedByte, GoodByte;
    assert (rest + [last])[..|rest|] == rest;
  }

  lemma StatusBytes(byte0: bv8)
    ensures KindOf(byte0) == Good <==> GoodByte(byte0)
    ensures KindOf(byte0) == Failed <==> FailedByte(byte0)
  {
    HeaderBytes(byte0);
  }

  /** The budget test adds up to the frames delivered and the statuses that failed
      or came too late. */
  lemma CostsOne(rest: seq<Skb>, last: Skb)
    ensures Cost(rest + [last]) == Cost(rest) + if UsesBudget(Feed(rest), last) then 1 else 0
    ensures Aborted(rest + [last]) >= Aborted(rest)
  {
    hide KindOf, Feed, Frames, Faults, HeldLength, Aborted, FailedByte, GoodByte;
    StatusBytes(last.unit.byte0);
    Unfolded(rest, last);
    AbortedMore(rest, last);
    HoldsSuffix(rest);
  }

  lemma {:induction false} AbortedGrows(some: seq<Skb>, all: seq<Skb>)
    requires some <= all
    ensures Aborted(some) <= Aborted(all)
    decreases |all|
  {
    if all != some {
      AbortedGrows(some, all[..|all| - 1]);
    }
  }

  function FrameBufs(fs: seq<Frame>): (bs: seq<nat>)
    ensures |bs| == |fs|
  {
    seq(|fs|, i requires 0 <= i < |fs| => fs[i].data.buf)
  }

  /** Everything a buffer can have become. */
  ghost function Whereabouts(a: Assembler): multiset<nat>
  {
    multiset(Bufs(a.prev)) + multiset(FrameBufs(a.delivered)) + multiset(a.freed)
  }

  lemma BufsAppend(a: seq<Skb>, b: seq<Skb>)
    ensures Bufs(a + b) == Bufs(a) + Bufs(b)
  {
  }

  lemma FrameBufsAppend(a: seq<Frame>, f: Frame)
    ensures FrameBufs(a + [f]) == FrameBufs(a) + [f.data.buf]
  {
  }

  lemma HoldConserves(a: Assembler, skb: Skb)
    ensures Whereabouts(a.(prev := a.prev + [skb])) == Whereabouts(a) + multiset{skb.buf}
  {
    BufsAppend(a.prev, [skb]);
    assert Bufs([skb]) == [skb.buf];
  }

  lemma DropConserves(a: Assembler)
    ensures Drop(a).prev == [] && Whereabouts(Drop(a)) == Whereabouts(a)
  {
  }

  /** One unit in: its buffer turns up exactly once among held, delivered and freed. */
  lemma ProcessConserves(a: Assembler, skb: Skb)
    ensures Whereabouts(Process(a, skb)) == Whereabouts(a) + multiset{skb.buf}
  {
    hide KindOf, Whereabouts, Drop;
    var held := a.(prev := a.prev + [skb]);
    HoldConserves(a, skb);
    DropConserves(held);
    DropConserves(a);
    HoldConserves(Drop(a), skb);
    assert [] + [skb] == [skb];
    if KindOf(skb.unit.byte0) == Good && |a.prev| == 1 { DeliveryConserves(a, skb); }
  }

  lemma DeliveryConserves(a: Assembler, skb: Skb)
    requires KindOf(skb.unit.byte0) == Good && |a.prev| == 1
    ensures Whereabouts(Process(a, skb)) == Whereabouts(a) + multiset{skb.buf}
  {
    FrameBufsAppend(a.delivered, Frame(a.prev[0], skb.unit.frameLen));
    assert Bufs(a.prev) == [a.prev[0].buf];
  }

  /** Every buffer fed in is held, delivered or freed, and only once. */
  lemma {:induction false} FeedConserves(skbs: seq<Skb>)
    ensures Whereabouts(Feed(skbs)) == multiset(Bufs(skbs))
  {
    if skbs != [] {
      var rest := skbs[..|skbs| - 1];
      FeedConserves(rest);
      ProcessConserves(Feed(rest), skbs[|skbs| - 1]);
      BufsAppend(rest, [skbs[|skbs| - 1]]);
      assert skbs == rest + [skbs[|skbs| - 1]];
      assert Bufs([skbs[|skbs| - 1]]) == [skbs[|skbs| - 1].buf];
    }
  }
}
