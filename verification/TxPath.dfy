/** The transmit path: senders, the Tx DMA, the MSP that reports one status per
    frame in submission order, and the poll of the Tx status ring.

    A send and the status poll both go step by step, one access to a counter,
    the queue state or a register that the other side can touch at a time, and
    the engines run in between.  A send holds lp->lock to its end; all the poll
    does under that lock is to start the pending chain.

    A check that reads several counters is one step: while it runs the other
    side moves each of them one way only, so its outcome is the one it would
    have had at one of its reads. */
module TxPath {
  import opened Ring
  import opened TxTags
  import opened TxChain

  const STOP_QUEUE_TH: nat := 1

  /** A Tx status work unit. */
  datatype Status = Status(byte0: bv8, tag: nat)

  predicate IsTxStatus(st: Status) { st.byte0 & 0x3 == 3 }

  predicate HasError(st: Status) { st.byte0 & 0x4 != 0 }

  predicate HasPtp(st: Status) { st.byte0 & 0x8 != 0 }

  /** What the bits of a status header say: its low two bits are 3, then come one
      bit for an error and one for the class. */
  lemma StatusHeader(st: Status)
    ensures IsTxStatus(st) <==> st.byte0 % 4 == 3
    ensures HasError(st) <==> st.byte0 / 4 % 2 == 1
    ensures HasPtp(st) <==> st.byte0 / 8 % 2 == 1
    ensures IsTxStatus(st) && st.byte0 < 16 ==>
              (HasError(st) <==> st.byte0 == 7 || st.byte0 == 15) && (HasPtp(st) <==> st.byte0 == 11 || st.byte0 == 15)
  {
  }

  /** How far the poll is with the status it found done; `skb` is its local variable. */
  datatype Sub =
    | Untouched
    | Released(skb: TxSkb)    // tx_skb[idx] cleared
    | Uncounted(skb: TxSkb)   // tx_count decremented
    | Returned(skb: TxSkb)    // available tag count incremented
    | Recorded(skb: TxSkb)    // last tag updated
    | Looked(skb: TxSkb, wake: bool)   // wake condition evaluated
    | Woken(skb: TxSkb)       // queue woken if it held
    | Settled                 // statistics updated, skb freed

  datatype Packet = Packet(id: nat, ptp: bool, length: nat)

  /** Where the sender that holds lp->lock is. */
  datatype Sender =
    | Away
    | Checked(packet: Packet)                    // length, ring and tags seen to do
    | MustStop(packet: Packet)                   // decided to stop the queue
    | Preparing(packet: Packet, stopping: bool)  // about to commit or to drop
    | Tagged(skb: TxSkb, stopping: bool)         // has its tag, tx_count to be incremented

  datatype Stats = Stats(packets: nat, errors: nat, dropped: nat, resets: nat, sends: nat)

  datatype TxState = TxState(
    ring: State<Status>,
    chain: Chain,
    table: seq<Option<TxSkb>>,   // tx_skb
    count: int,                  // tx_count
    ptp: Pool,
    nonptp: Pool,
    stopped: bool,
    sender: Sender,
    sub: Sub,
    kicked: bool,                // the locked region after the loop has been passed
    stats: Stats,
    freed: seq<nat>,             // skbs given back after transmission, in order
    discarded: seq<nat>,         // skbs of dropped packets, in order
    submitted: seq<nat>,         // history: skbs passed to the driver
    frames: seq<TxSkb>           // history: frames accepted, in order
  )

  datatype TxStep =
    | OnRing(step: Step<Status>)
    | Enter(packet: Packet)
    | Threshold
    | StopQueue
    | Abandon
    | TakeTag
    | Commit
    | TxFetch
    | TxFinish
    | Release
    | Uncount
    | ReturnTag
    | RecordTag
    | Look
    | WakeUp
    | Settle
    | Recycle
    | KickChain
    | Reset

  function PoolFor(s: TxState, isPtp: bool): Pool { if isPtp then s.ptp else s.nonptp }

  function SetPool(s: TxState, isPtp: bool, p: Pool): TxState
  {
    if isPtp then s.(ptp := p) else s.(nonptp := p)
  }

  ghost predicate TxShape(s: TxState)
  {
    Shape(s.ring) && ChainShape(s.chain) && |s.table| == N
  }

  /** The status work unit in the slot the poll is at. */
  ghost function CurrentStatus(s: TxState): Status
    requires TxShape(s)
  {
    var cell := s.ring.mem[s.ring.drvBuf[s.ring.nextDone]];
    if cell.Full? then cell.unit else Status(0, 0)
  }

  /** The reasons to drop a packet before anything is done for it. */
  predicate Drops(s: TxState, packet: Packet)
  {
    packet.length > 0xffff || s.count >= N || PoolFor(s, packet.ptp).available == 0
  }

  predicate NearlyFull(s: TxState, isPtp: bool)
  {
    s.count >= N - STOP_QUEUE_TH || PoolFor(s, isPtp).available <= STOP_QUEUE_TH
  }

  function Drop(s: TxState, id: nat): TxState
  {
    s.(sender := Away, discarded := s.discarded + [id], stats := s.stats.(dropped := s.stats.dropped + 1))
  }

  function DoEnter(s: TxState, packet: Packet): TxState
  {
    var s := s.(submitted := s.submitted + [packet.id], stats := s.stats.(sends := s.stats.sends + 1));
    if Drops(s, packet) then Drop(s, packet.id) else s.(sender := Checked(packet))
  }

  function DoThreshold(s: TxState): TxState
    requires s.sender.Checked?
  {
    var packet := s.sender.packet;
    s.(sender := if !s.stopped && NearlyFull(s, packet.ptp) then MustStop(packet) else Preparing(packet, false))
  }

  /** get_frame_tag, after the header has been filled in with the next tag. */
  function DoTakeTag(s: TxState): TxState
    requires s.sender.Preparing?
  {
    var packet := s.sender.packet;
    var pool := PoolFor(s, packet.ptp);
    SetPool(s, packet.ptp, GetTag(pool, packet.ptp).0).(
      sender := Tagged(TxSkb(packet.id, packet.ptp, pool.next, packet.length), s.sender.stopping))
  }

  /** The frame is counted and put into the table and the chain. */
  ghost function DoCommit(s: TxState): TxState
    requires TxShape(s) && s.sender.Tagged?
  {
    var skb := s.sender.skb;
    s.(sender := Away,
       count := s.count + 1,
       table := s.table[s.chain.tail := Some(skb)],
       chain := Append(s.chain, skb.id, |s.frames|),
       frames := s.frames + [skb])
  }

  predicate MayWake(s: TxState)
  {
    && s.count <= N - STOP_QUEUE_TH
    && s.ptp.available >= STOP_QUEUE_TH
    && s.nonptp.available >= STOP_QUEUE_TH
  }

  /** One of the four conditions on which adi_msp_status gives up and asks for a Tx reset. */
  ghost predicate NeedsReset(s: TxState)
    requires TxShape(s) && s.ring.pc.Ready?
  {
    var st := CurrentStatus(s);
    var isPtp := HasPtp(st);
    match s.sub
    case Untouched => !IsTxStatus(st) || s.table[s.ring.nextDone] == None
    case Uncounted(_) => !InRange(isPtp, st.tag)
    case Returned(_) => st.tag != Succ(isPtp, PoolFor(s, isPtp).last)
    case Woken(skb) => st.tag != skb.tag
    case _ => false
  }

  /** What the status engine can be given: the next frame's status, and only
      once the Tx engine has read that frame. */
  ghost predicate StatusOf(s: TxState, st: Status)
  {
    var k := |s.ring.written|;
    && k < s.chain.read <= |s.frames|
    && IsTxStatus(st)
    && st.tag == s.frames[k].tag
    && HasPtp(st) == s.frames[k].ptp
  }

  ghost predicate RingEnabled(s: TxState, step: Step<Status>)
  {
    && Enabled(s.ring, step)
    && match step
       case HwBegin => |s.ring.written| < s.chain.read
       case HwComplete(st, _) => StatusOf(s, st)
       case Take(_, _) => false
       case AllocFail(_) => false
       case ReadStat => s.kicked
       case _ => true
  }

  ghost predicate TxEnabled(s: TxState, step: TxStep)
  {
    && TxShape(s)
    && match step
       case OnRing(st) => RingEnabled(s, st)
       case Enter(_) => s.sender.Away?
       case Threshold => s.sender.Checked?
       case StopQueue => s.sender.MustStop?
       case Abandon => s.sender.Preparing?
       case TakeTag => s.sender.Preparing?
       case Commit => s.sender.Tagged?
       case TxFetch => CanFetch(s.chain)
       case TxFinish => s.chain.eng.TxLoaded?
       case Release => s.ring.pc.Ready? && s.sub.Untouched? && !NeedsReset(s)
       case Uncount => s.ring.pc.Ready? && s.sub.Released?
       case ReturnTag => s.ring.pc.Ready? && s.sub.Uncounted? && !NeedsReset(s)
       case RecordTag => s.ring.pc.Ready? && s.sub.Returned? && !NeedsReset(s)
       case Look => s.ring.pc.Ready? && s.sub.Recorded?
       case WakeUp => s.ring.pc.Ready? && s.sub.Looked?
       case Settle => s.ring.pc.Ready? && s.sub.Woken? && !NeedsReset(s)
       case Recycle => s.ring.pc.Ready? && s.sub.Settled?
       case KickChain => s.ring.pc.Check? && !s.kicked && s.sender.Away?
       case Reset => s.ring.pc.Ready? && NeedsReset(s)
  }

  ghost function DoSettle(s: TxState): TxState
    requires TxShape(s) && s.sub.Woken?
  {
    var st := CurrentStatus(s);
    var failed := HasError(st) || (s.sub.skb.ptp && !HasPtp(st));
    s.(sub := Settled,
       freed := s.freed + [s.sub.skb.id],
       stats := if failed then s.stats.(errors := s.stats.errors + 1)
                else s.stats.(packets := s.stats.packets + 1))
  }

  ghost function TxDo(s: TxState, step: TxStep): TxState
    requires TxEnabled(s, step)
  {
    match step
    case OnRing(st) => s.(ring := Do(s.ring, st), kicked := s.kicked && !st.ReadStat?)
    case Enter(packet) => DoEnter(s, packet)
    case Threshold => DoThreshold(s)
    case StopQueue => s.(stopped := true, sender := Preparing(s.sender.packet, true))
    case Abandon => Drop(s, s.sender.packet.id)
    case TakeTag => DoTakeTag(s)
    case Commit => DoCommit(s)
    case TxFetch => s.(chain := Fetch(s.chain))
    case TxFinish => s.(chain := Finish(s.chain))
    case Release =>
      var idx := s.ring.nextDone;
      s.(sub := Released(s.table[idx].value), table := s.table[idx := None])
    case Uncount =>
      s.(sub := Uncounted(s.sub.skb), count := s.count - 1)
    case ReturnTag =>
      var isPtp := HasPtp(CurrentStatus(s));
      var p := PoolFor(s, isPtp);
      SetPool(s, isPtp, p.(available := p.available + 1)).(sub := Returned(s.sub.skb))
    case RecordTag =>
      var isPtp := HasPtp(CurrentStatus(s));
      var p := PoolFor(s, isPtp);
      SetPool(s, isPtp, p.(last := CurrentStatus(s).tag)).(sub := Recorded(s.sub.skb))
    case Look =>
      s.(sub := Looked(s.sub.skb, s.stopped && MayWake(s)))
    case WakeUp =>
      s.(sub := Woken(s.sub.skb), stopped := s.stopped && !s.sub.wake)
    case Settle => DoSettle(s)
    case Recycle =>
      // the status buffer is zeroed and stays in its slot
      s.(sub := Untouched, ring := Do(s.ring, Take(s.ring.drvBuf[s.ring.nextDone], true)))
    case KickChain =>
      s.(chain := Kick(s.chain, |s.frames|), kicked := true)
    case Reset =>
      s.(sub := Untouched, ring := s.ring.(pc := Return(s.ring.pc.count)),
         stats := s.stats.(errors := s.stats.errors + 1, resets := s.stats.resets + 1))
  }

  /** The checks of a status, whatever it holds, in header bytes and tags: the type
      of the unit and the table, the range of the tag, the tag expected next, and
      the tag of the frame.  A reset is counted and ends the poll with its count. */
  lemma ResetsWhen(s: TxState)
    requires TxShape(s) && s.ring.pc.Ready?
    ensures
      var st := CurrentStatus(s);
      var isPtp := st.byte0 / 8 % 2 == 1;
      var last := if isPtp then s.ptp.last else s.nonptp.last;
      NeedsReset(s) <==>
        || (s.sub.Untouched? && (st.byte0 % 4 != 3 || s.table[s.ring.nextDone] == None))
        || (s.sub.Uncounted? && !(if isPtp then 248 <= st.tag <= 255 else 1 <= st.tag <= 247))
        || (s.sub.Returned? && st.tag != if isPtp && last == 255 then 248 else if !isPtp && last == 247 then 1
                                         else last + 1)
        || (s.sub.Woken? && st.tag != s.sub.skb.tag)
    ensures NeedsReset(s) ==>
              var t := TxDo(s, Reset);
              && t.stats == s.stats.(errors := s.stats.errors + 1, resets := s.stats.resets + 1)
              && t.ring == s.ring.(pc := Return(s.ring.pc.count)) && t.freed == s.freed
  {
    hide CurrentStatus, HasPtp, IsTxStatus, Shape, ChainShape;
    StatusHeader(CurrentStatus(s));
  }

  /** The state adi_msp_alloc_ring and adi_msp_open leave, around a given status ring. */
  function StartState(ring: State<Status>): TxState
  {
    TxState(ring, EmptyChain(), seq(N, i => None), 0, FullPool(true), FullPool(false),
            false, Away, Untouched, false, Stats(0, 0, 0, 0, 0), [], [], [], [])
  }

  ghost predicate TxInit(s: TxState)
  {
    Init(s.ring) && s == StartState(s.ring)
  }

  ghost predicate TxReaches(s: TxState, steps: seq<TxStep>, t: TxState)
    decreases |steps|
  {
    if steps == [] then s == t
    else
      var n := |steps| - 1;
      exists mid ::
        TxReaches(s, steps[..n], mid) && TxEnabled(mid, steps[n]) && t == TxDo(mid, steps[n])
  }

  lemma TxReachesMore(s: TxState, steps: seq<TxStep>, mid: TxState, step: TxStep)
    requires TxReaches(s, steps, mid) && TxEnabled(mid, step)
    ensures TxReaches(s, steps + [step], TxDo(mid, step))
  {
    assert (steps + [step])[..|steps|] == steps;
  }
}
