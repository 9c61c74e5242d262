/** The ring in memory and registers: arrays of descriptors and buffers, the
    engine's registers, and one method for each access.  Every method performs
    one step of the protocol in module Ring. */
module RingDevice {
  import opened Ring

  /** A sequence 0, 1, .. n-1 holds each of its elements once. */
  lemma {:induction false} NumbersAsMultiset(s: seq<nat>, elements: set<nat>)
    requires forall j :: 0 <= j < |s| ==> s[j] == j && s[j] in elements
    requires forall b :: b in elements ==> b < |s|
    ensures multiset(s) == multiset(elements)
  {
    if s == [] {
      assert elements == {};
    } else {
      var n := |s| - 1;
      NumbersAsMultiset(s[..n], elements - {s[n]});
      assert s == s[..n] + [s[n]];
      assert elements == (elements - {s[n]}) + {s[n]};
    }
  }

  /** What a history goes on from. */
  ghost predicate Prefix<T>(a: seq<T>, b: seq<T>) { a <= b }

  lemma PrefixOfPrefix<T>(a: seq<T>, b: seq<T>, c: seq<T>)
    requires Prefix(a, b) && Prefix(b, c)
    ensures Prefix(a, c)
  {
    forall k | 0 <= k < |a|
      ensures a[k] == c[k]
    {
      assert a[k] == b[k];
    }
  }

  /** What goes on from something that goes on from `a` goes on from `a`. */
  lemma Onwards<T>()
    ensures forall a: seq<T>, b, c {:trigger Prefix(a, b), Prefix(b, c)} ::
              Prefix(a, b) && Prefix(b, c) ==> Prefix(a, c)
    ensures forall a: seq<T> :: Prefix(a, a)
    ensures forall a: seq<T>, b, i: nat {:trigger Prefix(a, b), a[i]} ::
              Prefix(a, b) && i < |a| ==> i < |b| && b[i] == a[i]
  {
    forall a: seq<T>, b: seq<T>, c: seq<T> | Prefix(a, b) && Prefix(b, c)
      ensures Prefix(a, c)
    {
      PrefixOfPrefix(a, b, c);
    }
  }

  class RingDma<T> {
    const flow: array<Flow>        // cfg flow field of each descriptor
    const descBuf: array<nat>      // addrstart of each descriptor
    const drvBuf: array<nat>       // rx_skb / status work-unit buffers
    var mem: map<nat, Cell<T>>
    var eng: Engine
    var cur: nat
    var prv: Option<nat>
    var addr: Option<nat>
    var irq: bool
    var enabled: bool
    var nextDone: nat
    var budget: nat
    var pc: Pc                     // where the poll is
    ghost var starved: bool
    ghost var done: nat
    var written: seq<T>            // what the engine has completed, in order

    ghost function View(): State<T>
      reads this, flow, descBuf, drvBuf
    {
      State(flow[..], descBuf[..], drvBuf[..], mem, eng, cur, prv, addr, irq, enabled,
            nextDone, budget, pc, starved, done, written)
    }

    lemma Fields()
      ensures View().pc == pc && View().budget == budget && View().eng == eng && View().nextDone == nextDone
      ensures View().done == done && View().written == written && View().drvBuf == drvBuf[..]
    {
    }

    ghost predicate Valid()
      reads this, flow, descBuf, drvBuf
    {
      descBuf != drvBuf && Shape(View())
    }

    /** adi_msp_alloc_ring for one ring, and the start of its engine. */
    constructor ()
      ensures Valid() && Init(View())
      ensures flow.Length == descBuf.Length == drvBuf.Length == 128
      ensures fresh(flow) && fresh(descBuf) && fresh(drvBuf)
      ensures forall b :: b in mem ==> b < N
      ensures multiset(drvBuf[..]) == multiset(mem.Keys)
    {
      flow := new Flow[N](_ => Dscl);
      descBuf := new nat[N](_ => 0);
      drvBuf := new nat[N](_ => 0);
      mem := map[];
      eng, cur, prv, addr, irq, enabled, nextDone := Fetching, 0, None, None, false, true, 0;
      budget, pc, starved, done, written := 0, Idle, false, 0, [];
      new;
      Fill();
      assert descBuf[..] == drvBuf[..];
      NumbersAsMultiset(drvBuf[..], mem.Keys);
    }

    /** A new buffer for every descriptor, its first byte zero. */
    method Fill()
      requires flow.Length == descBuf.Length == drvBuf.Length == N && descBuf != drvBuf && mem == map[]
      modifies this`mem, flow, descBuf, drvBuf
      ensures forall j :: 0 <= j < N ==> flow[j] == if j == N - 1 then Stop else Dscl
      ensures forall j :: 0 <= j < N ==> descBuf[j] == drvBuf[j] == j && j in mem
      ensures forall b :: b in mem ==> b < N && mem[b] == Empty
    {
      for i := 0 to N
        invariant forall j :: 0 <= j < i ==> flow[j] == if j == N - 1 then Stop else Dscl
        invariant forall j :: 0 <= j < i ==> descBuf[j] == drvBuf[j] == j && j in mem
        invariant forall b :: b in mem ==> b < i && mem[b] == Empty
      {
        mem := mem[i := Empty];
        drvBuf[i] := i;
        flow[i] := if i == N - 1 then Stop else Dscl;
        descBuf[i] := drvBuf[i];
      }
    }

    // The engine

    method HwFetch()
      requires Valid() && Enabled(View(), Step<T>.HwFetch)
      modifies this
      ensures Valid() && View() == Do(old(View()), Step<T>.HwFetch)
    {
      eng := Loaded(flow[cur], descBuf[cur]);
      addr := Some(descBuf[cur]);
    }

    method HwBegin()
      requires Valid() && Enabled(View(), Step<T>.HwBegin)
      modifies this
      ensures Valid() && View() == Do(old(View()), Step<T>.HwBegin)
    {
      mem := mem[eng.buf := Partial];
      eng := Writing(eng.flow, eng.buf);
    }

    lemma CompleteShape(s: State<T>, unit: T, stays: bool)
      requires Enabled(s, Step<T>.HwComplete(unit, stays))
      ensures Shape(s) && s.cur < N && s.eng.buf in s.mem && Shape(Do(s, Step<T>.HwComplete(unit, stays)))
    {
    }

    lemma NextSlot(i: nat)
      requires i < N
      ensures After(i) == (i + 1) % 128
    {
    }

    /** The rest of the unit goes into the buffer. */
    method Deposit(unit: T)
      requires eng.Writing?
      modifies this`mem, this`written
      ensures View() == old(View()).(mem := old(mem)[eng.buf := Full(unit)], written := old(written) + [unit])
    {
      mem := mem[eng.buf := Full(unit)];
      written := written + [unit];
    }

    /** The engine's registers after a descriptor, and IRQDONE. */
    method MoveOn(stays: bool)
      requires eng.Writing? && cur < N
      modifies this`eng, this`prv, this`addr, this`cur, this`irq
      ensures View() == old(View()).(
                eng := if old(eng).flow.Stop? then Halted else Fetching,
                prv := Some(old(cur)), addr := if stays then old(addr) else None, cur := After(old(cur)), irq := true)
    {
      eng := if eng.flow.Stop? then Halted else Fetching;
      prv := Some(cur);
      if !stays { addr := None; }
      cur := After(cur);
      irq := true;
    }

    method HwComplete(unit: T, stays: bool)
      requires Valid() && Enabled(View(), Step<T>.HwComplete(unit, stays))
      modifies this
      ensures Valid() && View() == Do(old(View()), Step<T>.HwComplete(unit, stays))
      ensures irq && prv == Some(old(cur)) && cur == (old(cur) + 1) % 128
      ensures eng.Halted? <==> old(eng).flow.Stop?
    {
      hide Shape, Before, After, FirstByte, Fresh;
      CompleteShape(View(), unit, stays);
      NextSlot(cur);
      Deposit(unit);
      MoveOn(stays);
    }

    // The interrupt handler and NAPI

    method Interrupt()
      requires Valid() && Enabled(View(), Step<T>.Interrupt)
      modifies this
      ensures Valid() && View() == Do(old(View()), Step<T>.Interrupt)
    {
      enabled := false;
      pc := Scheduled;
    }

    method PollStart(budget: nat)
      requires Valid() && Enabled(View(), Step<T>.PollStart(budget))
      modifies this
      ensures Valid() && View() == Do(old(View()), Step<T>.PollStart(budget))
    {
      pc, this.budget, starved := Loop(0), budget, false;
    }

    /** The loop ends because the budget is used up; nothing is read. */
    method LeaveLoop()
      requires Valid() && Enabled(View(), Step<T>.ReadFirst) && pc.count >= budget
      modifies this
      ensures Valid() && View() == Do(old(View()), Step<T>.ReadFirst)
    {
      pc := Check(pc.count);
    }

    // The poll, one access each

    method ReadFirst() returns (started: bool)
      requires Valid() && Enabled(View(), Step<T>.ReadFirst) && pc.count < budget
      modifies this
      ensures Valid() && View() == Do(old(View()), Step<T>.ReadFirst)
      ensures started <==> pc.Started?
    {
      started := !mem[drvBuf[nextDone]].Empty?;
      pc := if started then Started(pc.count) else Check(pc.count);
    }

    method ReadAddr() returns (inside: bool)
      requires Valid() && Enabled(View(), Step<T>.ReadAddr)
      modifies this
      ensures Valid() && View() == Do(old(View()), Step<T>.ReadAddr)
      ensures inside == pc.inside
    {
      inside := addr == Some(descBuf[nextDone]);
      pc := Addressed(pc.count, inside);
    }

    method ReadPrv(inside: bool) returns (complete: bool)
      requires Valid() && Enabled(View(), Step<T>.ReadPrv) && inside == pc.inside
      modifies this
      ensures Valid() && View() == Do(old(View()), Step<T>.ReadPrv)
      ensures complete <==> pc.Ready?
    {
      complete := !(inside && prv != Some(nextDone));
      pc := if complete then Ready(pc.count) else Check(pc.count);
    }

    /** No new buffer for this slot; a spare one may have been allocated and lost. */
    method AllocFail(spare: Option<nat>)
      requires Valid() && Enabled(View(), Step<T>.AllocFail(spare))
      modifies this
      ensures Valid() && View() == Do(old(View()), Step<T>.AllocFail(spare))
    {
      if spare.Some? { mem := mem[spare.value := Empty]; }
      pc, starved := Check(pc.count), true;
    }

    /** Put an emptied buffer into the driver's table. */
    method Take(newBuf: nat, counts: bool)
      requires Valid() && Enabled(View(), Step<T>.Take(newBuf, counts))
      modifies this, drvBuf
      ensures Valid() && View() == Do(old(View()), Step<T>.Take(newBuf, counts))
      ensures drvBuf[nextDone] == newBuf && nextDone == old(nextDone)
    {
      mem := mem[newBuf := Empty];
      drvBuf[nextDone] := newBuf;
      pc := Swapped(if counts then pc.count + 1 else pc.count);
    }

    method WriteAddr()
      requires Valid() && Enabled(View(), Step<T>.WriteAddr)
      modifies this, descBuf
      ensures Valid() && View() == Do(old(View()), Step<T>.WriteAddr)
    {
      descBuf[nextDone] := drvBuf[nextDone];
      pc := Pointed(pc.count);
    }

    /** The descriptor already points to the buffer; nothing is written. */
    method KeepAddr()
      requires Valid() && Enabled(View(), Step<T>.WriteAddr) && descBuf[..] == drvBuf[..]
      modifies this
      ensures Valid() && View() == Do(old(View()), Step<T>.WriteAddr)
    {
      pc := Pointed(pc.count);
    }

    method WriteStop()
      requires Valid() && Enabled(View(), Step<T>.WriteStop)
      modifies this, flow
      ensures Valid() && View() == Do(old(View()), Step<T>.WriteStop)
      ensures flow[nextDone] == Stop && nextDone == old(nextDone)
    {
      flow[nextDone] := Stop;
      pc := StopSet(pc.count);
    }

    method LinkPrev()
      requires Valid() && Enabled(View(), Step<T>.LinkPrev)
      modifies this, flow
      ensures Valid() && View() == Do(old(View()), Step<T>.LinkPrev)
      ensures flow[(nextDone + 127) % 128] == Dscl && nextDone == old(nextDone)
    {
      flow[Before(nextDone)] := Dscl;
      pc := Linked(pc.count);
    }

    /** Move on to the next slot and clear IRQDONE. */
    method Advance()
      requires Valid() && Enabled(View(), Step<T>.Advance)
      modifies this
      ensures Valid() && View() == Do(old(View()), Step<T>.Advance)
      ensures nextDone == (old(nextDone) + 1) % 128 && !irq
    {
      nextDone := After(nextDone);
      irq := false;
      pc, done := Loop(pc.count), done + 1;
    }

    method ReadStat() returns (halted: bool)
      requires Valid() && Enabled(View(), Step<T>.ReadStat)
      modifies this
      ensures Valid() && View() == Do(old(View()), Step<T>.ReadStat)
      ensures halted <==> pc.HaltSeen?
    {
      halted := eng.Halted?;
      pc := if halted then HaltSeen(pc.count) else Return(pc.count);
    }

    method Recheck() returns (empty: bool)
      requires Valid() && Enabled(View(), Step<T>.Recheck)
      modifies this
      ensures Valid() && View() == Do(old(View()), Step<T>.Recheck)
      ensures empty <==> pc.Clear?
    {
      empty := mem[drvBuf[nextDone]].Empty?;
      if !empty && pc.count < budget { starved := false; }
      pc := if empty then Clear(pc.count)
            else if pc.count < budget then Loop(pc.count)
            else Return(pc.count);
    }

    method ClearIrq()
      requires Valid() && Enabled(View(), Step<T>.ClearIrq)
      modifies this
      ensures Valid() && View() == Do(old(View()), Step<T>.ClearIrq)
      ensures !irq
    {
      irq := false;
      pc := Restart(pc.count);
    }

    method RestartDma()
      requires Valid() && Enabled(View(), Step<T>.RestartDma)
      modifies this
      ensures Valid() && View() == Do(old(View()), Step<T>.RestartDma)
      ensures eng == Fetching && cur == nextDone == old(nextDone)
    {
      cur := nextDone;
      eng := Fetching;
      pc := Return(Min(pc.count, budget - 1));
    }

    /** Back in the NAPI poll function: complete unless the budget was used up. */
    method Leave()
      requires Valid() && Enabled(View(), Step<T>.Leave)
      modifies this
      ensures Valid() && View() == Do(old(View()), Step<T>.Leave)
    {
      pc := if pc.count < budget then Complete else Scheduled;
    }

    method EnableIrq()
      requires Valid() && Enabled(View(), Step<T>.EnableIrq)
      modifies this
      ensures Valid() && View() == Do(old(View()), Step<T>.EnableIrq)
    {
      enabled := true;
      pc := Idle;
    }
  }
}
