/** Frame tags: two cyclic pools, handed out in order and given back in order. */
module TxTags {
  const MIN_NONPTP_TAG: nat := 1
  const MAX_NONPTP_TAG: nat := 247
  const MIN_PTP_TAG: nat := MAX_NONPTP_TAG + 1
  const MAX_PTP_TAG: nat := 255
  const NUM_FRAME_TAGS: nat := 255

  /** An skb with the work-unit header the driver put in front of it. */
  datatype TxSkb = TxSkb(id: nat, ptp: bool, tag: nat, length: nat)

  datatype Pool = Pool(next: nat, last: nat, available: int)

  function MinTag(ptp: bool): nat { if ptp then MIN_PTP_TAG else MIN_NONPTP_TAG }

  function MaxTag(ptp: bool): nat { if ptp then MAX_PTP_TAG else MAX_NONPTP_TAG }

  function Size(ptp: bool): (n: nat)
    ensures n > 0
  {
    MaxTag(ptp) - MinTag(ptp) + 1
  }

  function Succ(ptp: bool, tag: nat): nat
  {
    if tag == MaxTag(ptp) then MinTag(ptp) else tag + 1
  }

  /** The pool as adi_msp_open sets it up. */
  function FullPool(ptp: bool): Pool
  {
    Pool(MinTag(ptp), MaxTag(ptp), MaxTag(ptp) - MinTag(ptp) + 1)
  }

  /** get_frame_tag: 0 when no tag is available. */
  function GetTag(p: Pool, ptp: bool): (Pool, nat)
  {
    if p.available == 0 then (p, 0)
    else (Pool(Succ(ptp, p.next), p.last, p.available - 1), p.next)
  }

  predicate InRange(ptp: bool, tag: nat)
  {
    MinTag(ptp) <= tag <= MaxTag(ptp)
  }

  /** The tag of the i-th frame of a class. */
  function TagAt(ptp: bool, i: nat): (tag: nat)
    ensures InRange(ptp, tag)
  {
    if i == 0 then MinTag(ptp) else Succ(ptp, TagAt(ptp, i - 1))
  }

  /** Tags 1 to 247 are those of ordinary frames, 248 to 255 those of PTP frames. */
  lemma Classes(tag: nat)
    ensures InRange(false, tag) <==> 1 <= tag <= 247
    ensures InRange(true, tag) <==> 248 <= tag <= 255
  {
  }

  /** The tags of a class go round and round. */
  lemma {:induction false} TagAtIs(ptp: bool, i: nat)
    ensures TagAt(ptp, i) == if ptp then 248 + i % 8 else 1 + i % 247
  {
    if i > 0 {
      hide TagAt;
      TagAfter(ptp, i - 1);
      TagAtIs(ptp, i - 1);
      Around(i - 1);
    }
  }

  lemma Around(i: nat)
    ensures (i + 1) % 8 == if i % 8 == 7 then 0 else i % 8 + 1
    ensures (i + 1) % 247 == if i % 247 == 246 then 0 else i % 247 + 1
  {
  }

  /** How many of the first `k` frames belong to the class. */
  function CountOf(frames: seq<TxSkb>, ptp: bool, k: nat): (n: nat)
    requires k <= |frames|
    ensures n <= k
  {
    if k == 0 then 0
    else CountOf(frames, ptp, k - 1) + if frames[k - 1].ptp == ptp then 1 else 0
  }

  lemma CountNext(frames: seq<TxSkb>, ptp: bool, k: nat)
    requires k < |frames|
    ensures CountOf(frames, ptp, k + 1) == CountOf(frames, ptp, k) + if frames[k].ptp == ptp then 1 else 0
  {
  }

  lemma {:induction false} CountOfPrefix(frames: seq<TxSkb>, f: TxSkb, ptp: bool, k: nat)
    requires k <= |frames|
    ensures CountOf(frames + [f], ptp, k) == CountOf(frames, ptp, k)
  {
    if k > 0 { CountOfPrefix(frames, f, ptp, k - 1); }
  }

  lemma {:induction false} CountOfMonotone(frames: seq<TxSkb>, ptp: bool, j: nat, k: nat)
    requires j <= k <= |frames|
    ensures CountOf(frames, ptp, j) <= CountOf(frames, ptp, k) <= CountOf(frames, ptp, j) + (k - j)
  {
    if j < k { CountOfMonotone(frames, ptp, j, k - 1); }
  }

  /** The two classes together make up all frames. */
  lemma {:induction false} CountOfBoth(frames: seq<TxSkb>, k: nat)
    requires k <= |frames|
    ensures CountOf(frames, true, k) + CountOf(frames, false, k) == k
  {
    if k > 0 { CountOfBoth(frames, k - 1); }
  }

  lemma {:induction false} TagAtCycle(ptp: bool, i: nat, d: nat)
    requires d < Size(ptp)
    ensures TagAt(ptp, i + d) ==
      if TagAt(ptp, i) + d <= MaxTag(ptp) then TagAt(ptp, i) + d else TagAt(ptp, i) + d - Size(ptp)
  {
    if d > 0 { TagAtCycle(ptp, i, d - 1); }
  }

  /** Tags less than a whole cycle apart differ. */
  lemma TagsApart(ptp: bool, i: nat, j: nat)
    requires i < j < i + Size(ptp)
    ensures TagAt(ptp, i) != TagAt(ptp, j)
  {
    TagAtCycle(ptp, i, j - i);
  }

  /** A pool that has given out the tags of `frames` and got back those of the
      first `returned` (counted) and first `recorded` (in last_*_frame_tag) of them. */
  ghost predicate PoolOk(p: Pool, ptp: bool, frames: seq<TxSkb>, returned: nat, recorded: nat)
    requires returned <= |frames| && recorded <= |frames|
  {
    && p.next == TagAt(ptp, CountOf(frames, ptp, |frames|))
    && p.available == Size(ptp) - (CountOf(frames, ptp, |frames|) - CountOf(frames, ptp, returned))
    && p.available >= 0
    && InRange(ptp, p.last)
    && Succ(ptp, p.last) == TagAt(ptp, CountOf(frames, ptp, recorded))
    && forall k :: 0 <= k < |frames| && frames[k].ptp == ptp ==> frames[k].tag == TagAt(ptp, CountOf(frames, ptp, k))
  }

  /** Accepting one more frame leaves the counts of all shorter prefixes alone. */
  lemma CountsAfter(frames: seq<TxSkb>, f: TxSkb, ptp: bool)
    ensures forall k :: 0 <= k <= |frames| ==> CountOf(frames + [f], ptp, k) == CountOf(frames, ptp, k)
    ensures CountOf(frames + [f], ptp, |frames| + 1)
         == CountOf(frames, ptp, |frames|) + if f.ptp == ptp then 1 else 0
  {
    forall k | 0 <= k <= |frames|
      ensures CountOf(frames + [f], ptp, k) == CountOf(frames, ptp, k)
    {
      CountOfPrefix(frames, f, ptp, k);
    }
  }

  lemma FullPoolOk(ptp: bool)
    ensures PoolOk(FullPool(ptp), ptp, [], 0, 0)
  {
  }

  /** Taking a tag for a new frame of the class. */
  lemma GetKeepsPool(p: Pool, ptp: bool, frames: seq<TxSkb>, returned: nat, recorded: nat, f: TxSkb)
    requires returned <= |frames| && recorded <= |frames|
    requires PoolOk(p, ptp, frames, returned, recorded)
    requires f.ptp == ptp && p.available != 0 && f.tag == p.next
    ensures PoolOk(GetTag(p, ptp).0, ptp, frames + [f], returned, recorded)
    ensures GetTag(p, ptp).1 == f.tag != 0
  {
    hide CountOf, TagAt, Succ;
    var more := frames + [f];
    TagAfter(ptp, CountOf(frames, ptp, |frames|));
    CountsAfter(frames, f, ptp);
  }

  lemma TagAfter(ptp: bool, n: nat)
    ensures TagAt(ptp, n + 1) == Succ(ptp, TagAt(ptp, n))
  {
  }

  /** A frame of the other class does not touch the pool. */
  lemma OtherKeepsPool(p: Pool, ptp: bool, frames: seq<TxSkb>, returned: nat, recorded: nat, f: TxSkb)
    requires returned <= |frames| && recorded <= |frames|
    requires PoolOk(p, ptp, frames, returned, recorded)
    requires f.ptp != ptp
    ensures PoolOk(p, ptp, frames + [f], returned, recorded)
  {
    hide CountOf, TagAt, Succ;
    var more := frames + [f];
    CountsAfter(frames, f, ptp);
  }

  /** The frame given back next carries exactly the tag put_frame_tag expects. */
  lemma NextReturnIsExpected(p: Pool, ptp: bool, frames: seq<TxSkb>, returned: nat, recorded: nat)
    requires returned <= |frames| && recorded < |frames|
    requires PoolOk(p, ptp, frames, returned, recorded)
    requires frames[recorded].ptp == ptp
    ensures InRange(ptp, frames[recorded].tag)
    ensures frames[recorded].tag == Succ(ptp, p.last)
  {
  }

  /** Within a class, at most one cycle of tags is outstanding, so they all differ. */
  lemma SameClassTagsDiffer(p: Pool, ptp: bool, frames: seq<TxSkb>, returned: nat, recorded: nat, j: nat, k: nat)
    requires returned <= j < k < |frames| && recorded <= |frames|
    requires PoolOk(p, ptp, frames, returned, recorded)
    requires frames[j].ptp == frames[k].ptp == ptp
    ensures frames[j].tag != frames[k].tag
  {
    assert CountOf(frames, ptp, j + 1) == CountOf(frames, ptp, j) + 1;
    assert CountOf(frames, ptp, k + 1) == CountOf(frames, ptp, k) + 1;
    hide CountOf, TagAt;
    CountOfMonotone(frames, ptp, returned, j);
    CountOfMonotone(frames, ptp, j + 1, k);
    CountOfMonotone(frames, ptp, k + 1, |frames|);
    TagsApart(ptp, CountOf(frames, ptp, j), CountOf(frames, ptp, k));
  }

  /** Tags of frames not yet given back are pairwise different and never 0. */
  lemma OutstandingTagsDiffer(
    p: Pool, q: Pool, frames: seq<TxSkb>, returned: nat, recorded: nat, j: nat, k: nat)
    requires returned <= j < k < |frames| && recorded <= |frames|
    requires PoolOk(p, true, frames, returned, recorded) && PoolOk(q, false, frames, returned, recorded)
    ensures frames[j].tag != frames[k].tag
    ensures frames[j].tag != 0 && frames[k].tag != 0
  {
    if frames[j].ptp == frames[k].ptp {
      SameClassTagsDiffer(if frames[j].ptp then p else q, frames[j].ptp, frames, returned, recorded, j, k);
    }
    hide CountOf;
  }

  /** put_frame_tag, first half: the tag of frame `k` is counted as available again. */
  lemma ReturnKeepsPool(p: Pool, ptp: bool, frames: seq<TxSkb>, k: nat)
    requires k < |frames| && PoolOk(p, ptp, frames, k, k)
    ensures PoolOk(if frames[k].ptp == ptp then p.(available := p.available + 1) else p, ptp, frames, k + 1, k)
  {
    assert CountOf(frames, ptp, k + 1) == CountOf(frames, ptp, k) + if frames[k].ptp == ptp then 1 else 0;
    CountOfMonotone(frames, ptp, k, |frames|);
    CountOfMonotone(frames, ptp, k + 1, |frames|);
  }

  /** put_frame_tag, second half: the tag becomes the last one given back. */
  lemma RecordKeepsPool(p: Pool, ptp: bool, frames: seq<TxSkb>, k: nat)
    requires k < |frames| && PoolOk(p, ptp, frames, k + 1, k)
    ensures PoolOk(if frames[k].ptp == ptp then p.(last := frames[k].tag) else p, ptp, frames, k + 1, k + 1)
  {
    hide CountOf, TagAt, Succ;
    CountNext(frames, ptp, k);
    TagAfter(ptp, CountOf(frames, ptp, k));
  }
}
