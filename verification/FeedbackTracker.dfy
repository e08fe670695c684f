/**
 CongestionControlFeedbackTracker: what the receiver of one RTP stream reports back
 (RFC 8888). A batch is merged from the packets received since the last feedback and a
 bounded history of earlier ones.
 */
module FeedbackTracker {
  import opened Options
  import opened SeqNum
  import opened Rtcp
  import Codec = FeedbackCodec

  type Ecn = Codec.Ecn
  const MAX_HISTORY_SIZE: nat := 16384

  datatype PacketInfo = PacketInfo(sequenceNumber: int, arrivalTime: int, ecn: Ecn)

  /** One entry of a feedback message. */
  type FeedbackInfo = Codec.PacketInfo

  // ---------------------------------------------------------------------------
  // Sorting

  /** The order of `std::sort` in `AddPacketsToFeedback`. */
  predicate Before(a: PacketInfo, b: PacketInfo) {
    a.sequenceNumber < b.sequenceNumber ||
    (a.sequenceNumber == b.sequenceNumber && a.arrivalTime <= b.arrivalTime)
  }

  predicate InOrder(s: seq<PacketInfo>) {
    forall i, j :: 0 <= i < j < |s| ==> Before(s[i], s[j])
  }

  function Insert(x: PacketInfo, s: seq<PacketInfo>): seq<PacketInfo> {
    if s == [] || Before(x, s[0]) then [x] + s else [s[0]] + Insert(x, s[1..])
  }

  /** Stands for `std::sort`. Nothing below depends on where it puts packets that compare
      equal. */
  function Sort(s: seq<PacketInfo>): seq<PacketInfo> {
    if s == [] then [] else Insert(s[0], Sort(s[1..]))
  }

  lemma {:induction false} InsertSorts(x: PacketInfo, s: seq<PacketInfo>)
    requires InOrder(s)
    ensures InOrder(Insert(x, s)) && |Insert(x, s)| == |s| + 1
    ensures forall p :: p in Insert(x, s) <==> p == x || p in s
  {
    if s != [] && !Before(x, s[0]) {
      InsertSorts(x, s[1..]);
      var rest := Insert(x, s[1..]);
      forall j | 0 <= j < |rest|
        ensures Before(s[0], rest[j])
      {
        assert rest[j] in rest;
      }
    }
  }

  lemma {:induction false} SortSorts(s: seq<PacketInfo>)
    ensures InOrder(Sort(s)) && |Sort(s)| == |s|
    ensures forall p :: p in Sort(s) <==> p in s
  {
    if s != [] {
      SortSorts(s[1..]);
      InsertSorts(s[0], Sort(s[1..]));
    }
  }

  // ---------------------------------------------------------------------------
  // What an entry must say

  predicate IsCopy(p: PacketInfo, n: int) {
    p.sequenceNumber == n
  }

  ghost predicate HasCopy(batch: seq<PacketInfo>, n: int) {
    exists p :: p in batch && IsCopy(p, n)
  }

  /** `at` is the arrival time of number `n` in the history or of a copy in the batch, and the
      latest of them. */
  ghost predicate IsLatestArrival(history: map<int, PacketInfo>, batch: seq<PacketInfo>, n: int, at: int) {
    ((n in history && history[n].arrivalTime == at) || exists p :: p in batch && IsCopy(p, n) && p.arrivalTime == at) &&
    (n in history ==> history[n].arrivalTime <= at) &&
    (forall p :: p in batch && IsCopy(p, n) ==> p.arrivalTime <= at)
  }

  /** The ECN mark of the entry: congestion experienced if the history or any copy says so;
      otherwise the mark in the history, or that of an earliest copy. */
  ghost predicate RightMark(ecn: Ecn, history: map<int, PacketInfo>, batch: seq<PacketInfo>, n: int) {
    (ecn == Codec.Ce <==> (n in history && history[n].ecn == Codec.Ce) || exists p :: p in batch && IsCopy(p, n) && p.ecn == Codec.Ce) &&
    (ecn != Codec.Ce ==>
       if n in history && history[n].ecn != Codec.NotEct then ecn == history[n].ecn
       else if HasCopy(batch, n) then
         exists p :: p in batch && IsCopy(p, n) && p.ecn == ecn &&
           forall q :: q in batch && IsCopy(q, n) ==> p.arrivalTime <= q.arrivalTime
       else ecn == Codec.NotEct)
  }

  /** The entry for number `n`: reported received exactly if the number is in the history or
      the batch. */
  ghost predicate RightEntry(f: FeedbackInfo, ssrc: U32, n: int, now: int, history: map<int, PacketInfo>,
                             batch: seq<PacketInfo>) {
    f.ssrc == ssrc && f.sequenceNumber == Wrap(n) &&
    (f.offset.Finite? <==> n in history || HasCopy(batch, n)) &&
    (f.offset.Finite? ==> IsLatestArrival(history, batch, n, now - f.offset.us)) &&
    (!f.offset.Finite? ==> f.offset == Codec.MinusInfinity) &&
    RightMark(f.ecn, history, batch, n)
  }

  /** A whole batch: one gap-free range of numbers that starts at `start`, ends at the newest
      packet and takes in every packet, with a right entry for each number. */
  ghost predicate RightBatch(feedback: seq<FeedbackInfo>, ssrc: U32, start: int, now: int,
                             history: map<int, PacketInfo>, batch: seq<PacketInfo>) {
    feedback != [] &&
    (forall p :: p in batch ==> start <= p.sequenceNumber < start + |feedback|) &&
    (exists p :: p in batch && p.sequenceNumber == start + |feedback| - 1) &&
    forall i :: 0 <= i < |feedback| ==> RightEntry(feedback[i], ssrc, start + i, now, history, batch)
  }

  /** Such a batch is what the constructor of the feedback packet demands for one stream. */
  lemma BatchIsContiguous(feedback: seq<FeedbackInfo>, ssrc: U32, start: int, now: int,
                          history: map<int, PacketInfo>, batch: seq<PacketInfo>)
    requires RightBatch(feedback, ssrc, start, now, history, batch)
    ensures Codec.Contiguous(feedback) && feedback[0].ssrc == ssrc
  {
    hide RightMark, IsLatestArrival, HasCopy;
    forall i | 0 <= i < |feedback|
      ensures feedback[i].ssrc == feedback[0].ssrc &&
              feedback[i].sequenceNumber == Wrap(feedback[0].sequenceNumber + i)
    {
      assert RightEntry(feedback[i], ssrc, start + i, now, history, batch);
      assert RightEntry(feedback[0], ssrc, start + 0, now, history, batch);
    }
  }

  // ---------------------------------------------------------------------------
  // Merging the copies of one number

  /** Positions `from` up to `to` of a sorted batch hold exactly the copies of `n`. */
  predicate CopiesAt(sorted: seq<PacketInfo>, from: nat, to: nat, n: int) {
    from <= to <= |sorted| &&
    (forall i :: 0 <= i < from ==> sorted[i].sequenceNumber < n) &&
    (forall i :: from <= i < to ==> sorted[i].sequenceNumber == n) &&
    (forall i :: to <= i < |sorted| ==> sorted[i].sequenceNumber > n)
  }

  /** What the loop over the copies has computed from the first `k - from` of them. */
  ghost predicate Merged(sorted: seq<PacketInfo>, from: nat, k: nat, now: int, base: Option<int>, baseEcn: Ecn,
                         offset: Option<int>, ecn: Ecn)
    requires from <= k <= |sorted|
  {
    (base.Some? ==> offset.Some? && offset.value <= base.value) &&
    (forall i :: from <= i < k ==> offset.Some? && offset.value <= now - sorted[i].arrivalTime) &&
    (offset == base || exists i :: from <= i < k && offset == Some(now - sorted[i].arrivalTime)) &&
    (ecn == Codec.Ce <==> baseEcn == Codec.Ce || exists i :: from <= i < k && sorted[i].ecn == Codec.Ce) &&
    (ecn != Codec.Ce ==> ecn == if baseEcn != Codec.NotEct || k == from then baseEcn else sorted[from].ecn)
  }

  /** Taking one more copy into account; only the first may replace an unmarked history. */
  function MergeOffset(offset: Option<int>, candidate: int): Option<int> {
    if offset.Some? && offset.value <= candidate then offset else Some(candidate)
  }

  lemma MergeStep(sorted: seq<PacketInfo>, from: nat, k: nat, now: int, base: Option<int>, baseEcn: Ecn,
                  offset: Option<int>, ecn: Ecn)
    requires from <= k < |sorted|
    requires Merged(sorted, from, k, now, base, baseEcn, offset, ecn)
    ensures Merged(sorted, from, k + 1, now, base, baseEcn, MergeOffset(offset, now - sorted[k].arrivalTime),
                   if sorted[k].ecn == Codec.Ce then Codec.Ce else if k == from && ecn == Codec.NotEct then sorted[k].ecn else ecn)
  {
    var candidate := now - sorted[k].arrivalTime;
    var offset' := MergeOffset(offset, candidate);
    if offset' == offset {
      if offset != base {
        var i :| from <= i < k && offset == Some(now - sorted[i].arrivalTime);
        assert offset' == Some(now - sorted[i].arrivalTime);
      }
    } else {
      assert offset' == Some(now - sorted[k].arrivalTime);
    }
  }

  lemma CopiesAreCopies(sorted: seq<PacketInfo>, from: nat, to: nat, n: int)
    requires CopiesAt(sorted, from, to, n)
    ensures HasCopy(sorted, n) <==> from < to
    ensures forall i :: from <= i < to ==> sorted[i] in sorted && IsCopy(sorted[i], n)
    ensures forall p :: p in sorted && IsCopy(p, n) ==> exists i :: from <= i < to && sorted[i] == p
  {
    if from < to {
      assert sorted[from] in sorted && IsCopy(sorted[from], n);
    }
  }

  lemma OffsetIsRight(sorted: seq<PacketInfo>, from: nat, to: nat, n: int, now: int,
                      history: map<int, PacketInfo>, baseEcn: Ecn, offset: Option<int>, ecn: Ecn)
    requires CopiesAt(sorted, from, to, n)
    requires Merged(sorted, from, to, now,
                    if n in history then Some(now - history[n].arrivalTime) else None, baseEcn, offset, ecn)
    ensures offset.Some? <==> n in history || HasCopy(sorted, n)
    ensures offset.Some? ==> IsLatestArrival(history, sorted, n, now - offset.value)
  {
    CopiesAreCopies(sorted, from, to, n);
    if offset.Some? && !(n in history && history[n].arrivalTime == now - offset.value) {
      var i :| from <= i < to && offset == Some(now - sorted[i].arrivalTime);
      assert sorted[i].arrivalTime == now - offset.value;
    }
  }

  lemma FirstCopyIsEarliest(sorted: seq<PacketInfo>, from: nat, to: nat, n: int)
    requires InOrder(sorted) && CopiesAt(sorted, from, to, n) && from < to
    ensures sorted[from] in sorted && IsCopy(sorted[from], n)
    ensures forall q :: q in sorted && IsCopy(q, n) ==> sorted[from].arrivalTime <= q.arrivalTime
  {
    CopiesAreCopies(sorted, from, to, n);
    forall q | q in sorted && IsCopy(q, n)
      ensures sorted[from].arrivalTime <= q.arrivalTime
    {
      var i :| from <= i < to && sorted[i] == q;
      assert i == from || Before(sorted[from], sorted[i]);
    }
  }

  lemma MarkIsRight(sorted: seq<PacketInfo>, from: nat, to: nat, n: int, now: int,
                    history: map<int, PacketInfo>, base: Option<int>, offset: Option<int>, ecn: Ecn)
    requires InOrder(sorted) && CopiesAt(sorted, from, to, n)
    requires Merged(sorted, from, to, now, base, if n in history then history[n].ecn else Codec.NotEct, offset, ecn)
    ensures RightMark(ecn, history, sorted, n)
  {
    CopiesAreCopies(sorted, from, to, n);
    if from < to {
      FirstCopyIsEarliest(sorted, from, to, n);
    }
  }

  // ---------------------------------------------------------------------------
  // The tracker

  class CongestionControlFeedbackTracker {
    const ssrc: U32
    var lastSequenceNumberInFeedback: Option<int>
    var unwrapper: Unwrapper
    var packets: seq<PacketInfo>
    var history: map<int, PacketInfo>
    var historyOrder: seq<int>

    /** The batch holds nothing older than the next number to report, and the order of the
        history lists its numbers once. */
    ghost predicate Valid()
      reads this
    {
      Coherent(unwrapper) &&
      (lastSequenceNumberInFeedback.Some? ==>
         forall i :: 0 <= i < |packets| ==> packets[i].sequenceNumber > lastSequenceNumberInFeedback.value) &&
      (forall i, j :: 0 <= i < j < |historyOrder| ==> historyOrder[i] != historyOrder[j]) &&
      (forall n :: n in history <==> n in historyOrder) &&
      |historyOrder| <= MAX_HISTORY_SIZE
    }

    constructor (ssrc: U32)
      ensures Valid() && this.ssrc == ssrc && lastSequenceNumberInFeedback == None
      ensures unwrapper == Fresh && packets == [] && history == map[] && historyOrder == []
    {
      this.ssrc := ssrc;
      lastSequenceNumberInFeedback, unwrapper, packets, history, historyOrder := None, Fresh, [], map[], [];
    }

    /** The packet joins the batch; the history takes it in, dropping its oldest entry if it is
        full, or merges a duplicate: earliest arrival, and any congestion mark. A packet from
        before the last feedback moves the next feedback back to it. */
    method ReceivedPacket(sequenceNumber: Seq16, arrivalTime: int, ecn: Ecn)
      requires Valid()
      modifies this
      ensures Valid()
      ensures unwrapper == Unwrap(old(unwrapper), sequenceNumber).0
      ensures var n := Unwrap(old(unwrapper), sequenceNumber).1;
              packets == old(packets) + [PacketInfo(n, arrivalTime, ecn)] &&
              lastSequenceNumberInFeedback ==
                (if old(lastSequenceNumberInFeedback).Some? && n <= old(lastSequenceNumberInFeedback).value
                 then Some(n - 1) else old(lastSequenceNumberInFeedback)) &&
              n in history && history[n] ==
                (if n !in old(history) then PacketInfo(n, arrivalTime, ecn)
                 else PacketInfo(old(history)[n].sequenceNumber,
                                 if arrivalTime < old(history)[n].arrivalTime then arrivalTime
                                 else old(history)[n].arrivalTime,
                                 if ecn == Codec.Ce then Codec.Ce else old(history)[n].ecn)) &&
              (n in old(history) ==> historyOrder == old(historyOrder)) &&
              (n !in old(history) ==>
                 var order := old(historyOrder) + [n];
                 historyOrder == if |order| > MAX_HISTORY_SIZE then order[1..] else order) &&
              forall k :: k in history && k != n ==> k in old(history) && history[k] == old(history)[k]
    {
      UnwrapIsNearest(unwrapper, sequenceNumber);
      var (next, n) := Unwrap(unwrapper, sequenceNumber);
      unwrapper := next;
      if lastSequenceNumberInFeedback.Some? && n < lastSequenceNumberInFeedback.value + 1 {
        lastSequenceNumberInFeedback := Some(n - 1);
      }
      if n !in history {
        Remember(n, PacketInfo(n, arrivalTime, ecn));
      } else {
        if arrivalTime < history[n].arrivalTime {
          history := history[n := history[n].(arrivalTime := arrivalTime)];
        }
        if ecn == Codec.Ce {
          history := history[n := history[n].(ecn := Codec.Ce)];
        }
      }
      packets := packets + [PacketInfo(n, arrivalTime, ecn)];
    }

    /** Append a new number to the bounded history. */
    method Remember(n: int, info: PacketInfo)
      requires n !in history && |historyOrder| <= MAX_HISTORY_SIZE
      requires forall i, j :: 0 <= i < j < |historyOrder| ==> historyOrder[i] != historyOrder[j]
      requires forall k :: k in history <==> k in historyOrder
      modifies this`history, this`historyOrder
      ensures var order := old(historyOrder) + [n];
              historyOrder == if |order| > MAX_HISTORY_SIZE then order[1..] else order
      ensures forall i, j :: 0 <= i < j < |historyOrder| ==> historyOrder[i] != historyOrder[j]
      ensures forall k :: k in history <==> k in historyOrder
      ensures n in history && history[n] == info
      ensures forall k :: k in history && k != n ==> k in old(history) && history[k] == old(history)[k]
    {
      history := history[n := info];
      historyOrder := historyOrder + [n];
      if |historyOrder| > MAX_HISTORY_SIZE {
        ghost var full := historyOrder;
        var toRemove := historyOrder[0];
        assert full == [toRemove] + full[1..];
        assert forall i :: 1 <= i < |full| ==> full[i] != toRemove;
        assert forall k :: k in full[1..] <==> k in full && k != toRemove;
        historyOrder := historyOrder[1..];
        history := history - {toRemove};
      }
    }

    /** The first number the next feedback reports. */
    ghost function RangeStart(): int
      requires packets != []
      reads this
    {
      if lastSequenceNumberInFeedback.Some? then lastSequenceNumberInFeedback.value + 1
      else Sort(packets)[0].sequenceNumber
    }

    /** A batch covers one gap-free range of numbers, from behind the last feedback (or the
        first packet) to the newest packet of the batch; every packet of the batch is in it;
        and every entry is right. */
    method AddPacketsToFeedback(now: int) returns (feedback: seq<FeedbackInfo>)
      requires Valid()
      modifies this
      ensures Valid() && history == old(history) && historyOrder == old(historyOrder) && unwrapper == old(unwrapper)
      ensures packets == []
      ensures old(packets) == [] ==>
                feedback == [] && lastSequenceNumberInFeedback == old(lastSequenceNumberInFeedback)
      ensures old(packets) != [] ==>
                RightBatch(feedback, ssrc, old(RangeStart()), now, old(history), old(packets)) &&
                lastSequenceNumberInFeedback == Some(old(RangeStart()) + |feedback| - 1)
    {
      feedback := [];
      if packets == [] {
        return;
      }
      hide RightEntry, RightBatch;
      SortSorts(packets);
      var sorted := Sort(packets);
      ghost var batch := packets;
      assert sorted[0] in batch && sorted[|sorted| - 1] in batch;
      var start := if lastSequenceNumberInFeedback.Some? then lastSequenceNumberInFeedback.value + 1
                   else sorted[0].sequenceNumber;
      var last := sorted[|sorted| - 1].sequenceNumber;
      RangeCovers(sorted, batch, start, last, lastSequenceNumberInFeedback);
      feedback := Merge(sorted, start, last, now);
      BatchIsRight(feedback, ssrc, start, last, now, history, sorted, batch);
      lastSequenceNumberInFeedback := Some(last);
      packets := [];
    }

    /** The merge loop; the position `it` never runs past the batch while it is read. */
    method Merge(sorted: seq<PacketInfo>, start: int, last: int, now: int) returns (feedback: seq<FeedbackInfo>)
      requires InOrder(sorted) && sorted != [] && sorted[|sorted| - 1].sequenceNumber == last
      requires forall i :: 0 <= i < |sorted| ==> start <= sorted[i].sequenceNumber
      ensures |feedback| == last - start + 1
      ensures forall i :: 0 <= i < |feedback| ==>
                RightEntry(feedback[i], ssrc, start + i, now, history, sorted)
    {
      hide RightEntry;
      feedback := [];
      var it, n := 0, start;
      while n <= last
        invariant start <= n <= last + 1 && |feedback| == n - start && 0 <= it <= |sorted|
        invariant forall i :: 0 <= i < it ==> sorted[i].sequenceNumber < n
        invariant forall i :: it <= i < |sorted| ==> sorted[i].sequenceNumber >= n
        invariant forall i :: 0 <= i < |feedback| ==>
                    RightEntry(feedback[i], ssrc, start + i, now, history, sorted)
      {
        var info;
        info, it := MergeNumber(sorted, it, n, now);
        feedback := feedback + [info];
        n := n + 1;
      }
    }

    /** The entry of one number, and the position behind its copies. */
    method MergeNumber(sorted: seq<PacketInfo>, from: nat, n: int, now: int) returns (info: FeedbackInfo, it: nat)
      requires InOrder(sorted) && from < |sorted|
      requires forall i :: 0 <= i < from ==> sorted[i].sequenceNumber < n
      requires forall i :: from <= i < |sorted| ==> sorted[i].sequenceNumber >= n
      ensures CopiesAt(sorted, from, it, n)
      ensures RightEntry(info, ssrc, n, now, history, sorted)
    {
      hide IsLatestArrival, RightMark, Merged, CopiesAt, InOrder;
      var offset: Option<int>, ecn := None, Codec.NotEct;
      if n in history {
        offset, ecn := Some(now - history[n].arrivalTime), history[n].ecn;
      }
      ghost var base, baseEcn := offset, ecn;
      it := from;
      NothingMerged(sorted, from, now, base, baseEcn);
      while it < |sorted| && sorted[it].sequenceNumber == n
        invariant from <= it <= |sorted|
        invariant forall i :: from <= i < it ==> sorted[i].sequenceNumber == n
        invariant Merged(sorted, from, it, now, base, baseEcn, offset, ecn)
        decreases |sorted| - it
      {
        MergeStep(sorted, from, it, now, base, baseEcn, offset, ecn);
        offset := MergeOffset(offset, now - sorted[it].arrivalTime);
        if sorted[it].ecn == Codec.Ce {
          ecn := Codec.Ce;
        } else if it == from && ecn == Codec.NotEct {
          ecn := sorted[it].ecn;
        }
        it := it + 1;
      }
      AllCopiesTaken(sorted, from, it, n);
      OffsetIsRight(sorted, from, it, n, now, history, baseEcn, offset, ecn);
      MarkIsRight(sorted, from, it, n, now, history, base, offset, ecn);
      info := Codec.PacketInfo(ssrc, Wrap(n), if offset.Some? then Codec.Finite(offset.value) else Codec.MinusInfinity, ecn);
    }
  }

  lemma NothingMerged(sorted: seq<PacketInfo>, from: nat, now: int, base: Option<int>, baseEcn: Ecn)
    requires from <= |sorted|
    ensures Merged(sorted, from, from, now, base, baseEcn, base, baseEcn)
  {
  }

  lemma AllCopiesTaken(sorted: seq<PacketInfo>, from: nat, it: nat, n: int)
    requires InOrder(sorted) && from <= it <= |sorted|
    requires forall i :: 0 <= i < from ==> sorted[i].sequenceNumber < n
    requires forall i :: from <= i < |sorted| ==> sorted[i].sequenceNumber >= n
    requires forall i :: from <= i < it ==> sorted[i].sequenceNumber == n
    requires it == |sorted| || sorted[it].sequenceNumber != n
    ensures CopiesAt(sorted, from, it, n)
  {
    forall i | it <= i < |sorted|
      ensures sorted[i].sequenceNumber > n
    {
      assert i == it || Before(sorted[it], sorted[i]);
    }
  }

  lemma RangeCovers(sorted: seq<PacketInfo>, batch: seq<PacketInfo>, start: int, last: int, previous: Option<int>)
    requires InOrder(sorted) && sorted != [] && forall p :: p in sorted <==> p in batch
    requires last == sorted[|sorted| - 1].sequenceNumber
    requires start == if previous.Some? then previous.value + 1 else sorted[0].sequenceNumber
    requires previous.Some? ==> forall i :: 0 <= i < |batch| ==> batch[i].sequenceNumber > previous.value
    ensures forall p :: p in batch ==> start <= p.sequenceNumber <= last
    ensures forall i :: 0 <= i < |sorted| ==> start <= sorted[i].sequenceNumber
  {
    forall i | 0 <= i < |sorted|
      ensures start <= sorted[i].sequenceNumber <= last
    {
      assert sorted[i] in batch;
      assert i == |sorted| - 1 || Before(sorted[i], sorted[|sorted| - 1]);
      assert i == 0 || Before(sorted[0], sorted[i]);
    }
    forall p | p in batch
      ensures start <= p.sequenceNumber <= last
    {
      assert p in sorted;
    }
  }

  lemma BatchIsRight(feedback: seq<FeedbackInfo>, ssrc: U32, start: int, last: int, now: int,
                     history: map<int, PacketInfo>, sorted: seq<PacketInfo>, batch: seq<PacketInfo>)
    requires sorted != [] && (forall p :: p in sorted <==> p in batch)
    requires last == sorted[|sorted| - 1].sequenceNumber
    requires forall p :: p in batch ==> start <= p.sequenceNumber <= last
    requires |feedback| == last - start + 1
    requires forall i :: 0 <= i < |feedback| ==> RightEntry(feedback[i], ssrc, start + i, now, history, sorted)
    ensures RightBatch(feedback, ssrc, start, now, history, batch)
  {
    hide RightEntry;
    assert sorted[|sorted| - 1] in batch;
    forall i | 0 <= i < |feedback|
      ensures RightEntry(feedback[i], ssrc, start + i, now, history, batch)
    {
      SameCopies(feedback[i], ssrc, start + i, now, history, sorted, batch);
    }
  }

  /** The entry depends on which packets are in the batch, not on their order. */
  lemma SameCopies(f: FeedbackInfo, ssrc: U32, n: int, now: int, history: map<int, PacketInfo>,
                   a: seq<PacketInfo>, b: seq<PacketInfo>)
    requires forall p :: p in a <==> p in b
    requires RightEntry(f, ssrc, n, now, history, a)
    ensures RightEntry(f, ssrc, n, now, history, b)
  {
    assert HasCopy(a, n) <==> HasCopy(b, n);
  }
}
