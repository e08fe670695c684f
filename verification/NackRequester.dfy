/**
 NackRequester as an object: the list of missing packets, the set of recovered ones and
 the reordering histogram, updated in place; and the path of a batch from the list
 through the RTCP packer.
 */
module NackRequesting {
  import opened Options
  import opened SeqNum
  import opened NackModel
  import opened NackWindow
  import NackMinimal
  import NackPacking
  import opened ReorderingHistogram

  const MAX_REORDERED_PACKETS: nat := 128
  const NUM_REORDERING_BUCKETS: nat := 10

  // ---------------------------------------------------------------------------
  // What a batch looks like

  /** The counters of the requested entries. */
  function BatchCounters(s: State, list: seq<Info>, counters: seq<int>, filter: Filter, now: int): seq<int>
    requires |list| == |counters|
  {
    if list == [] then []
    else (if Due(s, list[0], filter, now) then [counters[0]] else [])
         + BatchCounters(s, list[1..], counters[1..], filter, now)
  }

  lemma {:induction false} BatchStands(s: State, list: seq<Info>, counters: seq<int>, lo: int, hi: int, filter: Filter, now: int)
    requires Stands(list, counters, lo, hi)
    ensures var b, cs := Batch(s, list, filter, now), BatchCounters(s, list, counters, filter, now);
            |b| == |cs| && Increasing(cs) &&
            (forall i :: 0 <= i < |b| ==> b[i] == Wrap(cs[i]) && lo <= cs[i] < hi && cs[i] in counters)
  {
    hide Due, Wrap;
    if list != [] {
      assert Stands(list[1..], counters[1..], lo, hi);
      BatchStands(s, list[1..], counters[1..], lo, hi, filter, now);
      var cs := BatchCounters(s, list[1..], counters[1..], filter, now);
      forall i | 0 <= i < |cs|
        ensures counters[0] < cs[i] && cs[i] in counters
      {
        var j :| 0 <= j < |counters[1..]| && counters[1..][j] == cs[i];
        assert counters[j + 1] == cs[i];
      }
    }
  }

  lemma ForwardDiffOfCounters(x: int, y: int)
    requires 0 <= y - x < MODULUS
    ensures ForwardDiff(Wrap(x), Wrap(y)) == y - x
  {
    var a: int, b: int := Wrap(x), Wrap(y);
    assert y - x == (y / MODULUS - x / MODULUS) * MODULUS + (b - a);
  }

  /** The wrapped forms of increasing counters less than a turn apart are in turn. */
  lemma InTurnOfCounters(ids: seq<Seq16>, cs: seq<int>)
    requires |ids| == |cs| && ids != [] && Increasing(cs)
    requires cs[|cs| - 1] - cs[0] < MODULUS
    requires forall i :: 0 <= i < |ids| ==> ids[i] == Wrap(cs[i])
    ensures NackMinimal.OneTurn(ids)
    ensures ForwardDiff(ids[0], ids[|ids| - 1]) == cs[|cs| - 1] - cs[0]
  {
    forall i | 0 <= i < |ids|
      ensures ForwardDiff(ids[0], ids[i]) == cs[i] - cs[0]
    {
      assert i == 0 || cs[0] < cs[i];
      assert i == |cs| - 1 || cs[i] < cs[|cs| - 1];
      ForwardDiffOfCounters(cs[0], cs[i]);
    }
  }

  /** From the list to the wire and back: a batch requested in any reachable state is in
      forward order and spans less than 10000, so packing it uses the fewest items and the
      other side unpacks exactly the batch. */
  lemma BatchSurvivesPacking(events: seq<Event>, filter: Filter, now: int)
    requires Run(events).0.initialized
    ensures var (s, t) := Run(events);
            var batch := Batch(s, s.list, filter, now);
            NackPacking.Unpack(NackPacking.Pack(batch)) == batch && NackMinimal.Minimal(batch)
  {
    hide Run, Batch, BatchCounters, NackPacking.Pack, NackPacking.Unpack, NackMinimal.Minimal;
    var (s, t) := Run(events);
    var lo := t.newest - MAX_PACKET_AGE;
    BatchStands(s, s.list, t.counters, lo, t.newest, filter, now);
    var batch, cs := Batch(s, s.list, filter, now), BatchCounters(s, s.list, t.counters, filter, now);
    forall i | 0 <= i < |batch| - 1
      ensures 1 <= ForwardDiff(batch[i], batch[i + 1]) <= MODULUS - 16
    {
      assert cs[i] < cs[i + 1];
      ForwardDiffOfCounters(cs[i], cs[i + 1]);
    }
    NackPacking.RoundTripList(batch);
    if batch != [] {
      InTurnOfCounters(batch, cs);
    }
    NackMinimal.PackIsMinimal(batch);
  }

  // ---------------------------------------------------------------------------
  // The object

  /** The least wait within which at least half of the reorderings so far fell. */
  predicate IsWait(values: seq<nat>, numBuckets: nat, wait: nat) {
    if values == [] then wait == 0 else IsInverseCdf(values, numBuckets, 1, 2, wait)
  }

  /** The packet is older than the newest one. */
  predicate CameLate(s: State, seqNum: Seq16) {
    s.initialized && seqNum != s.newest && AheadOf(s.newest, seqNum)
  }

  class NackRequester {
    var nackList: seq<Info>
    var recoveredList: set<Seq16>
    var initialized: bool
    var rttMs: int
    var hasRttSample: bool
    var keyframeRequestPending: bool
    var newestSeqNum: Seq16
    const reorderingHistogram: Histogram
    ghost var trace: Trace

    function Snapshot(): State
      reads this
    {
      State(nackList, recoveredList, initialized, rttMs, hasRttSample, keyframeRequestPending, newestSeqNum)
    }

    ghost predicate Valid()
      reads this, reorderingHistogram
    {
      Windowed(Snapshot(), trace) && reorderingHistogram.Valid()
    }

    constructor ()
      ensures Valid() && fresh(reorderingHistogram)
      ensures Snapshot() == INITIAL && reorderingHistogram.values == []
    {
      nackList, recoveredList, initialized := [], {}, false;
      rttMs, hasRttSample, keyframeRequestPending, newestSeqNum := DEFAULT_RTT_MS, false, false, 0;
      reorderingHistogram := new Histogram(NUM_REORDERING_BUCKETS, MAX_REORDERED_PACKETS);
      trace := Trace(0, 0, []);
    }

    /** How many packets to wait before the first request: the median reordering. */
    method WaitNumberOfPackets() returns (wait: nat)
      requires reorderingHistogram.Valid()
      ensures IsWait(reorderingHistogram.values, |reorderingHistogram.buckets|, wait)
    {
      if |reorderingHistogram.values| == 0 {
        return 0;
      }
      wait := reorderingHistogram.InverseCdf(1, 2);
    }

    /** Returns the batch to request. New entries wait for the median reordering so far, and
        how far behind an out-of-order packet came is added to the histogram. */
    method OnReceivedPacket(seqNum: Seq16, isRecovered: bool, now: int)
      returns (batch: seq<Seq16>, ghost wait: nat)
      requires Valid()
      modifies this, reorderingHistogram
      ensures Valid()
      ensures (Snapshot(), batch) == OnReceived(old(Snapshot()), seqNum, isRecovered, wait, now)
      ensures trace == StepTrace(old(Snapshot()), old(trace), Received(seqNum, isRecovered, wait, now))
      ensures var h := reorderingHistogram;
              IsWait(old(h.values), old(|h.buckets|), wait) &&
              |h.buckets| == old(|h.buckets|) &&
              h.Recent() == if CameLate(old(Snapshot()), seqNum) && !isRecovered
                            then Added(old(h.Recent()), ReverseDiff(old(newestSeqNum), seqNum), |h.buckets|, h.capacity)
                            else old(h.Recent())
    {
      ghost var s0, t0 := Snapshot(), trace;
      var medianWait := WaitNumberOfPackets();
      wait := medianWait;
      StepWindowed(s0, t0, Received(seqNum, isRecovered, wait, now));
      trace := StepTrace(s0, t0, Received(seqNum, isRecovered, wait, now));
      hide Windowed, StepTrace, OnReceived;
      batch := Classify(seqNum, isRecovered, medianWait, now);
    }

    /** The branches of `OnReceivedPacket`. */
    method Classify(seqNum: Seq16, isRecovered: bool, wait: nat, now: int) returns (batch: seq<Seq16>)
      requires reorderingHistogram.Valid()
      modifies this, reorderingHistogram
      ensures reorderingHistogram.Valid() && trace == old(trace)
      ensures (Snapshot(), batch) == OnReceived(old(Snapshot()), seqNum, isRecovered, wait, now)
      ensures var h := reorderingHistogram;
              |h.buckets| == old(|h.buckets|) &&
              h.Recent() == if CameLate(old(Snapshot()), seqNum) && !isRecovered
                            then Added(old(h.Recent()), ReverseDiff(old(newestSeqNum), seqNum), |h.buckets|, h.capacity)
                            else old(h.Recent())
    {
      hide OutOfOrder, GetBatch, AddPackets, RememberRecovered;
      batch := [];
      if !initialized {
        newestSeqNum, initialized := seqNum, true;
      } else if seqNum == newestSeqNum {
      } else if AheadOf(newestSeqNum, seqNum) {
        RemoveReceived(seqNum, isRecovered, now);
        if !isRecovered {
          reorderingHistogram.Add(ReverseDiff(newestSeqNum, seqNum));
        }
      } else if isRecovered {
        Remember(seqNum);
      } else {
        AddPacketsToNack(Wrap(newestSeqNum + 1), seqNum, wait, now);
        newestSeqNum := seqNum;
        batch := GetNackBatch(SeqNumOnly, now);
      }
    }

    /** An out-of-order packet leaves the list. */
    method RemoveReceived(seqNum: Seq16, isRecovered: bool, now: int)
      modifies this`nackList, this`rttMs, this`hasRttSample
      ensures Snapshot() == OutOfOrder(old(Snapshot()), seqNum, isRecovered, now)
    {
      var i := Find(nackList, seqNum);
      if i < |nackList| {
        if isRecovered && nackList[i].retries == 1 && nackList[i].sentAt.Some? {
          UpdateRoundTripTime(Millis(now - nackList[i].sentAt.value));
        }
        nackList := RemoveAt(nackList, i);
      }
    }

    method Remember(seqNum: Seq16)
      modifies this`recoveredList
      ensures Snapshot() == RememberRecovered(old(Snapshot()), seqNum)
    {
      var oldest := Wrap(seqNum - MAX_PACKET_AGE);
      recoveredList := recoveredList + {seqNum};
      recoveredList := set r | r in recoveredList && !AheadOf(oldest, r);
    }

    method UpdateRoundTripTime(sampleMs: int)
      modifies this`rttMs, this`hasRttSample
      ensures Snapshot() == UpdateRtt(old(Snapshot()), sampleMs)
    {
      if sampleMs <= 0 || sampleMs > 2000 {
        return;
      }
      if hasRttSample {
        rttMs := (3 * rttMs + sampleMs) / 4;
      } else {
        rttMs, hasRttSample := sampleMs, true;
      }
    }

    method AddPacketsToNack(start: Seq16, end: Seq16, wait: nat, now: int)
      requires start == Wrap(newestSeqNum + 1)
      modifies this`nackList, this`keyframeRequestPending
      ensures Snapshot() == AddPackets(old(Snapshot()), end, wait, now)
    {
      hide InsertOrAssign, NewInfo, LowerBound, InsertFrom;
      nackList := nackList[LowerBound(nackList, Wrap(end - MAX_PACKET_AGE))..];
      var numNewNacks := ForwardDiff(start, end);
      if |nackList| + numNewNacks > MAX_NACK_PACKETS {
        nackList := [];
        keyframeRequestPending := true;
        return;
      }
      ghost var kept := nackList;
      var seqNum: Seq16 := start;
      while seqNum != end
        invariant InsertFrom(nackList, recoveredList, seqNum, ForwardDiff(seqNum, end), wait, now) ==
                  InsertFrom(kept, recoveredList, start, numNewNacks, wait, now)
        invariant keyframeRequestPending == old(keyframeRequestPending)
        decreases ForwardDiff(seqNum, end)
      {
        OneStepCloser(seqNum, end);
        InsertOnce(nackList, recoveredList, seqNum, ForwardDiff(seqNum, end), wait, now);
        if seqNum !in recoveredList {
          nackList := InsertOrAssign(nackList, NewInfo(seqNum, Wrap(seqNum + wait), now));
        }
        seqNum := Next(seqNum);
      }
      InsertOnce(nackList, recoveredList, seqNum, 0, wait, now);
    }

    method GetNackBatch(filter: Filter, now: int) returns (batch: seq<Seq16>)
      modifies this`nackList
      ensures (Snapshot(), batch) == GetBatch(old(Snapshot()), filter, now)
    {
      hide Due, Batch, Marked;
      batch := [];
      ghost var s0, done, rest := Snapshot(), [], nackList;
      var it := 0;
      while it < |nackList|
        invariant |done| == it && |rest| == |nackList| - it && nackList == done + rest
        invariant done + Marked(s0, rest, filter, now) == Marked(s0, s0.list, filter, now)
        invariant batch + Batch(s0, rest, filter, now) == Batch(s0, s0.list, filter, now)
      {
        DueFrame(s0, Snapshot(), nackList[it], filter, now);
        var seqNum := nackList[it].seqNum;
        var due := MarkIfDue(it, filter, now);
        BatchStep(s0, rest, filter, now);
        UpdateMiddle(done, rest, nackList[it]);
        Regroup(done, [nackList[it]], Marked(s0, rest[1..], filter, now));
        Regroup(batch, if due then [seqNum] else [], Batch(s0, rest[1..], filter, now));
        if due {
          batch := batch + [seqNum];
        }
        done, rest := done + [nackList[it]], rest[1..];
        it := it + 1;
      }
      BatchOfNone(s0, filter, now);
      assert rest == [] && done + [] == done && batch + [] == batch;
    }

    method MarkIfDue(i: nat, filter: Filter, now: int) returns (due: bool)
      requires i < |nackList|
      modifies this`nackList
      ensures due == Due(old(Snapshot()), old(nackList)[i], filter, now)
      ensures nackList == old(nackList)[i := if due then old(nackList)[i].(sendPending := true) else old(nackList)[i]]
    {
      due := Due(Snapshot(), nackList[i], filter, now);
      if due {
        nackList := nackList[i := nackList[i].(sendPending := true)];
      }
    }

    method ProcessNacks(now: int) returns (batch: seq<Seq16>)
      requires Valid()
      modifies this
      ensures Valid()
      ensures (Snapshot(), batch) == GetBatch(old(Snapshot()), TimeOnly, now)
      ensures trace == old(trace)
    {
      StepWindowed(Snapshot(), trace, BatchRequested(now));
      assert initialized || nackList == [];
      batch := GetNackBatch(TimeOnly, now);
    }

    method OnNackBatchSent(batch: seq<Seq16>, sendSuccessful: bool, now: int)
      requires Valid()
      modifies this
      ensures Valid()
      ensures Snapshot() == old(Snapshot()).(list := OnSent(old(nackList), batch, sendSuccessful, now))
      ensures trace == StepTrace(old(Snapshot()), old(trace), BatchSent(batch, sendSuccessful, now))
    {
      ghost var s0, t0 := Snapshot(), trace;
      StepWindowed(s0, t0, BatchSent(batch, sendSuccessful, now));
      trace := StepTrace(s0, t0, BatchSent(batch, sendSuccessful, now));
      hide Windowed, StepTrace;
      var k := 0;
      while k < |batch|
        invariant 0 <= k <= |batch|
        invariant Snapshot() == s0.(list := nackList)
        invariant OnSent(nackList, batch[k..], sendSuccessful, now) == OnSent(s0.list, batch, sendSuccessful, now)
        invariant trace == StepTrace(s0, t0, BatchSent(batch, sendSuccessful, now))
      {
        OnOneSent(batch[k], sendSuccessful, now);
        assert batch[k..][1..] == batch[k + 1..];
        k := k + 1;
      }
      assert batch[k..] == [];
    }

    method OnOneSent(seqNum: Seq16, sendSuccessful: bool, now: int)
      modifies this`nackList
      ensures nackList == OnSentOne(old(nackList), seqNum, sendSuccessful, now)
    {
      var i := Find(nackList, seqNum);
      if i == |nackList| || !nackList[i].sendPending {
        return;
      }
      nackList := nackList[i := nackList[i].(sendPending := false, lastSendAttempt := Some(now))];
      if !sendSuccessful {
        return;
      }
      nackList := nackList[i := nackList[i].(retries := nackList[i].retries + 1, sentAt := Some(now))];
      if nackList[i].retries >= MAX_NACK_RETRIES {
        nackList := RemoveAt(nackList, i);
      }
    }

    method ConsumeKeyFrameRequest() returns (request: bool)
      requires Valid()
      modifies this`keyframeRequestPending
      ensures Valid()
      ensures request == old(keyframeRequestPending) && !keyframeRequestPending
    {
      request := keyframeRequestPending;
      keyframeRequestPending := false;
    }

    /** Whatever the number, the entries removed form the oldest part of the list and none of
        them is after it; in reach of the window they are exactly those up to it. */
    method ClearUpToNumber(seqNum: Seq16)
      requires Valid()
      modifies this
      ensures Valid()
      ensures Snapshot() == ClearUpTo(old(Snapshot()), seqNum)
      ensures trace == StepTrace(old(Snapshot()), old(trace), Cleared(seqNum))
    {
      ghost var s0, t0 := Snapshot(), trace;
      StepWindowed(s0, t0, Cleared(seqNum));
      trace := StepTrace(s0, t0, Cleared(seqNum));
      nackList := nackList[UpperBound(nackList, seqNum)..];
      recoveredList := set r | r in recoveredList && AheadOf(r, seqNum);
    }

    /** For a number within half the space of the window, the query is exact. */
    method HasPendingNacksUpTo(seqNum: Seq16, ghost counter: int) returns (pending: bool)
      requires Valid() && Wrap(counter) == seqNum
      requires initialized ==> trace.newest - HALF <= counter < trace.newest - MAX_PACKET_AGE + HALF
      ensures pending <==> initialized && exists c :: c in trace.counters && c <= counter
    {
      pending := UpperBound(nackList, seqNum) != 0;
      if initialized {
        UpperBoundSplits(nackList, trace.counters, trace.newest - MAX_PACKET_AGE, trace.newest, counter);
        if exists c :: c in trace.counters && c <= counter {
          var i :| 0 <= i < |trace.counters| && trace.counters[i] <= counter;
          assert i < UpperBound(nackList, seqNum);
        }
        if pending {
          assert trace.counters[0] in trace.counters;
        }
      }
    }
  }

  /** Whether an entry is due depends on its own fields and the round-trip time only. */
  lemma DueFrame(s: State, t: State, info: Info, filter: Filter, now: int)
    requires s.rttMs == t.rttMs && s.hasRttSample == t.hasRttSample && s.newest == t.newest
    ensures Due(s, info, filter, now) == Due(t, info, filter, now)
  {
  }

  lemma UpdateMiddle(done: seq<Info>, rest: seq<Info>, x: Info)
    requires rest != []
    ensures (done + rest)[|done| := x] == (done + [x]) + rest[1..]
  {
  }

  lemma Regroup<T>(a: seq<T>, b: seq<T>, c: seq<T>)
    ensures a + (b + c) == (a + b) + c
    ensures a + [] == a
  {
  }

  lemma BatchOfNone(s: State, filter: Filter, now: int)
    ensures Marked(s, [], filter, now) == [] && Batch(s, [], filter, now) == []
  {
  }

  lemma BatchStep(s: State, list: seq<Info>, filter: Filter, now: int)
    requires list != []
    ensures Marked(s, list, filter, now) ==
            [if Due(s, list[0], filter, now) then list[0].(sendPending := true) else list[0]]
            + Marked(s, list[1..], filter, now)
    ensures Batch(s, list, filter, now) ==
            (if Due(s, list[0], filter, now) then [list[0].seqNum] else []) + Batch(s, list[1..], filter, now)
  {
  }

  function Next(seqNum: Seq16): Seq16 {
    Wrap(seqNum + 1)
  }

  lemma InsertOnce(list: seq<Info>, recovered: set<Seq16>, start: Seq16, count: nat, wait: nat, now: int)
    ensures InsertFrom(list, recovered, start, 0, wait, now) == list
    ensures count > 0 ==>
              InsertFrom(list, recovered, start, count, wait, now) ==
              InsertFrom(if start in recovered then list
                         else InsertOrAssign(list, NewInfo(start, Wrap(start + wait), now)),
                         recovered, Next(start), count - 1, wait, now)
  {
    hide InsertOrAssign;
  }

  lemma OneStepCloser(seqNum: Seq16, end: Seq16)
    requires seqNum != end
    ensures ForwardDiff(Next(seqNum), end) == ForwardDiff(seqNum, end) - 1
  {
  }
}
