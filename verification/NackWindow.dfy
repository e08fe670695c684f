/**
 The NACK list over the unbounded counters behind its 16-bit keys: it stays in a window
 in which the comparator is the order of the counters, it stays bounded, and no gap is
 forgotten without one of six named reasons.
 */
module NackWindow {
  import opened SeqNum
  import opened NackModel

  /** What a run knows beyond the 16-bit state: the counter of the first packet, that of
      the newest, and the counters of the list entries. */
  datatype Trace = Trace(first: int, newest: int, counters: seq<int>)

  predicate Increasing(counters: seq<int>) {
    forall i, j :: 0 <= i < j < |counters| ==> counters[i] < counters[j]
  }

  /** The list stands for the counters, which increase and lie in [lo, hi). */
  predicate Stands(list: seq<Info>, counters: seq<int>, lo: int, hi: int) {
    |list| == |counters| && Increasing(counters) &&
    (forall i :: 0 <= i < |list| ==> list[i].seqNum == Wrap(counters[i])) &&
    (forall i :: 0 <= i < |counters| ==> lo <= counters[i] < hi)
  }

  predicate RetriesBelowMax(list: seq<Info>) {
    forall i :: 0 <= i < |list| ==> list[i].retries < MAX_NACK_RETRIES
  }

  /** The window invariant: at most 1000 entries, in order, between 10000 behind the newest
      packet and the newest, none of them before the first packet. */
  predicate Windowed(s: State, t: Trace) {
    if !s.initialized then s.list == []
    else
      s.newest == Wrap(t.newest) && t.first <= t.newest &&
      Stands(s.list, t.counters, t.newest - MAX_PACKET_AGE, t.newest) &&
      (forall i :: 0 <= i < |t.counters| ==> t.first < t.counters[i]) &&
      |s.list| <= MAX_NACK_PACKETS && RetriesBelowMax(s.list)
  }

  // ---------------------------------------------------------------------------
  // The comparator inside the window

  /** Two entries compare as their counters: the map's order is a strict total order on the
      keys present together, also across a wrap of the 16-bit space. */
  lemma EntriesCompareAsCounters(s: State, t: Trace, i: nat, j: nat)
    requires Windowed(s, t) && s.initialized && i < |s.list| && j < |s.list|
    ensures AheadOf(s.list[j].seqNum, s.list[i].seqNum) <==> t.counters[i] < t.counters[j]
    ensures i < j <==> t.counters[i] < t.counters[j]
    ensures s.list[i].seqNum == s.list[j].seqNum <==> i == j
  {
    AheadWithinHalf(t.counters[j], t.counters[i]);
  }

  /** For a key whose counter is within half the number space of the window, the lower bound
      splits the list exactly at that counter. */
  lemma {:induction false} LowerBoundSplits(list: seq<Info>, counters: seq<int>, lo: int, hi: int, x: int)
    requires Stands(list, counters, lo, hi)
    requires hi - HALF <= x && x < lo + HALF
    ensures forall i :: 0 <= i < |list| ==> (i < LowerBound(list, Wrap(x)) <==> counters[i] < x)
    decreases |list|
  {
    if list != [] {
      AheadWithinHalf(x, counters[0]);
      assert Stands(list[1..], counters[1..], lo, hi);
      LowerBoundSplits(list[1..], counters[1..], lo, hi, x);
      forall i | 0 <= i < |list|
        ensures i < LowerBound(list, Wrap(x)) <==> counters[i] < x
      {
        if i > 0 {
          assert counters[1..][i - 1] == counters[i] && counters[0] < counters[i];
        }
      }
    }
  }

  lemma {:induction false} UpperBoundSplits(list: seq<Info>, counters: seq<int>, lo: int, hi: int, x: int)
    requires Stands(list, counters, lo, hi)
    requires hi - HALF <= x && x < lo + HALF
    ensures forall i :: 0 <= i < |list| ==> (i < UpperBound(list, Wrap(x)) <==> counters[i] <= x)
    decreases |list|
  {
    if list != [] {
      AheadWithinHalf(counters[0], x);
      assert Stands(list[1..], counters[1..], lo, hi);
      UpperBoundSplits(list[1..], counters[1..], lo, hi, x);
      forall i | 0 <= i < |list|
        ensures i < UpperBound(list, Wrap(x)) <==> counters[i] <= x
      {
        if i > 0 {
          assert counters[1..][i - 1] == counters[i] && counters[0] < counters[i];
        }
      }
    }
  }

  /** Whatever the key, the entries before its upper bound are not after it in comparator
      order. */
  lemma {:induction false} BeforeUpperBound(list: seq<Info>, x: Seq16, i: nat)
    requires i < UpperBound(list, x)
    ensures !AheadOf(list[i].seqNum, x)
    decreases i
  {
    if i > 0 {
      BeforeUpperBound(list[1..], x, i - 1);
    }
  }

  // ---------------------------------------------------------------------------
  // Operations on counters

  /** The counter a received number stands for, relative to the newest: ahead of it, or
      less than half the number space behind. */
  function CounterOf(t: Trace, seqNum: Seq16): int {
    if AheadOf(Wrap(t.newest), seqNum) then t.newest - ForwardDiff(seqNum, Wrap(t.newest))
    else t.newest + ForwardDiff(Wrap(t.newest), seqNum)
  }

  lemma CounterOfWraps(t: Trace, seqNum: Seq16)
    ensures Wrap(CounterOf(t, seqNum)) == seqNum
    ensures -HALF <= CounterOf(t, seqNum) - t.newest <= HALF
    ensures CounterOf(t, seqNum) < t.newest <==> AheadOf(Wrap(t.newest), seqNum)
    ensures CounterOf(t, seqNum) == t.newest <==> Wrap(t.newest) == seqNum
  {
    DiffsComplement(seqNum, Wrap(t.newest));
    DiffsComplement(Wrap(t.newest), seqNum);
    AheadIsTotal(Wrap(t.newest), seqNum);
    var n, q := Wrap(t.newest), t.newest / MODULUS;
    assert t.newest == q * MODULUS + n;
  }

  /** The counters from `start` on that are not recorded as recovered. */
  function Missing(recovered: set<Seq16>, start: int, count: nat): seq<int>
    decreases count
  {
    if count == 0 then []
    else (if Wrap(start) in recovered then [] else [start]) + Missing(recovered, start + 1, count - 1)
  }

  lemma {:induction false} MissingMembers(recovered: set<Seq16>, start: int, count: nat)
    ensures forall c :: c in Missing(recovered, start, count) <==>
              start <= c < start + count && Wrap(c) !in recovered
    ensures Increasing(Missing(recovered, start, count))
    ensures |Missing(recovered, start, count)| <= count
    decreases count
  {
    if count > 0 {
      var rest := Missing(recovered, start + 1, count - 1);
      MissingMembers(recovered, start + 1, count - 1);
      assert forall i :: 0 <= i < |rest| ==> rest[i] in rest;
    }
  }

  lemma {:induction false} LowerBoundAtEnd(list: seq<Info>, counters: seq<int>, lo: int, c: int)
    requires Stands(list, counters, lo, c) && c <= lo + HALF - 1
    ensures LowerBound(list, Wrap(c)) == |list|
    decreases |list|
  {
    if list != [] {
      AheadWithinHalf(c, counters[0]);
      assert Stands(list[1..], counters[1..], lo, c);
      LowerBoundAtEnd(list[1..], counters[1..], lo, c);
    }
  }

  /** Inserting the next counter appends it. */
  lemma InsertAppends(list: seq<Info>, counters: seq<int>, lo: int, info: Info, c: int)
    requires Stands(list, counters, lo, c) && info.seqNum == Wrap(c) && lo <= c <= lo + HALF - 1
    ensures InsertOrAssign(list, info) == list + [info]
    ensures Stands(list + [info], counters + [c], lo, c + 1)
  {
    LowerBoundAtEnd(list, counters, lo, c);
    assert list[..|list|] == list && list[|list|..] == [];
    assert list + [info] + [] == list + [info];
  }

  /** The insertion loop appends the missing counters. */
  lemma {:induction false} InsertFromAppends(list: seq<Info>, counters: seq<int>, lo: int, recovered: set<Seq16>,
                                             start: int, count: nat, wait: nat, now: int)
    requires Stands(list, counters, lo, start) && RetriesBelowMax(list)
    requires lo <= start && start + count <= lo + HALF - 1
    ensures var r := InsertFrom(list, recovered, Wrap(start), count, wait, now);
            Stands(r, counters + Missing(recovered, start, count), lo, start + count) && RetriesBelowMax(r)
    decreases count
  {
    hide Stands, RetriesBelowMax, InsertOrAssign, InsertFrom, Missing;
    if count == 0 {
      NothingMissing(list, recovered, start, wait, now);
      assert counters + [] == counters;
    } else {
      InsertStep(list, recovered, start, count, wait, now);
      if Wrap(start) in recovered {
        StandsWider(list, counters, lo, start);
        InsertFromAppends(list, counters, lo, recovered, start + 1, count - 1, wait, now);
      } else {
        var info := NewInfo(Wrap(start), Wrap(Wrap(start) + wait), now);
        InsertAppends(list, counters, lo, info, start);
        NewRetries(list, info);
        InsertFromAppends(list + [info], counters + [start], lo, recovered, start + 1, count - 1, wait, now);
        AppendRegroups(counters, [start], Missing(recovered, start + 1, count - 1));
      }
    }
  }

  lemma AppendRegroups(a: seq<int>, b: seq<int>, c: seq<int>)
    ensures a + b + c == a + (b + c)
  {
  }

  lemma NothingMissing(list: seq<Info>, recovered: set<Seq16>, start: int, wait: nat, now: int)
    ensures InsertFrom(list, recovered, Wrap(start), 0, wait, now) == list && Missing(recovered, start, 0) == []
  {
  }

  lemma InsertStep(list: seq<Info>, recovered: set<Seq16>, start: int, count: nat, wait: nat, now: int)
    requires count > 0
    ensures var info := NewInfo(Wrap(start), Wrap(Wrap(start) + wait), now);
            InsertFrom(list, recovered, Wrap(start), count, wait, now) ==
            InsertFrom(if Wrap(start) in recovered then list else InsertOrAssign(list, info),
                       recovered, Wrap(start + 1), count - 1, wait, now)
    ensures Missing(recovered, start, count) ==
            (if Wrap(start) in recovered then [] else [start]) + Missing(recovered, start + 1, count - 1)
    ensures [] + Missing(recovered, start + 1, count - 1) == Missing(recovered, start + 1, count - 1)
  {
    NextWrap(start);
  }

  lemma StandsWider(list: seq<Info>, counters: seq<int>, lo: int, hi: int)
    requires Stands(list, counters, lo, hi)
    ensures Stands(list, counters, lo, hi + 1)
  {
  }

  lemma NewRetries(list: seq<Info>, info: Info)
    requires RetriesBelowMax(list) && info.retries == 0
    ensures RetriesBelowMax(list + [info])
  {
  }

  lemma NextWrap(n: int)
    ensures Wrap(Wrap(n) + 1) == Wrap(n + 1)
  {
  }

  // ---------------------------------------------------------------------------
  // One step

  datatype Event =
    | Received(seqNum: Seq16, isRecovered: bool, wait: nat, now: int)
    | BatchRequested(now: int)
    | BatchSent(batch: seq<Seq16>, successful: bool, now: int)
    | Cleared(seqNum: Seq16)
    | RttMeasured(rttMs: int)
    | KeyFrameConsumed

  function Step(s: State, e: Event): State {
    match e
    case Received(seqNum, isRecovered, wait, now) => OnReceived(s, seqNum, isRecovered, wait, now).0
    case BatchRequested(now) => GetBatch(s, TimeOnly, now).0
    case BatchSent(batch, successful, now) => s.(list := OnSent(s.list, batch, successful, now))
    case Cleared(seqNum) => ClearUpTo(s, seqNum)
    case RttMeasured(rttMs) => UpdateRtt(s, rttMs)
    case KeyFrameConsumed => s.(keyframeRequestPending := false)
  }

  /** The packet moves the newest sequence number forward. */
  predicate Advances(s: State, e: Event) {
    e.Received? && s.initialized && !e.isRecovered && e.seqNum != s.newest && !AheadOf(s.newest, e.seqNum)
  }

  /** The list overflows and is given up for a key frame. */
  predicate Overflows(s: State, e: Event) {
    Advances(s, e) &&
    |s.list| - LowerBound(s.list, Wrap(e.seqNum - MAX_PACKET_AGE)) + ForwardDiff(Wrap(s.newest + 1), e.seqNum)
      > MAX_NACK_PACKETS
  }

  /** The counters after the sending of one number was reported. */
  function SentOneCounters(list: seq<Info>, counters: seq<int>, seqNum: Seq16, successful: bool): seq<int>
    requires |list| == |counters|
  {
    var i := Find(list, seqNum);
    if i < |list| && list[i].sendPending && successful && list[i].retries + 1 >= MAX_NACK_RETRIES
    then counters[..i] + counters[i + 1..] else counters
  }

  function SentCounters(list: seq<Info>, counters: seq<int>, batch: seq<Seq16>, successful: bool, now: int): seq<int>
    requires |list| == |counters|
    decreases |batch|
  {
    if batch == [] then counters
    else SentCounters(OnSentOne(list, batch[0], successful, now),
                      SentOneCounters(list, counters, batch[0], successful), batch[1..], successful, now)
  }

  function StepTrace(s: State, t: Trace, e: Event): Trace
    requires Windowed(s, t)
  {
    if !s.initialized then
      if e.Received? then Trace(e.seqNum, e.seqNum, []) else t
    else
      match e
      case Received(seqNum, isRecovered, wait, now) =>
        var c := CounterOf(t, seqNum);
        if seqNum == s.newest then t
        else if AheadOf(s.newest, seqNum) then
          var i := Find(s.list, seqNum);
          if i < |s.list| then t.(counters := t.counters[..i] + t.counters[i + 1..]) else t
        else if isRecovered then t
        else if Overflows(s, e) then Trace(t.first, c, [])
        else
          Trace(t.first, c, t.counters[LowerBound(s.list, Wrap(seqNum - MAX_PACKET_AGE))..]
                            + Missing(s.recovered, t.newest + 1, ForwardDiff(Wrap(s.newest + 1), seqNum)))
      case BatchSent(batch, successful, now) =>
        t.(counters := SentCounters(s.list, t.counters, batch, successful, now))
      case Cleared(seqNum) => t.(counters := t.counters[UpperBound(s.list, seqNum)..])
      case BatchRequested(_) => t
      case RttMeasured(_) => t
      case KeyFrameConsumed => t
  }

  lemma StandsRemove(list: seq<Info>, counters: seq<int>, lo: int, hi: int, i: nat)
    requires Stands(list, counters, lo, hi) && i < |list|
    ensures Stands(RemoveAt(list, i), counters[..i] + counters[i + 1..], lo, hi)
    ensures RetriesBelowMax(list) ==> RetriesBelowMax(RemoveAt(list, i))
    ensures forall c :: c in counters[..i] + counters[i + 1..] <==> c in counters && c != counters[i]
  {
    var rest := counters[..i] + counters[i + 1..];
    assert counters == counters[..i] + [counters[i]] + counters[i + 1..];
  }

  lemma StandsDrop(list: seq<Info>, counters: seq<int>, lo: int, hi: int, i: nat)
    requires Stands(list, counters, lo, hi) && i <= |list|
    ensures Stands(list[i..], counters[i..], lo, hi)
    ensures RetriesBelowMax(list) ==> RetriesBelowMax(list[i..])
    ensures forall c :: c in counters ==> c in counters[i..] || c in counters[..i]
    ensures forall c :: c in counters[i..] ==> c in counters
  {
    assert counters == counters[..i] + counters[i..];
  }

  lemma OnSentOneStands(list: seq<Info>, counters: seq<int>, lo: int, hi: int, seqNum: Seq16, successful: bool, now: int)
    requires Stands(list, counters, lo, hi) && RetriesBelowMax(list)
    ensures Stands(OnSentOne(list, seqNum, successful, now), SentOneCounters(list, counters, seqNum, successful), lo, hi)
    ensures RetriesBelowMax(OnSentOne(list, seqNum, successful, now))
    ensures |OnSentOne(list, seqNum, successful, now)| <= |list|
    ensures forall c :: c in SentOneCounters(list, counters, seqNum, successful) ==> c in counters
  {
    hide Increasing;
    var i := Find(list, seqNum);
    if i < |list| {
      StandsRemove(list, counters, lo, hi, i);
    }
  }

  lemma {:induction false} OnSentStands(list: seq<Info>, counters: seq<int>, lo: int, hi: int, batch: seq<Seq16>,
                                        successful: bool, now: int)
    requires Stands(list, counters, lo, hi) && RetriesBelowMax(list)
    ensures Stands(OnSent(list, batch, successful, now), SentCounters(list, counters, batch, successful, now), lo, hi)
    ensures RetriesBelowMax(OnSent(list, batch, successful, now))
    ensures |OnSent(list, batch, successful, now)| <= |list|
    ensures forall c :: c in SentCounters(list, counters, batch, successful, now) ==> c in counters
    decreases |batch|
  {
    if batch != [] {
      OnSentOneStands(list, counters, lo, hi, batch[0], successful, now);
      OnSentStands(OnSentOne(list, batch[0], successful, now),
                   SentOneCounters(list, counters, batch[0], successful), lo, hi, batch[1..], successful, now);
    }
  }

  /** A forward packet that does not overflow the list: the entries that have not become
      too old stay, and the skipped counters that are not recorded as recovered are added. */
  lemma AdvanceStands(s: State, t: Trace, e: Event)
    requires Windowed(s, t) && Advances(s, e) && !Overflows(s, e)
    ensures var c := CounterOf(t, e.seqNum);
            var r := AddPackets(s, e.seqNum, e.wait, e.now);
            var u := StepTrace(s, t, e);
            Stands(r.list, u.counters, c - MAX_PACKET_AGE, c) && RetriesBelowMax(r.list) &&
            |r.list| <= MAX_NACK_PACKETS && r == s.(list := r.list) &&
            forall x :: x in u.counters <==>
              (x in t.counters && c - MAX_PACKET_AGE <= x) ||
              (t.newest < x < c && Wrap(x) !in s.recovered)
  {
    hide Stands, LowerBound, InsertFrom, Missing;
    var c := CounterOf(t, e.seqNum);
    CounterOfWraps(t, e.seqNum);
    AheadGap(t, e.seqNum);
    var count := c - t.newest - 1;
    assert ForwardDiff(Wrap(s.newest + 1), e.seqNum) == count by {
      NextWrap(t.newest);
    }
    assert count <= MAX_NACK_PACKETS;
    var oldest := c - MAX_PACKET_AGE;
    WrapShift(c);
    var k := LowerBound(s.list, Wrap(oldest));
    NextWrap(t.newest);
    KeptStands(s.list, t.counters, t.newest, oldest);
    InsertFromAppends(s.list[k..], t.counters[k..], oldest, s.recovered, t.newest + 1, count, e.wait, e.now);
    MissingMembers(s.recovered, t.newest + 1, count);
    MissingLength(s.list[k..], t.counters[k..], oldest, s.recovered, t.newest + 1, count, e.wait, e.now);
  }

  /** Dropping the entries that are too old. */
  lemma KeptStands(list: seq<Info>, counters: seq<int>, newest: int, oldest: int)
    requires Stands(list, counters, newest - MAX_PACKET_AGE, newest)
    requires RetriesBelowMax(list)
    requires newest - MAX_PACKET_AGE <= oldest <= newest
    ensures var k := LowerBound(list, Wrap(oldest));
            |counters| == |list| &&
            Stands(list[k..], counters[k..], oldest, newest + 1) && RetriesBelowMax(list[k..]) &&
            forall x :: x in counters[k..] <==> x in counters && oldest <= x
  {
    LowerBoundSplits(list, counters, newest - MAX_PACKET_AGE, newest, oldest);
    var k := LowerBound(list, Wrap(oldest));
    StandsDrop(list, counters, newest - MAX_PACKET_AGE, newest, k);
  }

  lemma MissingLength(list: seq<Info>, counters: seq<int>, lo: int, recovered: set<Seq16>,
                      start: int, count: nat, wait: nat, now: int)
    requires Stands(list, counters, lo, start) && RetriesBelowMax(list)
    requires lo <= start && start + count <= lo + HALF - 1
    ensures |InsertFrom(list, recovered, Wrap(start), count, wait, now)| <= |list| + count
  {
    InsertFromAppends(list, counters, lo, recovered, start, count, wait, now);
    MissingMembers(recovered, start, count);
  }

  lemma AheadGap(t: Trace, seqNum: Seq16)
    requires CounterOf(t, seqNum) > t.newest
    ensures ForwardDiff(Wrap(t.newest + 1), seqNum) == CounterOf(t, seqNum) - t.newest - 1
  {
    DiffsComplement(Wrap(t.newest), seqNum);
    NextWrap(t.newest);
  }

  lemma WrapShift(c: int)
    ensures Wrap(Wrap(c) - MAX_PACKET_AGE) == Wrap(c - MAX_PACKET_AGE)
  {
  }

  lemma MarkedStands(s: State, list: seq<Info>, counters: seq<int>, lo: int, hi: int, filter: Filter, now: int)
    requires Stands(list, counters, lo, hi) && RetriesBelowMax(list)
    ensures Stands(Marked(s, list, filter, now), counters, lo, hi) && RetriesBelowMax(Marked(s, list, filter, now))
  {
  }

  lemma AdvanceWindowed(s: State, t: Trace, e: Event)
    requires Windowed(s, t) && Advances(s, e) && !Overflows(s, e)
    ensures Windowed(Step(s, e), StepTrace(s, t, e))
  {
    hide Stands, LowerBound, InsertFrom, Missing, RetriesBelowMax, Due, Increasing;
    var c := CounterOf(t, e.seqNum);
    CounterOfWraps(t, e.seqNum);
    AdvanceStands(s, t, e);
    var s1 := AddPackets(s, e.seqNum, e.wait, e.now).(newest := e.seqNum);
    var u := StepTrace(s, t, e);
    MarkedStands(s1, s1.list, u.counters, c - MAX_PACKET_AGE, c, SeqNumOnly, e.now);
    forall i | 0 <= i < |u.counters|
      ensures t.first < u.counters[i]
    {
      assert u.counters[i] in u.counters;
    }
    assert Step(s, e) == s1.(list := Marked(s1, s1.list, SeqNumOnly, e.now));
    assert u == Trace(t.first, c, u.counters);
  }

  lemma OverflowWindowed(s: State, t: Trace, e: Event)
    requires Windowed(s, t) && Overflows(s, e)
    ensures Windowed(Step(s, e), StepTrace(s, t, e))
    ensures Step(s, e).keyframeRequestPending && Step(s, e).list == []
  {
    CounterOfWraps(t, e.seqNum);
  }

  /** Fewer entries, for the same window. */
  lemma ShrunkWindowed(s: State, t: Trace, list: seq<Info>, counters: seq<int>)
    requires Windowed(s, t) && s.initialized
    requires Stands(list, counters, t.newest - MAX_PACKET_AGE, t.newest) && RetriesBelowMax(list)
    requires |list| <= |s.list| && forall c :: c in counters ==> c in t.counters
    ensures Windowed(s.(list := list), t.(counters := counters))
  {
    forall j | 0 <= j < |counters|
      ensures t.first < counters[j]
    {
      assert counters[j] in t.counters;
    }
  }

  lemma OutOfOrderWindowed(s: State, t: Trace, seqNum: Seq16, isRecovered: bool, now: int)
    requires Windowed(s, t) && s.initialized
    ensures var i := Find(s.list, seqNum);
            Windowed(OutOfOrder(s, seqNum, isRecovered, now),
                     if i < |s.list| then t.(counters := t.counters[..i] + t.counters[i + 1..]) else t)
  {
    var i := Find(s.list, seqNum);
    if i < |s.list| {
      StandsRemove(s.list, t.counters, t.newest - MAX_PACKET_AGE, t.newest, i);
      ShrunkWindowed(s, t, RemoveAt(s.list, i), t.counters[..i] + t.counters[i + 1..]);
    }
  }

  lemma ReceivedWindowed(s: State, t: Trace, e: Event)
    requires Windowed(s, t) && e.Received?
    ensures Windowed(Step(s, e), StepTrace(s, t, e))
  {
    if s.initialized {
      if Overflows(s, e) {
        OverflowWindowed(s, t, e);
      } else if Advances(s, e) {
        AdvanceWindowed(s, t, e);
      } else {
        hide Stands, RetriesBelowMax;
        OutOfOrderWindowed(s, t, e.seqNum, e.isRecovered, e.now);
      }
    }
  }

  lemma SentWindowed(s: State, t: Trace, batch: seq<Seq16>, successful: bool, now: int)
    requires Windowed(s, t) && s.initialized
    ensures |s.list| == |t.counters|
    ensures Windowed(s.(list := OnSent(s.list, batch, successful, now)),
                     t.(counters := SentCounters(s.list, t.counters, batch, successful, now)))
  {
    OnSentStands(s.list, t.counters, t.newest - MAX_PACKET_AGE, t.newest, batch, successful, now);
    ShrunkWindowed(s, t, OnSent(s.list, batch, successful, now),
                   SentCounters(s.list, t.counters, batch, successful, now));
  }

  lemma ClearedWindowed(s: State, t: Trace, seqNum: Seq16)
    requires Windowed(s, t) && s.initialized
    ensures |s.list| == |t.counters|
    ensures Windowed(ClearUpTo(s, seqNum), t.(counters := t.counters[UpperBound(s.list, seqNum)..]))
  {
    var k := UpperBound(s.list, seqNum);
    StandsDrop(s.list, t.counters, t.newest - MAX_PACKET_AGE, t.newest, k);
    ShrunkWindowed(s, t, s.list[k..], t.counters[k..]);
  }

  /** Every step keeps the window invariant. */
  lemma StepWindowed(s: State, t: Trace, e: Event)
    requires Windowed(s, t)
    ensures Windowed(Step(s, e), StepTrace(s, t, e))
  {
    if s.initialized {
      match e
      case Received(seqNum, isRecovered, wait, now) => ReceivedWindowed(s, t, e);
      case BatchSent(batch, successful, now) => SentWindowed(s, t, batch, successful, now);
      case Cleared(seqNum) => ClearedWindowed(s, t, seqNum);
      case BatchRequested(now) =>
        MarkedStands(s, s.list, t.counters, t.newest - MAX_PACKET_AGE, t.newest, TimeOnly, now);
      case RttMeasured(rttMs) =>
      case KeyFrameConsumed =>
    } else if e.BatchSent? {
      OnSentNothing(e.batch, e.successful, e.now);
    }
  }

  lemma {:induction false} OnSentNothing(batch: seq<Seq16>, successful: bool, now: int)
    ensures OnSent([], batch, successful, now) == []
    decreases |batch|
  {
    if batch != [] {
      OnSentNothing(batch[1..], successful, now);
    }
  }

  // ---------------------------------------------------------------------------
  // No gap is silently forgotten

  /** A report of success for the 100th request of a counter's entry. */
  predicate GivenUp(list: seq<Info>, counters: seq<int>, batch: seq<Seq16>, successful: bool, now: int, c: int)
    requires |list| == |counters|
    decreases |batch|
  {
    batch != [] &&
    ((var i := Find(list, batch[0]);
      i < |list| && counters[i] == c && list[i].sendPending && successful && list[i].retries + 1 >= MAX_NACK_RETRIES)
     || GivenUp(OnSentOne(list, batch[0], successful, now), SentOneCounters(list, counters, batch[0], successful),
                batch[1..], successful, now, c))
  }

  /** The six reasons for which a missing packet may not be in the list: it is received; its
      number is recorded as recovered when it is skipped; it falls more than 10000 behind
      the newest; the list overflows, which requests a key frame; it has been requested 100
      times; or it is cleared. */
  ghost predicate Excused(s: State, t: Trace, e: Event, c: int) {
    Windowed(s, t) && s.initialized &&
    match e
    case Received(seqNum, isRecovered, wait, now) =>
      CounterOf(t, seqNum) == c ||
      (Advances(s, e) &&
       ((t.newest < c && Wrap(c) in s.recovered) ||
        c < CounterOf(t, seqNum) - MAX_PACKET_AGE ||
        (Overflows(s, e) && Step(s, e).keyframeRequestPending)))
    case BatchSent(batch, successful, now) => GivenUp(s.list, t.counters, batch, successful, now, c)
    case Cleared(seqNum) => !AheadOf(Wrap(c), seqNum)
    case _ => false
  }

  /** This very step loses `c`: it was in the list or beyond the newest packet, and now it is
      neither. */
  ghost predicate LostAt(s: State, t: Trace, e: Event, c: int) {
    Windowed(s, t) && s.initialized && (c in t.counters || c > t.newest) && Gone(StepTrace(s, t, e), c)
  }

  /** Passed by the newest packet and not in the list. */
  predicate Gone(t: Trace, c: int) {
    c <= t.newest && c !in t.counters
  }

  lemma SentOneLoss(list: seq<Info>, counters: seq<int>, seqNum: Seq16, successful: bool, c: int)
    requires |list| == |counters| && c in counters && c !in SentOneCounters(list, counters, seqNum, successful)
    ensures var i := Find(list, seqNum);
            i < |list| && counters[i] == c && list[i].sendPending && successful &&
            list[i].retries + 1 >= MAX_NACK_RETRIES
  {
    hide Find;
    var i := Find(list, seqNum);
    assert i < |list| ==> counters == counters[..i] + [counters[i]] + counters[i + 1..];
  }

  lemma {:induction false} SentLoss(list: seq<Info>, counters: seq<int>, batch: seq<Seq16>, successful: bool, now: int, c: int)
    requires |list| == |counters| && c in counters && c !in SentCounters(list, counters, batch, successful, now)
    ensures GivenUp(list, counters, batch, successful, now, c)
    decreases |batch|
  {
    hide Find;
    if batch != [] {
      var next := SentOneCounters(list, counters, batch[0], successful);
      if c in next {
        SentLoss(OnSentOne(list, batch[0], successful, now), next, batch[1..], successful, now, c);
      } else {
        SentOneLoss(list, counters, batch[0], successful, c);
      }
    }
  }

  lemma AdvanceLoss(s: State, t: Trace, e: Event, c: int)
    requires Windowed(s, t) && Advances(s, e)
    requires c <= StepTrace(s, t, e).newest && c !in StepTrace(s, t, e).counters
    requires c in t.counters || c > t.newest
    ensures Excused(s, t, e, c)
  {
    hide Stands, LowerBound, InsertFrom, Missing, RetriesBelowMax;
    CounterOfWraps(t, e.seqNum);
    if !Overflows(s, e) {
      AdvanceStands(s, t, e);
    }
  }

  /** A counter that leaves the list, or is passed over and does not enter it, has an excuse
      in that very step. */
  lemma LossIsExcused(s: State, t: Trace, e: Event, c: int)
    requires LostAt(s, t, e, c)
    ensures Excused(s, t, e, c)
  {
    match e
    case Received(seqNum, isRecovered, wait, now) =>
      if Advances(s, e) {
        AdvanceLoss(s, t, e, c);
      } else {
        var i := Find(s.list, seqNum);
        StandsRemove(s.list, t.counters, t.newest - MAX_PACKET_AGE, t.newest, i);
        CounterOfWraps(t, seqNum);
        AheadWithinHalf(t.counters[i], CounterOf(t, seqNum));
      }
    case BatchSent(batch, successful, now) => SentLoss(s.list, t.counters, batch, successful, now, c);
    case Cleared(seqNum) =>
      var k := UpperBound(s.list, seqNum);
      StandsDrop(s.list, t.counters, t.newest - MAX_PACKET_AGE, t.newest, k);
      var i :| 0 <= i < k && t.counters[i] == c;
      BeforeUpperBound(s.list, seqNum, i);
    case BatchRequested(_) =>
    case RttMeasured(_) =>
    case KeyFrameConsumed =>
  }

  // ---------------------------------------------------------------------------
  // Runs

  ghost function Run(events: seq<Event>): (r: (State, Trace))
    ensures Windowed(r.0, r.1)
    decreases |events|
  {
    if events == [] then (INITIAL, Trace(0, 0, []))
    else
      var (s, t) := Run(events[..|events| - 1]);
      var e := events[|events| - 1];
      StepWindowed(s, t, e);
      (Step(s, e), StepTrace(s, t, e))
  }

  /** Over every run: a sequence number between the first packet and the newest that is not
      in the list was lost at one event of the run and is out of the list ever since; and at that
      very event it was received, recorded as recovered, too old, dropped in an overflow that
      asked for a key frame, requested 100 times, or cleared. */
  lemma {:induction false} NoGapIsForgotten(events: seq<Event>, c: int) returns (j: nat)
    requires Run(events).0.initialized
    requires Run(events).1.first < c && Gone(Run(events).1, c)
    ensures j < |events| && LostAt(Run(events[..j]).0, Run(events[..j]).1, events[j], c)
    ensures Excused(Run(events[..j]).0, Run(events[..j]).1, events[j], c)
    ensures forall k :: j < k <= |events| ==> Gone(Run(events[..k]).1, c)
    decreases |events|
  {
    hide Windowed, Step, StepTrace, Excused;
    if events == [] {
      assert false;
    } else {
      var n := |events| - 1;
      var (s, t) := Run(events[..n]);
      assert events[..|events|] == events;
      if s.initialized && (c in t.counters || c > t.newest) {
        j := n;
        LossIsExcused(s, t, events[n], c);
      } else if s.initialized {
        FirstStays(s, t, events[n]);
        j := NoGapIsForgotten(events[..n], c);
        assert forall k :: 0 <= k <= n ==> events[..n][..k] == events[..k];
      } else {
        StartHasNoGap(s, t, events[n]);
        assert false;
      }
    }
  }

  lemma FirstStays(s: State, t: Trace, e: Event)
    requires Windowed(s, t) && s.initialized
    ensures StepTrace(s, t, e).first == t.first
  {
  }

  lemma StartHasNoGap(s: State, t: Trace, e: Event)
    requires Windowed(s, t) && !s.initialized && Step(s, e).initialized
    ensures StepTrace(s, t, e).first == StepTrace(s, t, e).newest
  {
  }

  /** Over every run the list has at most 1000 entries, each between 10000 behind the newest
      packet and the newest, in strictly increasing order, and no number is in it that was
      not skipped. */
  lemma ListStaysInWindow(events: seq<Event>)
    requires Run(events).0.initialized
    ensures var (s, t) := Run(events);
            |s.list| <= MAX_NACK_PACKETS && Increasing(t.counters) &&
            forall i :: 0 <= i < |s.list| ==>
              s.list[i].seqNum == Wrap(t.counters[i]) && s.newest == Wrap(t.newest) &&
              t.newest - MAX_PACKET_AGE <= t.counters[i] < t.newest && t.first < t.counters[i]
  {
    hide Run;
  }
}
