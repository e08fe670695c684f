/**
 When a missing packet is requested: exactly how long after it was noticed, after the last
 attempt and after the last successful request, and how far the stream must have come.
 Times are microseconds.
 */
module NackTiming {
  import opened Options
  import opened SeqNum
  import opened NackModel
  import opened NackWindow

  // ---------------------------------------------------------------------------
  // Entries have keys of their own

  predicate DistinctKeys(list: seq<Info>) {
    forall i, j :: 0 <= i < j < |list| ==> list[i].seqNum != list[j].seqNum
  }

  lemma WindowedKeys(s: State, t: Trace)
    requires Windowed(s, t)
    ensures DistinctKeys(s.list)
  {
    hide Windowed;
    forall i, j | 0 <= i < j < |s.list|
      ensures s.list[i].seqNum != s.list[j].seqNum
    {
      InitializedIfListed(s, t);
      EntriesCompareAsCounters(s, t, i, j);
    }
  }

  lemma InitializedIfListed(s: State, t: Trace)
    requires Windowed(s, t) && s.list != []
    ensures s.initialized
  {
  }

  lemma {:induction false} BatchMembers(s: State, list: seq<Info>, filter: Filter, now: int, x: Seq16)
    ensures x in Batch(s, list, filter, now) <==>
            exists i :: 0 <= i < |list| && list[i].seqNum == x && Due(s, list[i], filter, now)
  {
    hide Due;
    if list != [] {
      BatchMembers(s, list[1..], filter, now, x);
      if i :| 0 <= i < |list[1..]| && list[1..][i].seqNum == x && Due(s, list[1..][i], filter, now) {
        assert list[i + 1] == list[1..][i];
      }
      if i :| 0 < i < |list| && list[i].seqNum == x && Due(s, list[i], filter, now) {
        assert list[1..][i - 1] == list[i];
      }
    }
  }

  lemma InBatchIff(s: State, list: seq<Info>, filter: Filter, now: int, i: nat)
    requires DistinctKeys(list) && i < |list|
    ensures list[i].seqNum in Batch(s, list, filter, now) <==> Due(s, list[i], filter, now)
  {
    hide Due;
    BatchMembers(s, list, filter, now, list[i].seqNum);
  }

  // ---------------------------------------------------------------------------
  // Requests by time

  /** How long to wait after the last of `sent` successful requests: one, one and then two round
      trips if the round trip has been measured; else two, four and then eight. */
  function RetryDelay(rttMs: int, measured: bool, sent: nat): int {
    if measured then if sent <= 2 then 1_000 * rttMs else 2_000 * rttMs
    else if sent == 0 then 1_000 * rttMs
    else if sent == 1 then 2_000 * rttMs
    else if sent == 2 then 4_000 * rttMs
    else 8_000 * rttMs
  }

  /** `ProcessNacks` requests a listed packet exactly if no request for it is under way, it was
      noticed 10 ms ago, the last attempt was 20 ms ago and the last success the delay ago. */
  lemma RequestedByTimeIff(s: State, t: Trace, now: int, i: nat)
    requires Windowed(s, t) && i < |s.list|
    ensures var info := s.list[i];
            info.seqNum in GetBatch(s, TimeOnly, now).1 <==>
            !info.sendPending && now >= info.createdAt + 10_000 &&
            (info.lastSendAttempt.Some? ==> now >= info.lastSendAttempt.value + 20_000) &&
            (info.sentAt.Some? ==> now >= info.sentAt.value + RetryDelay(s.rttMs, s.hasRttSample, info.retries))
  {
    hide Windowed, Batch, Marked;
    WindowedKeys(s, t);
    InBatchIff(s, s.list, TimeOnly, now, i);
  }

  /** A request is marked as under way, and nothing else changes. */
  lemma RequestedAreMarked(s: State, t: Trace, now: int)
    requires Windowed(s, t)
    ensures var (r, batch) := GetBatch(s, TimeOnly, now);
            r == s.(list := r.list) && |r.list| == |s.list| &&
            (forall i :: 0 <= i < |s.list| ==>
               r.list[i] == if s.list[i].seqNum in batch then s.list[i].(sendPending := true) else s.list[i]) &&
            forall x :: x in batch ==> exists i :: 0 <= i < |s.list| && s.list[i].seqNum == x
  {
    hide Windowed, Due;
    WindowedKeys(s, t);
    forall i | 0 <= i < |s.list|
      ensures s.list[i].seqNum in Batch(s, s.list, TimeOnly, now) <==> Due(s, s.list[i], TimeOnly, now)
    {
      InBatchIff(s, s.list, TimeOnly, now, i);
    }
    forall x | x in Batch(s, s.list, TimeOnly, now)
      ensures exists i :: 0 <= i < |s.list| && s.list[i].seqNum == x
    {
      BatchMembers(s, s.list, TimeOnly, now, x);
    }
  }

  // ---------------------------------------------------------------------------
  // Requests by arrival

  /** The entries made for skipped packets: noticed now, to be requested by arrival when the
      stream has come `wait` packets beyond them, and never tried. */
  function NewInfos(counters: seq<int>, wait: nat, now: int): (r: seq<Info>)
    ensures |r| == |counters|
    ensures forall i :: 0 <= i < |r| ==>
              r[i] == Info(Wrap(counters[i]), Wrap(counters[i] + wait), now, None, None, 0, false)
  {
    seq(|counters|, i requires 0 <= i < |counters| =>
      Info(Wrap(counters[i]), Wrap(counters[i] + wait), now, None, None, 0, false))
  }

  lemma WrapPlus(c: int, wait: nat)
    ensures Wrap(Wrap(c) + wait) == Wrap(c + wait)
  {
    assert c == c / MODULUS * MODULUS + Wrap(c);
  }

  lemma FirstInfo(c: int, rest: seq<int>, wait: nat, now: int)
    ensures NewInfos([c] + rest, wait, now) == [NewInfo(Wrap(c), Wrap(Wrap(c) + wait), now)] + NewInfos(rest, wait, now)
  {
    WrapPlus(c, wait);
    var all := [c] + rest;
    assert forall i :: 0 < i < |all| ==> all[i] == rest[i - 1];
  }

  /** The insertion loop appends them. */
  lemma {:induction false} InsertFromMakes(list: seq<Info>, counters: seq<int>, lo: int, recovered: set<Seq16>,
                                           start: int, count: nat, wait: nat, now: int)
    requires Stands(list, counters, lo, start) && RetriesBelowMax(list)
    requires lo <= start && start + count <= lo + HALF - 1
    ensures InsertFrom(list, recovered, Wrap(start), count, wait, now) ==
            list + NewInfos(Missing(recovered, start, count), wait, now)
    decreases count
  {
    hide Stands, RetriesBelowMax, InsertOrAssign, InsertFrom, Missing, NewInfo, NewInfos;
    if count == 0 {
      NothingMissing(list, recovered, start, wait, now);
      assert list + NewInfos([], wait, now) == list;
    } else {
      InsertStep(list, recovered, start, count, wait, now);
      var rest := Missing(recovered, start + 1, count - 1);
      if Wrap(start) in recovered {
        StandsWider(list, counters, lo, start);
        InsertFromMakes(list, counters, lo, recovered, start + 1, count - 1, wait, now);
      } else {
        var info := NewInfo(Wrap(start), Wrap(Wrap(start) + wait), now);
        FreshInfo(Wrap(start), Wrap(Wrap(start) + wait), now);
        InsertAppends(list, counters, lo, info, start);
        NewRetries(list, info);
        InsertFromMakes(list + [info], counters + [start], lo, recovered, start + 1, count - 1, wait, now);
        FirstInfo(start, rest, wait, now);
        InfosRegroup(list, [info], NewInfos(rest, wait, now));
      }
    }
  }

  lemma FreshInfo(seqNum: Seq16, sendAt: Seq16, now: int)
    ensures NewInfo(seqNum, sendAt, now).retries == 0 && NewInfo(seqNum, sendAt, now).seqNum == seqNum
  {
  }

  lemma InfosRegroup(a: seq<Info>, b: seq<Info>, c: seq<Info>)
    ensures a + b + c == a + (b + c)
  {
  }

  /** The list after a forward packet that does not overflow it: the entries that are not too
      old, unchanged, and a new one for each skipped packet that is not recorded as recovered. */
  lemma AdvanceMakes(s: State, t: Trace, e: Event) returns (k: nat)
    requires Windowed(s, t) && Advances(s, e) && !Overflows(s, e)
    ensures |t.counters| == |s.list| && k <= |s.list| && CounterOf(t, e.seqNum) > t.newest
    ensures forall i :: 0 <= i < |s.list| ==> (i < k <==> t.counters[i] < CounterOf(t, e.seqNum) - 10_000)
    ensures AddPackets(s, e.seqNum, e.wait, e.now).list ==
            s.list[k..] +
            NewInfos(Missing(s.recovered, t.newest + 1, CounterOf(t, e.seqNum) - t.newest - 1), e.wait, e.now)
  {
    hide LowerBound, InsertFrom, Missing, NewInfos, Stands, RetriesBelowMax;
    var c := CounterOf(t, e.seqNum);
    CounterOfWraps(t, e.seqNum);
    AheadGap(t, e.seqNum);
    NextWrap(t.newest);
    WrapShift(c);
    k := LowerBound(s.list, Wrap(c - MAX_PACKET_AGE));
    LowerBoundSplits(s.list, t.counters, t.newest - MAX_PACKET_AGE, t.newest, c - MAX_PACKET_AGE);
    KeptStands(s.list, t.counters, t.newest, c - MAX_PACKET_AGE);
    InsertFromMakes(s.list[k..], t.counters[k..], c - MAX_PACKET_AGE, s.recovered, t.newest + 1, c - t.newest - 1,
                    e.wait, e.now);
  }

  /** The packet that arrives stands for the counter `c`. An entry is still listed then if it is
      at most 10000 behind. */
  predicate StillListed(counter: int, c: int) {
    c - 10_000 <= counter
  }

  /** How many packets the entry waits for before its first request. */
  function WaitOf(info: Info): Seq16 {
    ForwardDiff(info.seqNum, info.sendAtSeqNum)
  }

  /** The stream has come as far beyond the entry as it waits for. */
  lemma ReachedMeans(counter: int, c: int, info: Info)
    requires info.seqNum == Wrap(counter) && c - 10_000 <= counter < c && WaitOf(info) <= 20_000
    ensures AheadOrAt(Wrap(c), info.sendAtSeqNum) <==> c - counter >= WaitOf(info)
  {
    var w := WaitOf(info);
    DiffsComplement(info.seqNum, info.sendAtSeqNum);
    WrapPlus(counter, w);
    AheadWithinHalf(c, counter + w);
  }

  /** An arriving packet that moves the stream forward, and does not overflow the list, requests
      a packet exactly if it is still listed, was never requested with success, has no request
      under way, was noticed 10 ms ago, last tried 20 ms ago, and the stream has come as
      far beyond it as it waits for. */
  lemma RequestedByArrivalIff(s: State, t: Trace, e: Event, i: nat)
    requires Windowed(s, t) && Advances(s, e) && !Overflows(s, e) && i < |s.list|
    requires WaitOf(s.list[i]) <= 20_000
    ensures |t.counters| == |s.list|
    ensures var info, c := s.list[i], CounterOf(t, e.seqNum);
            info.seqNum in OnReceived(s, e.seqNum, false, e.wait, e.now).1 <==>
            StillListed(t.counters[i], c) && info.sentAt.None? && !info.sendPending &&
            e.now >= info.createdAt + 10_000 &&
            (info.lastSendAttempt.Some? ==> e.now >= info.lastSendAttempt.value + 20_000) &&
            c - t.counters[i] >= WaitOf(info)
  {
    hide Stands, AddPackets, Missing, NewInfos, RetriesBelowMax, WaitOf, Batch, Marked, AheadOrAt, StepTrace;
    var info, c := s.list[i], CounterOf(t, e.seqNum);
    CounterOfWraps(t, e.seqNum);
    var k := AdvanceMakes(s, t, e);
    AdvanceStands(s, t, e);
    var s1 := AddPackets(s, e.seqNum, e.wait, e.now).(newest := e.seqNum);
    var u := StepTrace(s, t, e);
    StandingKeys(s1.list, u.counters, c - MAX_PACKET_AGE, c);
    EntryStands(s.list, t.counters, t.newest - MAX_PACKET_AGE, t.newest, i);
    if i < k {
      TooOldGone(s1.list, u.counters, c - MAX_PACKET_AGE, c, t.counters[i], info.seqNum);
      NotInBatch(s1, SeqNumOnly, e.now, info.seqNum);
    } else {
      assert s1.list[i - k] == info;
      InBatchIff(s1, s1.list, SeqNumOnly, e.now, i - k);
      ReachedMeans(t.counters[i], c, info);
    }
  }

  lemma StandingKeys(list: seq<Info>, counters: seq<int>, lo: int, hi: int)
    requires Stands(list, counters, lo, hi) && hi - lo <= HALF
    ensures DistinctKeys(list)
  {
    forall i, j | 0 <= i < j < |list|
      ensures list[i].seqNum != list[j].seqNum
    {
      AheadWithinHalf(counters[i], counters[j]);
    }
  }

  lemma EntryStands(list: seq<Info>, counters: seq<int>, lo: int, hi: int, i: nat)
    requires Stands(list, counters, lo, hi) && i < |list|
    ensures i < |counters| && list[i].seqNum == Wrap(counters[i]) && lo <= counters[i] < hi
  {
  }

  lemma TooOldGone(list: seq<Info>, counters: seq<int>, lo: int, hi: int, c: int, x: Seq16)
    requires Stands(list, counters, lo, hi) && hi - MODULUS < c < lo && x == Wrap(c)
    ensures forall j :: 0 <= j < |list| ==> list[j].seqNum != x
  {
    forall j | 0 <= j < |list|
      ensures list[j].seqNum != x
    {
      assert counters[j] == counters[j] / MODULUS * MODULUS + Wrap(counters[j]) && c == c / MODULUS * MODULUS + Wrap(c);
    }
  }

  lemma NotInBatch(s: State, filter: Filter, now: int, x: Seq16)
    requires forall j :: 0 <= j < |s.list| ==> s.list[j].seqNum != x
    ensures x !in Batch(s, s.list, filter, now)
  {
    BatchMembers(s, s.list, filter, now, x);
  }

  /** Nothing is requested for the first time less than 10 ms after it was noticed. */
  lemma NewEntriesWait(s: State, t: Trace, e: Event, x: Seq16)
    requires Windowed(s, t) && Advances(s, e) && !Overflows(s, e)
    requires x in OnReceived(s, e.seqNum, false, e.wait, e.now).1
    ensures exists i :: 0 <= i < |s.list| && s.list[i].seqNum == x && e.now >= s.list[i].createdAt + 10_000
  {
    hide Stands, AddPackets, Missing, NewInfos, RetriesBelowMax, Batch, Marked, AheadOrAt;
    var k := AdvanceMakes(s, t, e);
    var s1 := AddPackets(s, e.seqNum, e.wait, e.now).(newest := e.seqNum);
    BatchMembers(s1, s1.list, SeqNumOnly, e.now, x);
    var j :| 0 <= j < |s1.list| && s1.list[j].seqNum == x && Due(s1, s1.list[j], SeqNumOnly, e.now);
    if j < |s.list| - k {
      assert s1.list[j] == s.list[k + j];
    }
  }

  // ---------------------------------------------------------------------------
  // What the sending of a batch does to an entry

  /** An entry after the report: a request that is under way and in the batch is over. Success
      counts it and takes its time, and the hundredth removes the entry; failure takes the time
      of the attempt alone. Nothing happens to other entries. */
  function Reported(info: Info, inBatch: bool, successful: bool, now: int): Option<Info> {
    if !inBatch || !info.sendPending then Some(info)
    else if !successful then Some(info.(sendPending := false, lastSendAttempt := Some(now)))
    else if info.retries + 1 >= 100 then None
    else
      Some(info.(sendPending := false, lastSendAttempt := Some(now), sentAt := Some(now),
                 retries := info.retries + 1))
  }

  function AllReported(list: seq<Info>, batch: seq<Seq16>, successful: bool, now: int): seq<Info> {
    if list == [] then []
    else
      var info := Reported(list[0], list[0].seqNum in batch, successful, now);
      (if info.Some? then [info.value] else []) + AllReported(list[1..], batch, successful, now)
  }

  predicate HasKey(list: seq<Info>, x: Seq16) {
    exists j :: 0 <= j < |list| && list[j].seqNum == x
  }

  lemma TailDistinct(list: seq<Info>)
    requires DistinctKeys(list) && list != []
    ensures DistinctKeys(list[1..]) && forall i :: 0 <= i < |list[1..]| ==> list[1..][i].seqNum != list[0].seqNum
  {
  }

  lemma OneBehindHead(list: seq<Info>, x: Seq16, successful: bool, now: int)
    requires list != [] && list[0].seqNum != x
    ensures OnSentOne(list, x, successful, now) == [list[0]] + OnSentOne(list[1..], x, successful, now)
  {
    var i := Find(list[1..], x);
    FindBehindHead(list, x);
    hide Find;
    ShiftedBack(list);
    if i < |list[1..]| {
      ShiftedUpdate(list, i, list[i + 1].(sendPending := false, lastSendAttempt := Some(now)));
      ShiftedUpdate(list, i, list[i + 1].(sendPending := false, lastSendAttempt := Some(now), sentAt := Some(now),
                                          retries := list[i + 1].retries + 1));
    }
  }

  lemma FindBehindHead(list: seq<Info>, x: Seq16)
    requires list != [] && list[0].seqNum != x
    ensures Find(list, x) == Find(list[1..], x) + 1
  {
  }

  lemma ShiftedBack(list: seq<Info>)
    requires list != []
    ensures list == [list[0]] + list[1..]
  {
  }

  lemma ShiftedUpdate(list: seq<Info>, i: nat, info: Info)
    requires i + 1 < |list|
    ensures list[i + 1 := info] == [list[0]] + list[1..][i := info]
    ensures RemoveAt(list, i + 1) == [list[0]] + RemoveAt(list[1..], i)
  {
  }

  /** Numbers no entry has do not matter. */
  lemma {:induction false} UnlistedIgnored(list: seq<Info>, x: Seq16, batch: seq<Seq16>, successful: bool, now: int)
    requires forall i :: 0 <= i < |list| ==> list[i].seqNum != x
    ensures AllReported(list, [x] + batch, successful, now) == AllReported(list, batch, successful, now)
  {
    if list != [] {
      UnlistedIgnored(list[1..], x, batch, successful, now);
    }
  }

  lemma {:induction false} OneThenRest(list: seq<Info>, x: Seq16, batch: seq<Seq16>, successful: bool, now: int)
    requires DistinctKeys(list)
    ensures AllReported(OnSentOne(list, x, successful, now), batch, successful, now) ==
            AllReported(list, [x] + batch, successful, now)
    ensures DistinctKeys(OnSentOne(list, x, successful, now))
    ensures forall i :: 0 <= i < |OnSentOne(list, x, successful, now)| ==>
              HasKey(list, OnSentOne(list, x, successful, now)[i].seqNum)
    decreases |list|
  {
    var r := OnSentOne(list, x, successful, now);
    if list == [] {
      assert r == [];
    } else {
      hide OnSentOne, DistinctKeys, Reported;
      TailDistinct(list);
      if list[0].seqNum == x {
        UnlistedIgnored(list[1..], x, batch, successful, now);
        HeadReported(list, batch, successful, now);
        HeadAlone(list, [x] + batch, successful, now);
      } else {
        OneBehindHead(list, x, successful, now);
        OneThenRest(list[1..], x, batch, successful, now);
        var rest := OnSentOne(list[1..], x, successful, now);
        assert r[1..] == rest;
        KeysBehindHead(list, r, rest);
      }
    }
  }

  lemma HeadAlone(list: seq<Info>, batch: seq<Seq16>, successful: bool, now: int)
    requires list != []
    ensures AllReported(list, batch, successful, now) ==
            AllReported([list[0]], batch, successful, now) + AllReported(list[1..], batch, successful, now)
  {
    hide Reported;
    assert [list[0]][1..] == [];
  }

  lemma KeysBehindHead(list: seq<Info>, r: seq<Info>, rest: seq<Info>)
    requires list != [] && DistinctKeys(list) && DistinctKeys(rest) && r == [list[0]] + rest
    requires forall i :: 0 <= i < |rest| ==> HasKey(list[1..], rest[i].seqNum)
    ensures DistinctKeys(r)
    ensures forall i :: 0 <= i < |r| ==> HasKey(list, r[i].seqNum)
  {
    forall i | 0 <= i < |r|
      ensures HasKey(list, r[i].seqNum) && (i > 0 ==> r[i].seqNum != list[0].seqNum)
    {
      if i == 0 {
        assert list[0].seqNum == r[0].seqNum;
      } else {
        var info := rest[i - 1];
        var j :| 0 <= j < |list[1..]| && list[1..][j].seqNum == info.seqNum;
        assert list[j + 1] == list[1..][j];
      }
    }
    assert r[1..] == rest;
    HeadApart(r);
  }

  lemma HeadApart(r: seq<Info>)
    requires r != [] && DistinctKeys(r[1..]) && forall j :: 0 < j < |r| ==> r[0].seqNum != r[j].seqNum
    ensures DistinctKeys(r)
  {
    forall i, j | 0 <= i < j < |r|
      ensures r[i].seqNum != r[j].seqNum
    {
      assert i > 0 ==> r[1..][i - 1] == r[i] && r[1..][j - 1] == r[j];
    }
  }

  /** The report for the head of the list. */
  lemma HeadReported(list: seq<Info>, batch: seq<Seq16>, successful: bool, now: int)
    requires list != [] && DistinctKeys(list)
    ensures var x := list[0].seqNum;
            var r := OnSentOne(list, x, successful, now);
            AllReported(r, batch, successful, now) ==
              AllReported([list[0]], [x] + batch, successful, now) + AllReported(list[1..], batch, successful, now) &&
            DistinctKeys(r) &&
            forall i :: 0 <= i < |r| ==> HasKey(list, r[i].seqNum)
  {
    hide DistinctKeys, AllReported;
    HeadOnly(list, successful, now);
    HeadReportedList(list, batch, successful, now);
    KeysFromList(list, OnSentOne(list, list[0].seqNum, successful, now));
  }

  /** Reporting the head's number changes or removes the head. */
  lemma HeadOnly(list: seq<Info>, successful: bool, now: int)
    requires list != []
    ensures var r := OnSentOne(list, list[0].seqNum, successful, now);
            if list[0].sendPending && successful && list[0].retries + 1 >= 100 then r == list[1..]
            else |r| == |list| && r[1..] == list[1..] && r[0].seqNum == list[0].seqNum &&
                 Some(r[0]) == Reported(list[0], true, successful, now)
  {
    hide Find;
    FindAtHead(list);
  }

  lemma HeadReportedList(list: seq<Info>, batch: seq<Seq16>, successful: bool, now: int)
    requires list != []
    ensures AllReported(OnSentOne(list, list[0].seqNum, successful, now), batch, successful, now) ==
            AllReported([list[0]], [list[0].seqNum] + batch, successful, now) +
            AllReported(list[1..], batch, successful, now)
  {
    hide OnSentOne;
    HeadOnly(list, successful, now);
    var x := list[0].seqNum;
    var r := OnSentOne(list, x, successful, now);
    assert [list[0]][1..] == [] && AllReported([], [x] + batch, successful, now) == [];
    assert x in [x] + batch;
  }

  lemma FindAtHead(list: seq<Info>)
    requires list != []
    ensures Find(list, list[0].seqNum) == 0
  {
  }

  lemma KeysFromList(list: seq<Info>, r: seq<Info>)
    requires list != [] && DistinctKeys(list)
    requires r == list[1..] || (|r| == |list| && r[1..] == list[1..] && r[0].seqNum == list[0].seqNum)
    ensures DistinctKeys(r)
    ensures forall i :: 0 <= i < |r| ==> HasKey(list, r[i].seqNum)
  {
    TailDistinct(list);
    if |r| == |list| {
      assert forall j :: 0 < j < |r| ==> r[j] == r[1..][j - 1] && list[j] == list[1..][j - 1];
      HeadApart(r);
      forall i | 0 <= i < |r|
        ensures HasKey(list, r[i].seqNum)
      {
        assert list[i].seqNum == r[i].seqNum;
      }
    } else {
      forall i | 0 <= i < |r|
        ensures HasKey(list, r[i].seqNum)
      {
        var info := r[i];
        assert info in list;
        var j :| 0 <= j < |list| && list[j] == info;
      }
    }
  }

  /** Reporting a batch number by number, as the program does, comes to one report per entry. */
  lemma {:induction false} OnSentMeans(list: seq<Info>, batch: seq<Seq16>, successful: bool, now: int)
    requires DistinctKeys(list)
    ensures OnSent(list, batch, successful, now) == AllReported(list, batch, successful, now)
    decreases |batch|
  {
    hide OnSentOne, DistinctKeys;
    if batch == [] {
      NothingReported(list, successful, now);
    } else {
      OneThenRest(list, batch[0], batch[1..], successful, now);
      OnSentMeans(OnSentOne(list, batch[0], successful, now), batch[1..], successful, now);
      assert [batch[0]] + batch[1..] == batch;
    }
  }

  lemma {:induction false} NothingReported(list: seq<Info>, successful: bool, now: int)
    ensures AllReported(list, [], successful, now) == list
  {
    if list != [] {
      NothingReported(list[1..], successful, now);
    }
  }

  lemma SentReportMeans(s: State, t: Trace, batch: seq<Seq16>, successful: bool, now: int)
    requires Windowed(s, t)
    ensures OnSent(s.list, batch, successful, now) == AllReported(s.list, batch, successful, now)
  {
    WindowedKeys(s, t);
    OnSentMeans(s.list, batch, successful, now);
  }

  // ---------------------------------------------------------------------------
  // Over runs whose clock does not run backward

  function ClockOf(e: Event): Option<int> {
    match e
    case Received(_, _, _, now) => Some(now)
    case BatchRequested(now) => Some(now)
    case BatchSent(_, _, now) => Some(now)
    case _ => None
  }

  /** All events came by `now`. */
  predicate By(events: seq<Event>, now: int) {
    forall i :: 0 <= i < |events| && ClockOf(events[i]).Some? ==> ClockOf(events[i]).value <= now
  }

  predicate InOrder(events: seq<Event>) {
    forall i :: 0 <= i < |events| && ClockOf(events[i]).Some? ==> By(events[..i], ClockOf(events[i]).value)
  }

  /** The times of an entry follow each other: noticed, 10 ms later requested, then reported sent. */
  predicate TimesFollow(info: Info, now: int) {
    info.createdAt <= now &&
    (info.sendPending ==> info.createdAt + 10_000 <= now) &&
    (info.lastSendAttempt.Some? ==> info.createdAt + 10_000 <= info.lastSendAttempt.value <= now) &&
    (info.sentAt.Some? <==> info.retries > 0) &&
    (info.sentAt.Some? ==>
       info.lastSendAttempt.Some? && info.createdAt + 10_000 <= info.sentAt.value <= info.lastSendAttempt.value)
  }

  predicate AllFollow(list: seq<Info>, now: int) {
    forall i :: 0 <= i < |list| ==> TimesFollow(list[i], now)
  }

  lemma LaterFollow(list: seq<Info>, now: int, later: int)
    requires AllFollow(list, now) && now <= later
    ensures AllFollow(list, later)
  {
  }

  lemma MarkedFollow(s: State, list: seq<Info>, filter: Filter, now: int)
    requires AllFollow(list, now)
    ensures AllFollow(Marked(s, list, filter, now), now)
  {
  }

  lemma {:induction false} InsertFromFollow(list: seq<Info>, recovered: set<Seq16>, start: Seq16, count: nat, wait: nat,
                                            now: int)
    requires AllFollow(list, now)
    ensures AllFollow(InsertFrom(list, recovered, start, count, wait, now), now)
    decreases count
  {
    hide TimesFollow, LowerBound;
    if count > 0 {
      var info := NewInfo(start, Wrap(start + wait), now);
      NewFollows(start, Wrap(start + wait), now);
      InsertFollow(list, info, now);
      InsertFromFollow(if start in recovered then list else InsertOrAssign(list, info), recovered, Wrap(start + 1),
                       count - 1, wait, now);
    }
  }

  lemma NewFollows(seqNum: Seq16, sendAt: Seq16, now: int)
    ensures TimesFollow(NewInfo(seqNum, sendAt, now), now)
  {
  }

  lemma InsertFollow(list: seq<Info>, info: Info, now: int)
    requires AllFollow(list, now) && TimesFollow(info, now)
    ensures AllFollow(InsertOrAssign(list, info), now)
  {
    hide TimesFollow, LowerBound;
  }

  lemma {:induction false} ReportedFollow(list: seq<Info>, batch: seq<Seq16>, successful: bool, now: int)
    requires AllFollow(list, now)
    ensures AllFollow(AllReported(list, batch, successful, now), now)
  {
    if list != [] {
      ReportedFollow(list[1..], batch, successful, now);
    }
  }

  lemma ReceivedFollow(s: State, seqNum: Seq16, isRecovered: bool, wait: nat, now: int)
    requires AllFollow(s.list, now)
    ensures AllFollow(OnReceived(s, seqNum, isRecovered, wait, now).0.list, now)
  {
    hide TimesFollow, LowerBound, InsertFrom, Marked, Batch;
    if s.initialized && seqNum != s.newest && !AheadOf(s.newest, seqNum) && !isRecovered {
      var kept := s.list[LowerBound(s.list, Wrap(seqNum - MAX_PACKET_AGE))..];
      var start := Wrap(s.newest + 1);
      InsertFromFollow(kept, s.recovered, start, ForwardDiff(start, seqNum), wait, now);
      var s1 := AddPackets(s, seqNum, wait, now).(newest := seqNum);
      MarkedFollow(s1, s1.list, SeqNumOnly, now);
    }
  }

  lemma StepFollow(s: State, t: Trace, e: Event, now: int)
    requires Windowed(s, t) && AllFollow(s.list, now) && (ClockOf(e).Some? ==> ClockOf(e).value == now)
    ensures AllFollow(Step(s, e).list, now)
  {
    hide Windowed, TimesFollow, UpperBound, Marked, Batch, OnReceived, OnSent, AllReported;
    match e
    case Received(seqNum, isRecovered, wait, _) => ReceivedFollow(s, seqNum, isRecovered, wait, now);
    case BatchRequested(_) => MarkedFollow(s, s.list, TimeOnly, now);
    case BatchSent(batch, successful, _) =>
      SentReportMeans(s, t, batch, successful, now);
      ReportedFollow(s.list, batch, successful, now);
    case Cleared(seqNum) =>
    case RttMeasured(rttMs) =>
    case KeyFrameConsumed =>
  }

  lemma FrontInOrder(events: seq<Event>, now: int)
    requires events != [] && InOrder(events) && By(events, now)
    ensures var n := |events| - 1;
            InOrder(events[..n]) && By(events[..n], now) &&
            (ClockOf(events[n]).Some? ==> ClockOf(events[n]).value <= now && By(events[..n], ClockOf(events[n]).value))
  {
    hide ClockOf;
    var n := |events| - 1;
    assert forall i :: 0 <= i < n ==> events[..n][..i] == events[..i];
  }

  lemma {:induction false} RunFollows(events: seq<Event>, now: int)
    requires InOrder(events) && By(events, now)
    ensures AllFollow(Run(events).0.list, now)
    decreases |events|
  {
    hide Windowed, Step, StepTrace, TimesFollow, ClockOf;
    if events != [] {
      hide InOrder, By, AllFollow;
      var n := |events| - 1;
      FrontInOrder(events, now);
      var clock := if ClockOf(events[n]).Some? then ClockOf(events[n]).value else now;
      RunFollows(events[..n], clock);
      var (s, t) := Run(events[..n]);
      StepFollow(s, t, events[n], clock);
      LaterFollow(Run(events).0.list, clock, now);
    }
  }

  /** The round-trip time used stays between one millisecond and two seconds. */
  lemma {:induction false} RoundTripInRange(events: seq<Event>)
    ensures 1 <= Run(events).0.rttMs <= 2000
    decreases |events|
  {
    hide Windowed, StepTrace, Run;
    RunUnfolds(events);
    if events != [] {
      RoundTripInRange(events[..|events| - 1]);
      StepRoundTrip(Run(events[..|events| - 1]).0, events[|events| - 1]);
    }
  }

  lemma RunUnfolds(events: seq<Event>)
    ensures events == [] ==> Run(events).0 == INITIAL
    ensures events != [] ==> Run(events).0 == Step(Run(events[..|events| - 1]).0, events[|events| - 1])
  {
    hide Windowed, Step, StepTrace;
  }

  lemma StepRoundTrip(s: State, e: Event)
    requires 1 <= s.rttMs <= 2000
    ensures 1 <= Step(s, e).rttMs <= 2000
  {
    hide InsertFrom, LowerBound, Marked, Batch, Find, OnSent, UpperBound;
  }

  /** A measurement that counts: one handed in, or the time since the request when a retransmission
      answers a packet that was requested with success exactly once. */
  predicate Measures(s: State, e: Event, sampleMs: int) {
    1 <= sampleMs <= 2000 &&
    match e
    case RttMeasured(rttMs) => sampleMs == rttMs
    case Received(seqNum, isRecovered, wait, now) =>
      isRecovered && s.initialized && seqNum != s.newest && AheadOf(s.newest, seqNum) &&
      exists i :: 0 <= i < |s.list| && s.list[i].seqNum == seqNum && s.list[i].retries == 1 &&
                  s.list[i].sentAt.Some? && sampleMs == Millis(now - s.list[i].sentAt.value)
    case _ => false
  }

  predicate Smoothed(s: State, r: State, sampleMs: int) {
    if s.hasRttSample then 4 * (r.rttMs - s.rttMs) <= sampleMs - s.rttMs < 4 * (r.rttMs - s.rttMs) + 4
    else r.rttMs == sampleMs
  }

  /** The round-trip time moves by such measurements, and only by them: to the first, and by a quarter of the way
      to each later one, rounded down. */
  lemma RoundTripFollows(s: State, t: Trace, e: Event)
    requires Windowed(s, t)
    ensures forall m :: Measures(s, e, m) ==> Step(s, e).hasRttSample && Smoothed(s, Step(s, e), m)
    ensures var r := Step(s, e);
            (r.rttMs == s.rttMs && r.hasRttSample == s.hasRttSample) ||
            (r.hasRttSample && exists m :: Measures(s, e, m) && Smoothed(s, r, m))
  {
    hide InsertFrom, LowerBound, Marked, Batch, OnSent, UpperBound, Millis, Windowed;
    WindowedKeys(s, t);
    match e
    case Received(seqNum, isRecovered, wait, now) =>
      if s.initialized && seqNum != s.newest && AheadOf(s.newest, seqNum) {
        var i := Find(s.list, seqNum);
        if isRecovered && i < |s.list| && s.list[i].retries == 1 && s.list[i].sentAt.Some? {
          var m := Millis(now - s.list[i].sentAt.value);
          assert 1 <= m <= 2000 ==> Measures(s, e, m);
        }
      }
    case RttMeasured(rttMs) => assert 1 <= rttMs <= 2000 ==> Measures(s, e, rttMs);
    case _ =>
  }

  /** A packet recovered ahead of the newest is remembered; of the others exactly those stay that are
      at most 10000 behind it, up to where the comparator turns around. */
  lemma RecoveredAreRemembered(s: State, seqNum: Seq16, wait: nat, now: int)
    requires s.initialized && seqNum != s.newest && !AheadOf(s.newest, seqNum)
    ensures var r := OnReceived(s, seqNum, true, wait, now).0;
            r == s.(recovered := r.recovered) && seqNum in r.recovered &&
            (forall x :: x in r.recovered ==> x in s.recovered || x == seqNum) &&
            (forall x :: x in s.recovered && ForwardDiff(x, seqNum) <= 10_000 ==> x in r.recovered) &&
            forall x :: x in s.recovered && 10_000 < ForwardDiff(x, seqNum) < HALF ==> x !in r.recovered
  {
    forall x: Seq16
      ensures ForwardDiff(x, seqNum) <= 10_000 ==> !AheadOf(Wrap(seqNum - MAX_PACKET_AGE), x)
      ensures 10_000 < ForwardDiff(x, seqNum) < HALF ==> AheadOf(Wrap(seqNum - MAX_PACKET_AGE), x)
    {
      BehindBy(x, seqNum);
    }
  }

  lemma BehindBy(x: Seq16, seqNum: Seq16)
    ensures ForwardDiff(x, seqNum) <= 10_000 ==> !AheadOf(Wrap(seqNum - MAX_PACKET_AGE), x)
    ensures 10_000 < ForwardDiff(x, seqNum) < HALF ==> AheadOf(Wrap(seqNum - MAX_PACKET_AGE), x)
  {
    var d := ForwardDiff(x, seqNum);
    DiffsComplement(x, seqNum);
    WrapPlus(x, d);
    if d < HALF {
      assert Wrap(x + d) == seqNum;
      assert Wrap(seqNum - MAX_PACKET_AGE) == Wrap(x + d - MAX_PACKET_AGE);
      AheadWithinHalf(x + d - MAX_PACKET_AGE, x);
      assert Wrap(x) == x;
    }
  }

  /** On every run whose clock does not run backward, `ProcessNacks` at `now` requests a listed
      packet for which no request is under way
      - if it was never sent with success: exactly from 10 ms after it was noticed on, and 20 ms
        after the last attempt;
      - if it was last sent at `t`: exactly from the retry delay after `t` on, and 20 ms after the
        last attempt; so never within one round trip, and at the latest after eight. */
  lemma RequestSchedule(events: seq<Event>, now: int, i: nat)
    requires InOrder(events) && By(events, now) && i < |Run(events).0.list|
    ensures var s := Run(events).0;
            var info := s.list[i];
            var requested := info.seqNum in GetBatch(s, TimeOnly, now).1;
            var rested := info.lastSendAttempt.Some? ==> now >= info.lastSendAttempt.value + 20_000;
            (info.sendPending ==> !requested) &&
            (!info.sendPending && info.sentAt.None? ==>
               (requested <==> rested && now >= info.createdAt + 10_000)) &&
            (!info.sendPending && info.sentAt.Some? ==>
               var t, delay := info.sentAt.value, RetryDelay(s.rttMs, s.hasRttSample, info.retries);
               (requested <==> rested && now >= t + delay) &&
               1_000 * s.rttMs <= delay <= 8_000 * s.rttMs)
  {
    hide Windowed, Run, Batch, Marked;
    var (s, t) := Run(events);
    RequestedByTimeIff(s, t, now, i);
    RunFollows(events, now);
    RoundTripInRange(events);
    assert TimesFollow(s.list[i], now);
  }
}
