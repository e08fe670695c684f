/**
 RobustThroughputEstimator: what its window holds after each feedback vector, and the rate
 it reads off it.
 */
module ThroughputEstimator {
  import opened Options
  import opened ThroughputWindow
  import opened Units

  const REQUIRED_PACKETS := 10
  const MIN_DURATION := 1_000

  // ---------------------------------------------------------------------------
  // Receive gaps

  function Gap(w: seq<Packet>, i: nat): int
    requires 1 <= i < |w|
  {
    w[i].receiveTime - w[i - 1].receiveTime
  }

  /** Among the gaps before position `n`, the one at `top` is a largest one, and `second` is the
      largest of the others, or 0. */
  ghost predicate IsTop(w: seq<Packet>, n: nat, top: nat, second: int)
    requires n <= |w|
  {
    1 <= top < n && 0 <= second <= Gap(w, top) &&
    (forall i :: 1 <= i < n && i != top ==> Gap(w, i) <= second) &&
    (second == 0 || exists i :: 1 <= i < n && i != top && Gap(w, i) == second)
  }

  /** The sum of the gaps before position `n` with the one at `top` replaced. */
  function GapSum(w: seq<Packet>, n: nat, top: nat, other: int): int
    requires n <= |w|
  {
    if n <= 1 then 0 else GapSum(w, n - 1, top, other) + if n - 1 == top then other else Gap(w, n - 1)
  }

  /** With the largest gap replaced by the second largest the duration is that between first
      and last packet less their difference, and never negative. */
  lemma {:induction false} GapSumIs(w: seq<Packet>, n: nat, top: nat, other: int)
    requires Sorted(w) && 1 <= n <= |w| && 1 <= top && other >= 0
    ensures GapSum(w, n, top, other) ==
            w[n - 1].receiveTime - w[0].receiveTime - (if top < n then Gap(w, top) - other else 0)
    ensures GapSum(w, n, top, other) >= 0
    decreases n
  {
    if n > 1 {
      GapSumIs(w, n - 1, top, other);
    }
  }

  // ---------------------------------------------------------------------------
  // Send times

  function Bytes(w: seq<Packet>): nat {
    if w == [] then 0 else Bytes(w[..|w| - 1]) + Last(w).size
  }

  /** The packets not sent before a packet that has left the window. */
  function Timely(w: seq<Packet>, discarded: Option<int>): (r: seq<Packet>)
    ensures |r| <= |w|
  {
    if w == [] then []
    else
      var rest := Timely(w[..|w| - 1], discarded);
      if discarded.Some? && Last(w).sendTime < discarded.value then rest else rest + [Last(w)]
  }

  /** A packet counts toward the send rate, as often as it is in the window, exactly if nothing
      that left the window was sent after it. */
  lemma {:induction false} TimelyMeans(w: seq<Packet>, discarded: Option<int>, x: Packet)
    ensures multiset(Timely(w, discarded))[x] ==
            if discarded.None? || x.sendTime >= discarded.value then multiset(w)[x] else 0
  {
    if w != [] {
      TimelyMeans(w[..|w| - 1], discarded, x);
      assert w == w[..|w| - 1] + [Last(w)];
    }
  }

  lemma {:induction false} BytesSplit(w: seq<Packet>)
    requires w != []
    ensures Bytes(w) == w[0].size + Bytes(w[1..])
  {
    if |w| == 1 {
      assert w[..0] == [] && w[1..] == [];
    } else {
      BytesSplit(w[..|w| - 1]);
      assert w[..|w| - 1][1..] == w[1..][..|w[1..]| - 1];
    }
  }

  /** Of the packets sent last, the one received first. */
  function LastSent(w: seq<Packet>): Packet
    requires w != []
  {
    if |w| == 1 then w[0]
    else
      var l := LastSent(w[..|w| - 1]);
      if Last(w).sendTime > l.sendTime then Last(w) else l
  }

  function FirstSendTime(w: seq<Packet>): int
    requires w != []
  {
    if |w| == 1 then w[0].sendTime else Min(FirstSendTime(w[..|w| - 1]), Last(w).sendTime)
  }

  lemma {:induction false} SendTimesMean(w: seq<Packet>)
    requires w != []
    ensures LastSent(w) in w && (exists x :: x in w && x.sendTime == FirstSendTime(w))
    ensures forall x :: x in w ==> FirstSendTime(w) <= x.sendTime <= LastSent(w).sendTime
    ensures LastSent(w).size <= Bytes(w)
  {
    if |w| == 1 {
      assert w[0] in w && w[..0] == [];
      assert Bytes(w[..0]) == 0;
    } else {
      SendTimesMean(w[..|w| - 1]);
      assert w == w[..|w| - 1] + [Last(w)];
      assert forall x :: x in w <==> x in w[..|w| - 1] || x == Last(w);
    }
  }

  /** Bytes over time in bits per second. */
  function RateOf(bytes: int, duration: int): int
    requires duration > 0
  {
    bytes * MICROBITS_PER_BYTE / duration
  }

  /** All timely packets but the last one sent, over the time from first to last. */
  function SendRate(timely: seq<Packet>): int
    requires timely != []
  {
    RateOf(Bytes(timely) - LastSent(timely).size,
           Max(LastSent(timely).sendTime - FirstSendTime(timely), MIN_DURATION))
  }

  /** All packets but the first, over the gaps with the largest one replaced. */
  function ReceiveRate(w: seq<Packet>, top: nat, second: int): int
    requires w != []
  {
    RateOf(Bytes(w) - w[0].size, Max(GapSum(w, |w|, top, second), MIN_DURATION))
  }

  function Estimate(w: seq<Packet>, top: nat, second: int, discarded: Option<int>): (r: int)
    requires |w| >= REQUIRED_PACKETS
    ensures |Timely(w, discarded)| >= REQUIRED_PACKETS ==> r <= SendRate(Timely(w, discarded))
  {
    var timely := Timely(w, discarded);
    if |timely| < REQUIRED_PACKETS then ReceiveRate(w, top, second)
    else Min(SendRate(timely), ReceiveRate(w, top, second))
  }

  // ---------------------------------------------------------------------------
  // The estimator

  class RobustThroughputEstimator {
    var window: seq<Packet>
    var latestDiscardedSendTime: Option<int>
    /** Everything received since the last reset, sorted. */
    ghost var all: seq<Packet>

    /** The window is the longest allowed suffix, and the send time remembered the latest of
        the rest. */
    ghost predicate Valid()
      reads this
    {
      Sorted(all) && window == Prune(all) && |window| <= |all| &&
      IsLatestSend(latestDiscardedSendTime, all[..|all| - |window|])
    }

    constructor ()
      ensures Valid() && all == []
    {
      window, latestDiscardedSendTime, all := [], None, [];
    }

    /** Every usable report is inserted, then the window is cut to what is allowed. */
    method IncomingPacketFeedbackVector(reports: seq<Report>)
      requires Valid()
      modifies this
      ensures Valid() && all == FeedAll(old(all), reports)
    {
      hide Prune, Amid, IsLatestSend, Feed;
      ghost var k: nat, late: seq<Packet>, gone := |all| - |window|, [], all[..|all| - |window|];
      StartAmid(all);
      var i := 0;
      assert reports[0..] == reports;
      while i < |reports|
        invariant 0 <= i <= |reports|
        invariant Amid(window, all, k, late) && Accounted(all, k, late, gone)
        invariant IsLatestSend(latestDiscardedSendTime, gone)
        invariant FeedAll(all, reports[i..]) == FeedAll(old(all), reports)
      {
        assert reports[i..][1..] == reports[i + 1..];
        if Usable(reports[i]) {
          k, late, gone := Take(reports[i], k, late, gone);
        } else {
          UnusableIgnored(all, reports[i]);
        }
        i := i + 1;
      }
      RemoveOld(k, late, gone);
    }

    /** Insert one packet; or start anew if it is too old. */
    method Take(r: Report, ghost k: nat, ghost late: seq<Packet>, ghost gone: seq<Packet>)
      returns (ghost k': nat, ghost late': seq<Packet>, ghost gone': seq<Packet>)
      requires Usable(r) && Amid(window, all, k, late) && Accounted(all, k, late, gone)
      requires IsLatestSend(latestDiscardedSendTime, gone)
      modifies this
      ensures Amid(window, all, k', late') && Accounted(all, k', late', gone')
      ensures IsLatestSend(latestDiscardedSendTime, gone')
      ensures all == Feed(old(all), r)
    {
      hide Prune, Amid, IsLatestSend, Accounted;
      var p := PacketOf(r);
      k', late' := InsertAmid(window, all, k, late, gone, p);
      gone' := gone;
      window := SwapIn(window, p);
      all := Insert(all, p);
      SameLast(window, all, k', late');
      if window[|window| - 1].receiveTime - p.receiveTime > MAX_REORDERING_TIME {
        window, latestDiscardedSendTime, all := [], None, [];
        k', late', gone' := 0, [], [];
        EmptyAmid();
      }
    }

    static method SwapIn(w: seq<Packet>, p: Packet) returns (r: seq<Packet>)
      ensures r == Insert(w, p)
    {
      r := w + [p];
      var i := |w|;
      assert w[..i] == w && w[i..] == [];
      hide Sorted, Insert;
      while i > 0 && r[i].receiveTime < r[i - 1].receiveTime
        invariant 0 <= i <= |w| && r == w[..i] + [p] + w[i..]
        invariant Insert(w, p) == Insert(w[..i], p) + w[i..]
      {
        SwapStep(w, i, p);
        r := r[i := r[i - 1]][i - 1 := r[i]];
        i := i - 1;
      }
      InsertHere(w[..i], p);
    }

    method RemoveOld(ghost k: nat, ghost late: seq<Packet>, ghost gone: seq<Packet>)
      requires Amid(window, all, k, late) && Accounted(all, k, late, gone)
      requires IsLatestSend(latestDiscardedSendTime, gone)
      modifies this`window, this`latestDiscardedSendTime
      ensures Valid()
    {
      hide Amid, IsLatestSend, Accounted, Allowed;
      ghost var whole, out := window, gone;
      while !Allowed(window)
        invariant |window| <= |whole| && window == whole[|whole| - |window|..]
        invariant Prune(window) == Prune(whole)
        invariant out == gone + whole[..|whole| - |window|] && IsLatestSend(latestDiscardedSendTime, out)
        decreases |window|
      {
        NotAllowedIsNotEmpty(window);
        LatestSendGrows(latestDiscardedSendTime, out, window[0]);
        out := out + [window[0]];
        latestDiscardedSendTime := Later(latestDiscardedSendTime, window[0].sendTime);
        window := window[1..];
      }
      AllAccounted(window, whole, all, k, late, gone, out);
      SameLatestSend(latestDiscardedSendTime, out, all[..|all| - |window|]);
    }

    /** No estimate from fewer than ten packets; otherwise the receive rate of the window with its
        largest gap replaced, and never more than the send rate, if ten packets tell it. */
    method Bitrate() returns (rate: Option<int>)
      requires Valid()
      ensures rate.None? <==> |window| < REQUIRED_PACKETS
      ensures rate.Some? ==> exists top: nat, second ::
                IsTop(window, |window|, top, second) &&
                rate.value == Estimate(window, top, second, latestDiscardedSendTime)
    {
      if window == [] || |window| < REQUIRED_PACKETS {
        return None;
      }
      hide Prune, IsLatestSend, Allowed, Timely, Bytes, IsTop, GapSum, LastSent, FirstSendTime;
      PruneIsLongest(all);
      SuffixSorted(all, |all| - |window|);
      rate := RateOfWindow(window, latestDiscardedSendTime);
    }

    static method RateOfWindow(w: seq<Packet>, discarded: Option<int>) returns (rate: Option<int>)
      requires Sorted(w) && |w| >= REQUIRED_PACKETS
      ensures rate.Some? && exists top: nat, second ::
                IsTop(w, |w|, top, second) && rate.value == Estimate(w, top, second, discarded)
    {
      hide Timely, Bytes, GapSum, LastSent, FirstSendTime, RateOf;
      var largest, second, top := LargestGaps(w);
      GapSumIs(w, |w|, top, second);
      var recvDuration := Max(Span(w) - largest + second, MIN_DURATION);
      assert recvDuration == Max(GapSum(w, |w|, top, second), MIN_DURATION);
      hide IsTop;
      var recvSize, timely := Received(w, discarded);
      var recvRate := RateOf(recvSize, recvDuration);
      if timely.count < REQUIRED_PACKETS {
        rate := Some(recvRate);
      } else {
        var sendDuration := Max(timely.last - timely.first, MIN_DURATION);
        rate := Some(Min(RateOf(timely.size - timely.lastSize, sendDuration), recvRate));
      }
      assert rate.value == Estimate(w, top, second, discarded);
    }

    static method LargestGaps(w: seq<Packet>) returns (largest: int, second: int, ghost top: nat)
      requires Sorted(w) && |w| >= 2
      ensures IsTop(w, |w|, top, second) && largest == Gap(w, top)
    {
      largest, second := 0, 0;
      top := 1;
      var i := 1;
      while i < |w|
        invariant 1 <= i <= |w|
        invariant i == 1 ==> largest == second == 0 && top == 1
        invariant i > 1 ==> IsTop(w, i, top, second) && largest == Gap(w, top)
      {
        var gap := w[i].receiveTime - w[i - 1].receiveTime;
        NextGap(w, i, top, second);
        if gap > largest {
          second := largest;
          largest := gap;
          top := i;
        } else if gap > second {
          second := gap;
        }
        i := i + 1;
      }
    }

    /** The two sizes and the times of sending. */
    static method Received(w: seq<Packet>, discarded: Option<int>) returns (recvSize: int, timely: Tally)
      requires Sorted(w) && w != []
      ensures recvSize == Bytes(w) - w[0].size
      ensures Tallies(timely, Timely(w, discarded))
    {
      var all, first := 0, Option.None;
      timely := Tally(0, 0, 0, 0, 0);
      var firstSize, i := 0, 0;
      while i < |w|
        invariant 0 <= i <= |w| && all == Bytes(w[..i])
        invariant i == 0 ==> first == None
        invariant i > 0 ==> first == Some(w[0].receiveTime) && firstSize == w[0].size
        invariant Tallies(timely, Timely(w[..i], discarded))
      {
        assert w[..i + 1][..i] == w[..i];
        if first.None? || w[i].receiveTime < first.value {
          first, firstSize := Some(w[i].receiveTime), w[i].size;
        }
        all := all + w[i].size;
        if !(discarded.Some? && w[i].sendTime < discarded.value) {
          TallyNext(timely, Timely(w[..i], discarded), w[i]);
          timely := timely.Add(w[i]);
        }
        i := i + 1;
      }
      assert w[..i] == w;
      recvSize := all - firstSize;
    }
  }

  /** The accumulators of the send rate. */
  datatype Tally = Tally(count: nat, size: int, first: int, last: int, lastSize: int) {
    function Add(p: Packet): Tally {
      Tally(count + 1, size + p.size,
            if count == 0 then p.sendTime else Min(first, p.sendTime),
            if count == 0 || p.sendTime > last then p.sendTime else last,
            if count == 0 || p.sendTime > last then p.size else lastSize)
    }
  }

  predicate Tallies(t: Tally, w: seq<Packet>) {
    t.count == |w| && t.size == Bytes(w) &&
    (w != [] ==> t.first == FirstSendTime(w) && t.last == LastSent(w).sendTime && t.lastSize == LastSent(w).size)
  }

  lemma TallyNext(t: Tally, w: seq<Packet>, p: Packet)
    requires Tallies(t, w)
    ensures Tallies(t.Add(p), w + [p])
  {
    assert (w + [p])[..|w|] == w;
  }

  lemma NextGap(w: seq<Packet>, i: nat, top: nat, second: int)
    requires Sorted(w) && 1 <= i < |w|
    requires i > 1 ==> IsTop(w, i, top, second)
    ensures i == 1 ==> IsTop(w, 2, 1, 0)
    ensures i > 1 && Gap(w, i) > Gap(w, top) ==> IsTop(w, i + 1, i, Gap(w, top))
    ensures i > 1 && second < Gap(w, i) <= Gap(w, top) ==> IsTop(w, i + 1, top, Gap(w, i))
    ensures i > 1 && Gap(w, i) <= second ==> IsTop(w, i + 1, top, second)
  {
    if i > 1 && Gap(w, i) <= second && second != 0 {
      var k :| 1 <= k < i && k != top && Gap(w, k) == second;
      assert 1 <= k < i + 1;
    }
  }

  // ---------------------------------------------------------------------------
  // Accounting for what has left the window

  /** What precedes the window in everything received is discarded already or about to be. */
  ghost predicate Accounted(all: seq<Packet>, k: nat, late: seq<Packet>, gone: seq<Packet>) {
    k <= |all| && forall x :: x in all[..k] <==> x in gone || x in late
  }

  lemma StartAmid(all: seq<Packet>)
    requires Sorted(all)
    ensures var k := |all| - |Prune(all)|;
            k >= 0 && Amid(Prune(all), all, k, []) && Accounted(all, k, [], all[..k])
  {
    PruneIsLongest(all);
  }

  lemma EmptyAmid()
    ensures Amid([], [], 0, []) && Accounted([], 0, [], []) && IsLatestSend(None, [])
  {
  }

  lemma UnusableIgnored(all: seq<Packet>, r: Report)
    requires !Usable(r)
    ensures Feed(all, r) == all
  {
  }

  lemma InsertAmid(window: seq<Packet>, all: seq<Packet>, k: nat, late: seq<Packet>, gone: seq<Packet>, p: Packet)
    returns (k': nat, late': seq<Packet>)
    requires Amid(window, all, k, late) && Accounted(all, k, late, gone)
    ensures Amid(Insert(window, p), Insert(all, p), k', late') && Accounted(Insert(all, p), k', late', gone)
  {
    AmidBounds(window, all, k, late);
    if k > 0 && p.receiveTime < all[k - 1].receiveTime {
      k', late' := k + 1, Insert(late, p);
      InsertBelow(window, all, k, late, p);
      InsertSorts(late, p);
      InsertSorts(all, p);
    } else {
      k', late' := k, late;
      InsertAbove(window, all, k, late, p);
      InsertSorts(all, p);
    }
  }

  lemma AmidBounds(window: seq<Packet>, all: seq<Packet>, k: nat, late: seq<Packet>)
    requires Amid(window, all, k, late)
    ensures k <= |all| && Sorted(all) && Sorted(late)
  {
  }

  lemma SameLast(window: seq<Packet>, all: seq<Packet>, k: nat, late: seq<Packet>)
    requires Amid(window, all, k, late) && all != []
    ensures window != [] && Last(window) == Last(all)
  {
  }

  lemma SwapStep(w: seq<Packet>, i: nat, p: Packet)
    requires 1 <= i <= |w| && p.receiveTime < w[i - 1].receiveTime
    ensures Insert(w[..i], p) + w[i..] == Insert(w[..i - 1], p) + w[i - 1..]
    ensures var r := w[..i] + [p] + w[i..];
            r[i] == p && r[i - 1] == w[i - 1] && r[i := r[i - 1]][i - 1 := r[i]] == w[..i - 1] + [p] + w[i - 1..]
  {
    assert w[..i][..i - 1] == w[..i - 1] && w[i - 1..] == [w[i - 1]] + w[i..];
    assert Insert(w[..i], p) == Insert(w[..i - 1], p) + [w[i - 1]];
  }

  lemma InsertHere(w: seq<Packet>, p: Packet)
    ensures w == [] || Last(w).receiveTime <= p.receiveTime ==> Insert(w, p) == w + [p]
  {
  }

  lemma NotAllowedIsNotEmpty(w: seq<Packet>)
    requires !Allowed(w)
    ensures w != []
  {
  }

  lemma SuffixSorted(all: seq<Packet>, k: nat)
    requires Sorted(all) && k <= |all|
    ensures Sorted(all[k..])
  {
  }

  /** After pruning, everything in front of the window is what has been discarded. */
  lemma AllAccounted(window: seq<Packet>, whole: seq<Packet>, all: seq<Packet>, k: nat, late: seq<Packet>,
                     gone: seq<Packet>, out: seq<Packet>)
    requires Amid(whole, all, k, late) && Accounted(all, k, late, gone)
    requires |window| <= |whole| && window == whole[|whole| - |window|..]
    requires out == gone + whole[..|whole| - |window|]
    requires Allowed(window) && Prune(window) == Prune(whole)
    ensures Sorted(all) && window == Prune(all) && |window| <= |all|
    ensures var front := all[..|all| - |window|]; forall x :: x in out <==> x in front
  {
    hide Allowed, Prune, Amid, Sorted;
    KeptIsPruned(window, whole, all, k, late);
    var m := |all| - |window|;
    AmidSplits(whole, all, k, late, m);
    assert all[..m] == all[..k] + all[k..m];
    SameElements(out, gone, late, all[k..m], all[..k], all[..m]);
  }

  lemma KeptIsPruned(window: seq<Packet>, whole: seq<Packet>, all: seq<Packet>, k: nat, late: seq<Packet>)
    requires Amid(whole, all, k, late) && Allowed(window) && Prune(window) == Prune(whole)
    ensures Sorted(all) && k <= |all| && window == Prune(all) && |window| <= |all| - k
  {
    hide Allowed;
    assert Prune(window) == window;
    hide Prune;
    AmidPrunes(whole, all, k, late);
    AmidBounds(whole, all, k, late);
    SuffixSorted(all, k);
    PruneIsLongest(all[k..]);
  }

  lemma SameElements(out: seq<Packet>, gone: seq<Packet>, late: seq<Packet>, middle: seq<Packet>,
                     front: seq<Packet>, whole: seq<Packet>)
    requires out == gone + (late + middle) && whole == front + middle
    requires forall x :: x in front <==> x in gone || x in late
    ensures forall x :: x in out <==> x in whole
  {
  }

  lemma AmidSplits(whole: seq<Packet>, all: seq<Packet>, k: nat, late: seq<Packet>, m: nat)
    requires Amid(whole, all, k, late) && k <= m <= |all|
    ensures |whole| == |late| + |all| - k && whole[..|whole| - (|all| - m)] == late + all[k..m]
  {
    assert whole == late + all[k..];
  }

  // ---------------------------------------------------------------------------
  // Even traffic

  /** Packet i of even traffic. */
  predicate Even(w: seq<Packet>, received: int, sent: int, interval: int, size: nat) {
    forall i :: 0 <= i < |w| ==> w[i] == Packet(received + i * interval, sent + i * interval, size)
  }

  lemma {:induction false} EvenBytes(w: seq<Packet>, received: int, sent: int, interval: int, size: nat)
    requires Even(w, received, sent, interval, size)
    ensures Bytes(w) == |w| * size
  {
    if w != [] {
      EvenBytes(w[..|w| - 1], received, sent, interval, size);
      assert |w| * size == (|w| - 1) * size + size;
    }
  }

  lemma FrontInOrder(w: seq<Packet>)
    requires w != [] && forall i, j :: 0 <= i < j < |w| ==> w[i].sendTime < w[j].sendTime
    ensures var f := w[..|w| - 1]; forall i, j :: 0 <= i < j < |f| ==> f[i].sendTime < f[j].sendTime
  {
  }

  lemma {:induction false} InOrderSends(w: seq<Packet>)
    requires w != [] && forall i, j :: 0 <= i < j < |w| ==> w[i].sendTime < w[j].sendTime
    ensures FirstSendTime(w) == w[0].sendTime && LastSent(w) == Last(w) && Timely(w, None) == w
  {
    if |w| == 1 {
      assert w[..0] == [] && Timely([], None) == [] && [] + [Last(w)] == w;
    } else {
      FrontInOrder(w);
      InOrderSends(w[..|w| - 1]);
      assert w == w[..|w| - 1] + [Last(w)];
    }
  }

  lemma EvenSends(w: seq<Packet>, received: int, sent: int, interval: int, size: nat)
    requires w != [] && interval > 0 && Even(w, received, sent, interval, size)
    ensures FirstSendTime(w) == sent && LastSent(w) == Last(w) && Timely(w, None) == w
  {
    forall i, j | 0 <= i < j < |w|
      ensures w[i].sendTime < w[j].sendTime
    {
      ScaleKeepsOrder(i + 1, j, interval);
      StepUp(i, interval);
    }
    InOrderSends(w);
    StepUp(-1, interval);
  }

  lemma StepUp(i: int, interval: int)
    ensures (i + 1) * interval == i * interval + interval
  {
  }

  lemma EvenGaps(w: seq<Packet>, received: int, sent: int, interval: int, size: nat, top: nat, second: int)
    requires |w| >= 3 && interval > 0 && Even(w, received, sent, interval, size) && IsTop(w, |w|, top, second)
    ensures Sorted(w) && GapSum(w, |w|, top, second) == (|w| - 1) * interval
  {
    forall i, j | 0 <= i < j < |w|
      ensures w[i].receiveTime <= w[j].receiveTime
    {
      ScaleKeepsOrder(i, j, interval);
    }
    forall i | 1 <= i < |w|
      ensures Gap(w, i) == interval
    {
      StepUp(i - 1, interval);
    }
    var other := if top == 1 then 2 else 1;
    assert Gap(w, other) <= second;
    GapSumIs(w, |w|, top, second);
  }

  /** Packets of one size, sent and received at even intervals, give exactly size over
      interval: one packet and one gap are rightly left out. */
  lemma EvenTrafficRate(w: seq<Packet>, received: int, sent: int, interval: int, size: nat, top: nat, second: int)
    requires |w| >= REQUIRED_PACKETS && interval > 0 && (|w| - 1) * interval >= MIN_DURATION
    requires Even(w, received, sent, interval, size) && IsTop(w, |w|, top, second)
    ensures Estimate(w, top, second, None) == RateOf(size, interval)
  {
    hide RateOf, IsTop, GapSum, Bytes, FirstSendTime, LastSent, Timely;
    var n := |w| - 1;
    EvenBytes(w, received, sent, interval, size);
    EvenSends(w, received, sent, interval, size);
    EvenGaps(w, received, sent, interval, size, top, second);
    assert Bytes(w) - size == n * size;
    ScaledRate(size, interval, n);
  }

  /** Packets of any sizes whose arrivals a bottleneck of this rate spaces: each takes the time of
      its own size after the one before. */
  predicate SpacedByReceipt(w: seq<Packet>, rate: nat) {
    forall i :: 1 <= i < |w| ==> rate * (w[i].receiveTime - w[i - 1].receiveTime) == MICROBITS_PER_BYTE * w[i].size
  }

  /** Packets of any sizes paced at this rate: each is followed by the next after the time of its
      own size. */
  predicate PacedAt(w: seq<Packet>, rate: nat) {
    forall i :: 1 <= i < |w| ==> rate * (w[i].sendTime - w[i - 1].sendTime) == MICROBITS_PER_BYTE * w[i - 1].size
  }

  lemma {:induction false} ReceivedBytes(w: seq<Packet>, rate: nat)
    requires w != [] && SpacedByReceipt(w, rate)
    ensures MICROBITS_PER_BYTE * (Bytes(w) - w[0].size) == rate * (Last(w).receiveTime - w[0].receiveTime)
  {
    if |w| == 1 {
      assert Bytes(w[..0]) == 0;
    } else {
      var front := w[..|w| - 1];
      ReceivedBytes(front, rate);
      TimesAdd(rate, front[0].receiveTime, Last(front).receiveTime, Last(w).receiveTime);
      assert rate * (w[|w| - 1].receiveTime - w[|w| - 2].receiveTime) == MICROBITS_PER_BYTE * w[|w| - 1].size;
    }
  }

  lemma {:induction false} SentBytes(w: seq<Packet>, rate: nat)
    requires w != [] && PacedAt(w, rate)
    ensures MICROBITS_PER_BYTE * (Bytes(w) - Last(w).size) == rate * (Last(w).sendTime - w[0].sendTime)
  {
    if |w| == 1 {
      assert Bytes(w[..0]) == 0;
    } else {
      var front := w[..|w| - 1];
      SentBytes(front, rate);
      TimesAdd(rate, front[0].sendTime, Last(front).sendTime, Last(w).sendTime);
      assert rate * (w[|w| - 1].sendTime - w[|w| - 2].sendTime) == MICROBITS_PER_BYTE * w[|w| - 2].size;
    }
  }

  lemma TimesAdd(rate: int, a: int, b: int, c: int)
    ensures rate * (b - a) + rate * (c - b) == rate * (c - a)
  {
  }

  lemma AtLeastQuotient(rate: nat, span: int, duration: int)
    requires 0 < duration <= span
    ensures rate * span / duration >= rate
  {
    ScaleKeepsOrder(duration, span, if rate > 0 then rate else 1);
    var x := rate * span;
    assert x == duration * (x / duration) + x % duration;
    ScaleKeepsOrder(x / duration + 1, rate, duration);
  }

  /** A bottleneck is never underestimated: leaving out the first packet is right whatever the
      sizes, and replacing the largest gap only shortens the time. */
  lemma ReceiveRateAtLeast(w: seq<Packet>, rate: nat, top: nat, second: int)
    requires |w| >= 2 && Sorted(w) && SpacedByReceipt(w, rate) && IsTop(w, |w|, top, second)
    requires GapSum(w, |w|, top, second) >= MIN_DURATION
    ensures ReceiveRate(w, top, second) >= rate
  {
    hide Bytes, GapSum;
    ReceivedBytes(w, rate);
    GapSumIs(w, |w|, top, second);
    AtLeastQuotient(rate, Last(w).receiveTime - w[0].receiveTime, GapSum(w, |w|, top, second));
  }

  /** A paced sender's rate is exact: leaving out the last packet is right whatever the sizes. */
  lemma SendRateExact(w: seq<Packet>, rate: nat)
    requires w != [] && PacedAt(w, rate) && Last(w).sendTime - w[0].sendTime >= MIN_DURATION
    requires forall i, j :: 0 <= i < j < |w| ==> w[i].sendTime < w[j].sendTime
    ensures SendRate(Timely(w, None)) == rate
  {
    hide Bytes, Timely, LastSent, FirstSendTime;
    InOrderSends(w);
    SentBytes(w, rate);
    ExactQuotient(rate, Last(w).sendTime - w[0].sendTime);
  }

  lemma ExactQuotient(rate: int, duration: int)
    requires duration > 0
    ensures rate * duration / duration == rate
  {
    DivisionIs(rate * duration, duration, rate, 0);
  }

  /** So a sender paced at a rate, over a bottleneck of no less than that rate that spaces its
      packets, whatever their sizes, is estimated at exactly its own rate. */
  lemma PacedBottleneckRate(w: seq<Packet>, sendRate: nat, bottleneck: nat, top: nat, second: int)
    requires |w| >= REQUIRED_PACKETS && Sorted(w) && IsTop(w, |w|, top, second) && sendRate <= bottleneck
    requires SpacedByReceipt(w, bottleneck) && GapSum(w, |w|, top, second) >= MIN_DURATION
    requires PacedAt(w, sendRate) && Last(w).sendTime - w[0].sendTime >= MIN_DURATION
    requires forall i, j :: 0 <= i < j < |w| ==> w[i].sendTime < w[j].sendTime
    ensures Estimate(w, top, second, None) == sendRate
  {
    hide IsTop, SendRate, ReceiveRate, GapSum, Timely;
    InOrderSends(w);
    ReceiveRateAtLeast(w, bottleneck, top, second);
    SendRateExact(w, sendRate);
  }

  lemma ScaledRate(bytes: nat, duration: nat, n: nat)
    requires duration > 0 && n > 0
    ensures n * duration > 0 && RateOf(n * bytes, n * duration) == RateOf(bytes, duration)
  {
    var a := bytes * MICROBITS_PER_BYTE;
    var q, r := a / duration, a % duration;
    assert a == q * duration + r && 0 <= r < duration;
    Distribute(n, q, duration, r);
    ScaleKeepsOrder(r + 1, duration, n);
    ScaleKeepsOrder(1, duration, n);
    DivisionIs(n * a, n * duration, q, n * r);
    assert (n * bytes) * MICROBITS_PER_BYTE == n * a;
  }

  lemma Distribute(n: nat, q: nat, d: nat, r: nat)
    ensures n * (q * d + r) == q * (n * d) + n * r
    ensures (r + 1) * n == n * r + n && d * n == n * d && n * r >= 0
  {
    assert n * (q * d) == q * (n * d);
  }

  lemma DivisionIs(a: int, d: int, q: int, r: int)
    requires d > 0 && a == q * d + r && 0 <= r < d
    ensures a / d == q
  {
    var e := a / d - q;
    assert e * d == r - a % d;
    OnlyZeroFits(e, d);
  }

  lemma OnlyZeroFits(e: int, d: int)
    requires d > 0 && -d < e * d < d
    ensures e == 0
  {
    ScaleKeepsOrder(1, e, d);
    ScaleKeepsOrder(e, -1, d);
  }

  lemma ScaleKeepsOrder(a: int, b: int, c: int)
    requires c > 0
    ensures a <= b ==> a * c <= b * c
  {
  }
}
