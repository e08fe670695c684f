/**
 The packet window of RobustThroughputEstimator: a sorted window kept by swaps and pruned at
 the front is the longest allowed suffix of everything received, sorted.
 */
module ThroughputWindow {
  import opened Options

  /** The default settings. */
  const WINDOW_PACKETS := 20
  const MAX_WINDOW_PACKETS := 500
  const MIN_WINDOW_DURATION := 1_000_000
  const MAX_WINDOW_DURATION := 5_000_000
  const MAX_REORDERING_TIME := 1_000_000

  /** `size` includes the unacknowledged data sent before the packet, of weight one. */
  datatype Packet = Packet(receiveTime: int, sendTime: int, size: nat)

  predicate Sorted(w: seq<Packet>) {
    forall i, j :: 0 <= i < j < |w| ==> w[i].receiveTime <= w[j].receiveTime
  }

  function Last(w: seq<Packet>): Packet
    requires w != []
  {
    w[|w| - 1]
  }

  /** Behind every packet that is not later. */
  function Insert(w: seq<Packet>, p: Packet): seq<Packet> {
    if w == [] || Last(w).receiveTime <= p.receiveTime then w + [p]
    else Insert(w[..|w| - 1], p) + [Last(w)]
  }

  /** The negation of `FirstPacketOutsideWindow`. */
  predicate Allowed(w: seq<Packet>) {
    w == [] ||
    (|w| <= MAX_WINDOW_PACKETS && Span(w) <= MAX_WINDOW_DURATION &&
     (|w| <= WINDOW_PACKETS || Span(w) <= MIN_WINDOW_DURATION))
  }

  function Span(w: seq<Packet>): int
    requires w != []
  {
    Last(w).receiveTime - w[0].receiveTime
  }

  function Prune(w: seq<Packet>): seq<Packet> {
    if Allowed(w) then w else Prune(w[1..])
  }

  // ---------------------------------------------------------------------------
  // Insertion

  lemma {:induction false} InsertSorts(w: seq<Packet>, p: Packet)
    requires Sorted(w)
    ensures Sorted(Insert(w, p)) && |Insert(w, p)| == |w| + 1
    ensures forall x :: x in Insert(w, p) <==> x == p || x in w
  {
    if w != [] && Last(w).receiveTime > p.receiveTime {
      InsertSorts(w[..|w| - 1], p);
      var front := Insert(w[..|w| - 1], p);
      forall i | 0 <= i < |front|
        ensures front[i].receiveTime <= Last(w).receiveTime
      {
        assert front[i] in front;
      }
      assert w == w[..|w| - 1] + [Last(w)];
    }
  }

  /** A packet earlier than all of the back goes into the front, .. */
  lemma {:induction false} InsertFront(a: seq<Packet>, b: seq<Packet>, p: Packet)
    requires forall i :: 0 <= i < |b| ==> p.receiveTime < b[i].receiveTime
    ensures Insert(a + b, p) == Insert(a, p) + b
  {
    if b == [] {
      assert a + b == a;
    } else {
      var n := |b| - 1;
      assert (a + b)[..|a + b| - 1] == a + b[..n];
      InsertFront(a, b[..n], p);
      assert Insert(a, p) + b[..n] + [b[n]] == Insert(a, p) + b;
    }
  }

  /** .. and one not earlier than any of the front into the back. */
  lemma {:induction false} InsertBack(a: seq<Packet>, b: seq<Packet>, p: Packet)
    requires forall i :: 0 <= i < |a| ==> a[i].receiveTime <= p.receiveTime
    ensures Insert(a + b, p) == a + Insert(b, p)
  {
    if b == [] {
      assert a + b == a;
    } else {
      var n := |b| - 1;
      if b[n].receiveTime > p.receiveTime {
        assert (a + b)[..|a + b| - 1] == a + b[..n];
        InsertBack(a, b[..n], p);
        assert a + Insert(b[..n], p) + [b[n]] == a + (Insert(b[..n], p) + [b[n]]);
      } else {
        assert a + b + [p] == a + (b + [p]);
      }
    }
  }

  // ---------------------------------------------------------------------------
  // Pruning

  /** More packets over a longer time are not allowed if fewer over a shorter time are not. */
  lemma AllowedShrinks(large: seq<Packet>, small: seq<Packet>)
    requires large != [] && small != [] && |large| >= |small| && Span(large) >= Span(small)
    ensures Allowed(large) ==> Allowed(small)
  {
  }

  lemma SuffixShrinks(w: seq<Packet>, i: nat, j: nat)
    requires Sorted(w) && i <= j <= |w|
    ensures Allowed(w[i..]) ==> Allowed(w[j..])
  {
    if j < |w| {
      AllowedShrinks(w[i..], w[j..]);
    }
  }

  /** Pruning keeps exactly the packets from which on the rule allows the window: the longest
      allowed suffix. */
  lemma {:induction false} PruneIsLongest(w: seq<Packet>)
    requires Sorted(w)
    ensures |Prune(w)| <= |w| && Prune(w) == w[|w| - |Prune(w)|..]
    ensures forall i :: 0 <= i <= |w| ==> (Allowed(w[i..]) <==> i >= |w| - |Prune(w)|)
    ensures w != [] ==> Prune(w) != []
  {
    if Allowed(w) {
      forall i | 0 <= i <= |w|
        ensures Allowed(w[i..])
      {
        assert w[0..] == w;
        SuffixShrinks(w, 0, i);
      }
      assert w[0..] == w;
    } else {
      PruneIsLongest(w[1..]);
      forall i | 0 <= i <= |w|
        ensures Allowed(w[i..]) <==> i >= |w| - |Prune(w)|
      {
        if i == 0 {
          assert w[0..] == w;
        } else {
          assert w[i..] == w[1..][i - 1..];
        }
      }
    }
  }

  /** In numbers: the window has at most 20 packets, or spans at most a second and has at most 500;
      it never spans more than five seconds; and one packet more would be against that. */
  lemma WindowWithin(w: seq<Packet>)
    requires Sorted(w)
    ensures var r := Prune(w);
            |r| <= 500 && (r != [] ==> Span(r) <= 5_000_000 && (|r| <= 20 || Span(r) <= 1_000_000)) &&
            (|r| < |w| ==>
               var more := w[|w| - |r| - 1..];
               |more| > 500 || Span(more) > 5_000_000 || (|more| > 20 && Span(more) > 1_000_000))
  {
    hide Prune, Sorted;
    PruneIsLongest(w);
    var n := |w| - |Prune(w)|;
    assert Allowed(w[n..]);
    assert n > 0 ==> !Allowed(w[n - 1..]);
  }

  lemma {:induction false} PruneSkips(a: seq<Packet>, b: seq<Packet>)
    requires forall i :: 0 <= i < |a| ==> !Allowed(a[i..] + b)
    ensures Prune(a + b) == Prune(b)
  {
    if a == [] {
      assert a + b == b;
    } else {
      assert a[0..] + b == a + b;
      assert (a + b)[1..] == a[1..] + b;
      forall i | 0 <= i < |a[1..]|
        ensures !Allowed(a[1..][i..] + b)
      {
        assert a[1..][i..] == a[i + 1..];
      }
      PruneSkips(a[1..], b);
    }
  }

  // ---------------------------------------------------------------------------
  // The window against everything received

  /** Amid a feedback vector: the window is the kept suffix of everything received, from `k`
      on, behind some `late` packets older than the newest packet that was discarded. From
      that one on, the window would be too long. */
  ghost predicate Amid(window: seq<Packet>, all: seq<Packet>, k: nat, late: seq<Packet>) {
    Sorted(all) && k <= |all| && (all != [] ==> k < |all|) && window == late + all[k..] && Sorted(late) &&
    (k == 0 ==> late == []) &&
    (k > 0 ==> (forall l :: l in late ==> l.receiveTime <= all[k - 1].receiveTime) && !Allowed(all[k - 1..]))
  }

  lemma AllAtMost(w: seq<Packet>, limit: int, time: int)
    requires limit <= time && forall l :: l in w ==> l.receiveTime <= limit
    ensures forall i :: 0 <= i < |w| ==> w[i].receiveTime <= time
  {
    assert forall i :: 0 <= i < |w| ==> w[i] in w;
  }

  lemma LastIsLatest(w: seq<Packet>, x: Packet)
    requires Sorted(w) && x in w
    ensures x.receiveTime <= Last(w).receiveTime
  {
  }

  /** A suffix that is too long stays so when a packet is put behind its first one. */
  lemma StaysTooLong(suffix: seq<Packet>, kept: seq<Packet>, first: Packet, p: Packet)
    requires suffix == [first] + kept && Sorted(suffix) && !Allowed(suffix) && first.receiveTime <= p.receiveTime
    ensures !Allowed([first] + Insert(kept, p))
  {
    hide Allowed;
    assert forall i :: 0 <= i < |kept| ==> kept[i] == suffix[i + 1];
    InsertSorts(kept, p);
    var next := [first] + Insert(kept, p);
    InsertBack([first], kept, p);
    InsertSorts(suffix, p);
    assert Last(suffix) in suffix && Last(suffix) in Insert(suffix, p);
    LastIsLatest(Insert(suffix, p), Last(suffix));
    AllowedShrinks(next, suffix);
  }

  lemma InsertAbove(window: seq<Packet>, all: seq<Packet>, k: nat, late: seq<Packet>, p: Packet)
    requires Amid(window, all, k, late)
    requires k > 0 ==> all[k - 1].receiveTime <= p.receiveTime
    ensures Amid(Insert(window, p), Insert(all, p), k, late)
    ensures Insert(all, p)[..k] == all[..k]
  {
    hide Allowed, Insert;
    var kept := all[k..];
    assert all == all[..k] + kept;
    InsertBack(all[..k], kept, p);
    if k > 0 {
      AllAtMost(late, all[k - 1].receiveTime, p.receiveTime);
    }
    InsertBack(late, kept, p);
    InsertSorts(all, p);
    InsertSorts(kept, p);
    var next := Insert(all, p);
    assert next[k..] == Insert(kept, p);
    if k > 0 {
      StaysTooLong(all[k - 1..], kept, all[k - 1], p);
      assert next[k - 1..] == [all[k - 1]] + Insert(kept, p);
    }
  }

  lemma InsertBelow(window: seq<Packet>, all: seq<Packet>, k: nat, late: seq<Packet>, p: Packet)
    requires Amid(window, all, k, late)
    requires k > 0 && p.receiveTime < all[k - 1].receiveTime
    ensures Amid(Insert(window, p), Insert(all, p), k + 1, Insert(late, p))
    ensures forall x :: x in Insert(all, p)[..k + 1] <==> x == p || x in all[..k]
  {
    hide Allowed, Insert;
    var kept, front, back := all[k..], all[..k - 1], all[k - 1..];
    assert all == front + back;
    InsertFront(front, back, p);
    InsertFront(late, kept, p);
    InsertSorts(all, p);
    InsertSorts(front, p);
    InsertSorts(late, p);
    var next := Insert(all, p);
    assert |Insert(front, p)| == k;
    assert next[k..] == back;
    assert next[k + 1..] == kept;
    assert next[..k + 1] == Insert(front, p) + [all[k - 1]];
    assert all[..k] == front + [all[k - 1]];
    OneMore(Insert(front, p), front, p, all[k - 1]);
  }

  lemma OneMore(a: seq<Packet>, b: seq<Packet>, p: Packet, last: Packet)
    requires forall x :: x in a <==> x == p || x in b
    ensures forall x :: x in a + [last] <==> x == p || x in b + [last]
  {
  }

  lemma LateTooLong(late: seq<Packet>, kept: seq<Packet>, from: Packet, i: nat)
    requires i < |late| && late[i].receiveTime <= from.receiveTime && kept != [] && !Allowed([from] + kept)
    ensures !Allowed(late[i..] + kept)
  {
    var long := late[i..] + kept;
    assert long[0] == late[i] && Last(long) == Last(kept) && |long| >= 1 + |kept|;
    AllowedShrinks(long, [from] + kept);
  }

  /** Pruning removes all late packets and leaves the longest allowed suffix of everything
      received. */
  lemma AmidPrunes(window: seq<Packet>, all: seq<Packet>, k: nat, late: seq<Packet>)
    requires Amid(window, all, k, late)
    ensures Prune(window) == Prune(all) == Prune(all[k..])
  {
    hide Allowed, Prune;
    var kept := all[k..];
    assert all == all[..k] + kept;
    forall i | 0 <= i < |all[..k]|
      ensures !Allowed(all[..k][i..] + kept)
    {
      assert all[..k][i..] + kept == all[i..];
      SuffixShrinks(all, i, k - 1);
    }
    PruneSkips(all[..k], kept);
    forall i | 0 <= i < |late|
      ensures !Allowed(late[i..] + kept)
    {
      assert late[i] in late;
      assert all[k - 1..] == [all[k - 1]] + kept;
      LateTooLong(late, kept, all[k - 1], i);
    }
    PruneSkips(late, kept);
  }

  // ---------------------------------------------------------------------------
  // Everything received since the last reset

  /** A report without both times is ignored. */
  datatype Report = Report(receiveTime: Option<int>, sendTime: Option<int>, size: nat, priorUnacked: nat)

  predicate Usable(r: Report) {
    r.receiveTime.Some? && r.sendTime.Some?
  }

  function PacketOf(r: Report): Packet
    requires Usable(r)
  {
    Packet(r.receiveTime.value, r.sendTime.value, r.size + r.priorUnacked)
  }

  /** A packet more than one second older than the newest one starts everything anew. */
  function Feed(all: seq<Packet>, r: Report): seq<Packet> {
    if !Usable(r) then all
    else
      var next := Insert(all, PacketOf(r));
      if next != [] && Last(next).receiveTime - r.receiveTime.value > MAX_REORDERING_TIME then [] else next
  }

  function FeedAll(all: seq<Packet>, reports: seq<Report>): seq<Packet>
    decreases |reports|
  {
    if reports == [] then all else FeedAll(Feed(all, reports[0]), reports[1..])
  }

  // ---------------------------------------------------------------------------
  // Send times of discarded packets

  ghost predicate IsLatestSend(latest: Option<int>, packets: seq<Packet>) {
    (latest.None? <==> packets == []) &&
    (latest.Some? ==> (exists x :: x in packets && x.sendTime == latest.value) &&
                      forall x :: x in packets ==> x.sendTime <= latest.value)
  }

  function Later(latest: Option<int>, time: int): Option<int> {
    if latest.Some? && latest.value >= time then latest else Some(time)
  }

  lemma LatestSendGrows(latest: Option<int>, packets: seq<Packet>, p: Packet)
    requires IsLatestSend(latest, packets)
    ensures IsLatestSend(Later(latest, p.sendTime), packets + [p])
  {
    var next := Later(latest, p.sendTime);
    if next == latest {
      var x :| x in packets && x.sendTime == latest.value;
      assert x in packets + [p];
    } else {
      assert p in packets + [p];
    }
  }

  lemma SameLatestSend(latest: Option<int>, a: seq<Packet>, b: seq<Packet>)
    requires IsLatestSend(latest, a) && forall x :: x in a <==> x in b
    ensures IsLatestSend(latest, b)
  {
    if a != [] {
      assert a[0] in b;
    }
    if b != [] {
      assert b[0] in a;
    }
  }
}
