/**
 In-flight conservation: for every network route the outstanding data is the sum of
 the sizes of the packets of the history on that route that have been sent and are
 not covered by feedback, over all interleavings of the adapter's operations; and
 the exact condition under which removing a packet keeps it so.
 */
module InFlight {
  import opened Options
  import opened SeqNum
  import opened MapSums
  import opened AdapterModel

  /** What a history entry contributes to a route. */
  function Weight(p: PacketFeedback, lastAck: int, r: Route): int {
    if p.route == r && p.sendTime.Some? && p.sequenceNumber > lastAck then p.size else 0
  }

  ghost function Weights(h: map<int, PacketFeedback>, lastAck: int, r: Route): map<int, int> {
    map k | k in h :: Weight(h[k], lastAck, r)
  }

  /** The bytes of a route that are in flight, read off the history. */
  ghost function Flight(h: map<int, PacketFeedback>, lastAck: int, r: Route): int {
    Sum(Weights(h, lastAck, r))
  }

  ghost predicate Conserved(m: map<Route, int>, h: map<int, PacketFeedback>, lastAck: int) {
    forall r: Route :: Outstanding(m, r) == Flight(h, lastAck, r)
  }

  /** Entries are filed under their own sequence number. */
  predicate Filed(h: map<int, PacketFeedback>) {
    forall k :: k in h ==> h[k].sequenceNumber == k
  }

  lemma FlightUpdate(h: map<int, PacketFeedback>, k: int, p: PacketFeedback, lastAck: int, r: Route)
    ensures Flight(h[k := p], lastAck, r) ==
            Flight(h, lastAck, r) + Weight(p, lastAck, r) - if k in h then Weight(h[k], lastAck, r) else 0
  {
    assert Weights(h[k := p], lastAck, r) == Weights(h, lastAck, r)[k := Weight(p, lastAck, r)];
    SumUpdate(Weights(h, lastAck, r), k, Weight(p, lastAck, r));
  }

  lemma FlightRemove(h: map<int, PacketFeedback>, k: int, lastAck: int, r: Route)
    requires k in h
    ensures Flight(h - {k}, lastAck, r) == Flight(h, lastAck, r) - Weight(h[k], lastAck, r)
  {
    assert Weights(h - {k}, lastAck, r) == Weights(h, lastAck, r) - {k};
    SumRemove(Weights(h, lastAck, r), k);
  }

  /** Every entry contributes at most the whole. */
  lemma FlightAtLeast(h: map<int, PacketFeedback>, k: int, lastAck: int, r: Route)
    requires k in h
    ensures Flight(h, lastAck, r) >= Weight(h[k], lastAck, r)
  {
    assert forall j :: j in h ==> Weights(h, lastAck, r)[j] == Weight(h[j], lastAck, r);
    SumAtLeast(Weights(h, lastAck, r));
    assert Weights(h, lastAck, r)[k] == Weight(h[k], lastAck, r);
  }

  lemma RemoveOutstanding(m: map<Route, int>, p: PacketFeedback, r: Route)
    ensures Outstanding(RemoveInFlight(m, p), r) ==
            Outstanding(m, r) - if p.sendTime.Some? && p.route == r && r in m then p.size else 0
  {
  }

  /** Taking a counted packet out of flight and out of the count balances. */
  lemma RemoveCounted(m: map<Route, int>, h: map<int, PacketFeedback>, lastAck: int, k: int)
    requires Conserved(m, h, lastAck) && Filed(h) && k in h && k > lastAck
    ensures Conserved(RemoveInFlight(m, h[k]), h - {k}, lastAck)
  {
    forall r: Route
      ensures Outstanding(RemoveInFlight(m, h[k]), r) == Flight(h - {k}, lastAck, r)
    {
      RemoveOutstanding(m, h[k], r);
      FlightRemove(h, k, lastAck, r);
      FlightAtLeast(h, k, lastAck, r);
    }
  }

  lemma RemoveUncounted(m: map<Route, int>, h: map<int, PacketFeedback>, lastAck: int, k: int)
    requires Conserved(m, h, lastAck) && Filed(h) && k in h && k <= lastAck
    ensures Conserved(m, h - {k}, lastAck)
  {
    forall r: Route
      ensures Outstanding(m, r) == Flight(h - {k}, lastAck, r)
    {
      FlightRemove(h, k, lastAck, r);
    }
  }

  /** Raising the acknowledged number by one takes just that packet out of the count. */
  lemma FlightRaise(h: map<int, PacketFeedback>, a: int, r: Route)
    requires Filed(h)
    ensures Flight(h, a + 1, r) == Flight(h, a, r) - if a + 1 in h then Weight(h[a + 1], a, r) else 0
  {
    assert forall k :: k in h ==> Weight(h[k], a + 1, r) == if k == a + 1 then 0 else Weight(h[k], a, r);
    if a + 1 in h {
      assert Weights(h, a + 1, r) == Weights(h, a, r)[a + 1 := 0];
      SumUpdate(Weights(h, a, r), a + 1, 0);
    } else {
      assert Weights(h, a + 1, r) == Weights(h, a, r);
    }
  }

  lemma RaiseConserves(m: map<Route, int>, h: map<int, PacketFeedback>, a: int)
    requires Conserved(m, h, a) && Filed(h)
    ensures Conserved(if a + 1 in h then RemoveInFlight(m, h[a + 1]) else m, h, a + 1)
  {
    var lowered := if a + 1 in h then RemoveInFlight(m, h[a + 1]) else m;
    forall r: Route
      ensures Outstanding(lowered, r) == Flight(h, a + 1, r)
    {
      FlightRaise(h, a, r);
      if a + 1 in h {
        RemoveOutstanding(m, h[a + 1], r);
        FlightAtLeast(h, a + 1, a, r);
      }
    }
  }

  lemma {:induction false} ReleaseConserves(m: map<Route, int>, h: map<int, PacketFeedback>, lo: int, hi: int)
    requires Conserved(m, h, lo) && Filed(h) && lo <= hi
    ensures Conserved(Release(m, h, lo, hi), h, hi)
    decreases hi - lo
  {
    hide Conserved;
    if lo < hi {
      RaiseConserves(m, h, lo);
      ReleaseConserves(if lo + 1 in h then RemoveInFlight(m, h[lo + 1]) else m, h, lo + 1, hi);
    }
  }

  // ---------------------------------------------------------------------------
  // Operations

  ghost predicate Balanced(s: State) {
    Conserved(s.inFlight, s.history, s.lastAck) && Filed(s.history)
  }

  lemma InitialBalanced(route: Route)
    ensures Balanced(Initial(route))
  {
    forall r: Route
      ensures Outstanding(map[], r) == Flight(map[], -1, r)
    {
      SumOfZeros(Weights(map[], -1, r));
    }
  }

  /** Operations that touch neither history nor counts nor the acknowledged number. */
  predicate SameFlight(s: State, t: State) {
    t.inFlight == s.inFlight && t.history == s.history && t.lastAck == s.lastAck
  }

  lemma {:induction false} PruneRecentFrame(s: State, now: int)
    ensures SameFlight(s, PruneRecent(s, now))
    ensures PruneRecent(s, now) == s.(recent := PruneRecent(s, now).recent,
                                      recentInOrder := PruneRecent(s, now).recentInOrder)
    decreases |s.recentInOrder|
  {
    if s.recentInOrder != [] && now - s.recentInOrder[0].time > SEND_TIME_HISTORY_WINDOW {
      var a := s.recentInOrder[0];
      PruneRecentFrame(s.(recent := if a.key in s.recent && s.recent[a.key] == a.generation
                                    then s.recent - {a.key} else s.recent,
                          recentInOrder := s.recentInOrder[1..]), now);
    }
  }

  lemma DropFirstBalanced(s: State)
    requires Balanced(s) && s.history != map[]
    ensures Balanced(DropFirst(s))
  {
    var k := First(s.history);
    if s.history[k].sequenceNumber > s.lastAck {
      RemoveCounted(s.inFlight, s.history, s.lastAck, k);
    } else {
      RemoveUncounted(s.inFlight, s.history, s.lastAck, k);
    }
  }

  lemma {:induction false} PruneHistoryBalanced(s: State, now: int)
    requires Balanced(s)
    ensures Balanced(PruneHistory(s, now)) && PruneHistory(s, now).lastAck == s.lastAck
    decreases |s.history|
  {
    hide Balanced;
    if s.history != map[] && now - s.history[First(s.history)].creationTime > SEND_TIME_HISTORY_WINDOW {
      RemoveShrinks(s.history, First(s.history));
      DropFirstBalanced(s);
      PruneHistoryBalanced(DropFirst(s), now);
    }
  }

  lemma AddPacketBalanced(s: State, transportSeq: Option<int>, key: Key, size: nat, now: int)
    requires Balanced(s)
    ensures Balanced(AddPacket(s, transportSeq, key, size, now))
  {
    if transportSeq.Some? {
      var s1 := PruneRecent(s, now);
      PruneRecentFrame(s, now);
      var (unwrapper, n) := Unwrap(s1.unwrapper, Wrap(transportSeq.value));
      PruneHistoryBalanced(s1.(unwrapper := unwrapper), now);
      var s2 := PruneHistory(s1.(unwrapper := unwrapper), now);
      var p := PacketFeedback(now, n, size, None, 0, 0, s.route, key);
      if n !in s2.history {
        forall r: Route
          ensures Outstanding(s2.inFlight, r) == Flight(s2.history[n := p], s2.lastAck, r)
        {
          FlightUpdate(s2.history, n, p, s2.lastAck, r);
        }
      }
    }
  }

  lemma SentBalanced(s: State, packetId: int, includedInFeedback: bool, includedInAllocation: bool, size: nat, sendTime: int)
    requires Balanced(s)
    ensures Balanced(SentPacket(s, packetId, includedInFeedback, includedInAllocation, size, sendTime).0)
  {
    if includedInFeedback || packetId != -1 {
      var (unwrapper, n) := Unwrap(s.unwrapper, Wrap(packetId));
      var t := TrackedSent(s, packetId, sendTime).0;
      if n in s.history {
        forall r: Route
          ensures Outstanding(t.inFlight, r) == Flight(t.history, t.lastAck, r)
        {
          FlightUpdate(s.history, n, t.history[n], s.lastAck, r);
        }
      }
    }
  }

  lemma RetrieveBalanced(s: State, key: Key, received: bool)
    requires Balanced(s)
    ensures Balanced(Retrieve(s, key, received).0)
  {
    if key in s.keyToSeq {
      var n := s.keyToSeq[key];
      var s1 := if n > s.lastAck then s.(inFlight := Release(s.inFlight, s.history, s.lastAck, n), lastAck := n) else s;
      if n > s.lastAck {
        ReleaseConserves(s.inFlight, s.history, s.lastAck, n);
      }
      if n in s.history && s.history[n].sendTime.Some? && received {
        RemoveUncounted(s1.inFlight, s1.history, s1.lastAck, n);
      }
    }
  }

  lemma {:induction false} FeedbackLoopBalanced(s: State, packets: seq<Reported>, now: int)
    requires Balanced(s)
    ensures Balanced(FeedbackLoop(s, packets, now).0)
    decreases |packets|
  {
    hide Balanced, Retrieve;
    if packets != [] {
      RetrieveBalanced(s, packets[0].key, packets[0].received);
      var s1 := FeedbackOne(s, packets[0], now).0;
      assert Balanced(s1) by {
        SameFlightBalanced(Retrieve(s, packets[0].key, packets[0].received).0, s1);
      }
      FeedbackLoopBalanced(s1, packets[1..], now);
    }
  }

  lemma SameFlightBalanced(s: State, t: State)
    requires SameFlight(s, t)
    ensures Balanced(s) ==> Balanced(t)
  {
  }

  lemma FeedbackBalanced(s: State, packets: seq<Reported>, now: int)
    requires Balanced(s)
    ensures Balanced(Feedback(s, packets, now).0)
  {
    PruneRecentFrame(s, now);
    FeedbackLoopBalanced(PruneRecent(s, now), packets, now);
  }

  // ---------------------------------------------------------------------------
  // Removing a packet

  /** The packet a key stands for has been sent, is covered by feedback, and its size would
      be subtracted. `RemovePacket` does not look at the acknowledged number. */
  predicate RemovesAcknowledged(s: State, key: Key) {
    key in s.keyToSeq && s.keyToSeq[key] in s.history &&
    var p := s.history[s.keyToSeq[key]];
    p.sendTime.Some? && p.sequenceNumber <= s.lastAck && p.route in s.inFlight && p.size > 0
  }

  /** Removing keeps the balance exactly when the packet is not such a packet. */
  lemma RemoveBalancedIff(s: State, key: Key)
    requires Balanced(s)
    ensures Balanced(RemovePacket(s, key).0) <==> !RemovesAcknowledged(s, key)
  {
    if key in s.keyToSeq && s.keyToSeq[key] in s.history {
      var k := s.keyToSeq[key];
      var p := s.history[k];
      if k > s.lastAck {
        RemoveCounted(s.inFlight, s.history, s.lastAck, k);
      } else if !RemovesAcknowledged(s, key) {
        RemoveUncounted(s.inFlight, s.history, s.lastAck, k);
        assert RemoveInFlight(s.inFlight, p) == s.inFlight || p.size == 0;
        assert forall r: Route :: Outstanding(RemoveInFlight(s.inFlight, p), r) == Outstanding(s.inFlight, r);
      } else {
        FlightRemove(s.history, k, s.lastAck, p.route);
        RemoveOutstanding(s.inFlight, p, p.route);
        assert Outstanding(RemovePacket(s, key).0.inFlight, p.route) !=
               Flight(RemovePacket(s, key).0.history, s.lastAck, p.route);
      }
    }
  }

  /** The documented use, on a packet that has not been reported sent, always keeps it. */
  lemma RemoveBeforeSentBalanced(s: State, key: Key)
    requires Balanced(s)
    requires key in s.keyToSeq && s.keyToSeq[key] in s.history ==> s.history[s.keyToSeq[key]].sendTime.None?
    ensures Balanced(RemovePacket(s, key).0)
  {
    RemoveBalancedIff(s, key);
  }

  // ---------------------------------------------------------------------------
  // Runs

  datatype Event =
    | PacketAdded(transportSeq: Option<int>, key: Key, size: nat, now: int)
    | PacketSent(packetId: int, includedInFeedback: bool, includedInAllocation: bool, size: nat, sendTime: int)
    | FeedbackReceived(packets: seq<Reported>, now: int)
    | PacketRemoved(key: Key)
    | RouteSet(route: Route)

  ghost function Step(s: State, e: Event): State {
    match e
    case PacketAdded(transportSeq, key, size, now) => AddPacket(s, transportSeq, key, size, now)
    case PacketSent(id, feedback, allocation, size, sendTime) => SentPacket(s, id, feedback, allocation, size, sendTime).0
    case FeedbackReceived(packets, now) => if packets == [] then PruneRecent(s, now) else Feedback(s, packets, now).0
    case PacketRemoved(key) => RemovePacket(s, key).0
    case RouteSet(route) => s.(route := route)
  }

  ghost function Run(s: State, events: seq<Event>): State
    decreases |events|
  {
    if events == [] then s else Step(Run(s, events[..|events| - 1]), events[|events| - 1])
  }

  /** A removal does not hit a sent packet that feedback already covers. */
  ghost predicate RemovesCleanly(s: State, e: Event) {
    e.PacketRemoved? ==> !RemovesAcknowledged(s, e.key)
  }

  ghost predicate CleanRemovals(s: State, events: seq<Event>) {
    forall i :: 0 <= i < |events| ==> RemovesCleanly(Run(s, events[..i]), events[i])
  }

  ghost predicate AlwaysBalanced(s: State, events: seq<Event>) {
    forall i :: 0 <= i <= |events| ==> Balanced(Run(s, events[..i]))
  }

  lemma StepBalancedIff(s: State, e: Event)
    requires Balanced(s)
    ensures Balanced(Step(s, e)) <==> RemovesCleanly(s, e)
  {
    hide Balanced, AddPacket, SentPacket, Feedback, RemovePacket, RemovesAcknowledged;
    match e
    case PacketAdded(transportSeq, key, size, now) => AddPacketBalanced(s, transportSeq, key, size, now);
    case PacketSent(id, feedback, allocation, size, sendTime) =>
      SentBalanced(s, id, feedback, allocation, size, sendTime);
    case FeedbackReceived(packets, now) =>
      FeedbackBalanced(s, packets, now);
      PruneRecentFrame(s, now);
      SameFlightBalanced(s, PruneRecent(s, now));
    case PacketRemoved(key) => RemoveBalancedIff(s, key);
    case RouteSet(route) => SameFlightBalanced(s, s.(route := route));
  }

  lemma FrontBalanced(s: State, events: seq<Event>)
    requires events != []
    ensures var front := events[..|events| - 1];
            (AlwaysBalanced(s, events) <==> AlwaysBalanced(s, front) && Balanced(Run(s, events))) &&
            (CleanRemovals(s, events) <==>
             CleanRemovals(s, front) && RemovesCleanly(Run(s, front), events[|events| - 1]))
  {
    hide Balanced, RemovesCleanly, Run;
    var n := |events| - 1;
    var front := events[..n];
    assert forall i :: 0 <= i <= n ==> front[..i] == events[..i];
    assert events[..n + 1] == events;
    if AlwaysBalanced(s, front) && Balanced(Run(s, events)) {
      forall i | 0 <= i <= |events|
        ensures Balanced(Run(s, events[..i]))
      {
        assert i == n + 1 || Balanced(Run(s, front[..i]));
      }
    }
    if AlwaysBalanced(s, events) {
      forall i | 0 <= i <= n
        ensures Balanced(Run(s, front[..i]))
      {
        assert Balanced(Run(s, events[..i]));
      }
    }
    if CleanRemovals(s, front) && RemovesCleanly(Run(s, front), events[n]) {
      forall i | 0 <= i < |events|
        ensures RemovesCleanly(Run(s, events[..i]), events[i])
      {
        assert i == n || RemovesCleanly(Run(s, front[..i]), front[i]);
      }
    }
    if CleanRemovals(s, events) {
      forall i | 0 <= i < n
        ensures RemovesCleanly(Run(s, front[..i]), front[i])
      {
        assert RemovesCleanly(Run(s, events[..i]), events[i]);
      }
    }
  }

  /** On every run, in-flight data is conserved at all times exactly when every removal is
      clean. */
  lemma {:induction false} BalancedThroughoutIff(s: State, events: seq<Event>)
    requires Balanced(s)
    ensures AlwaysBalanced(s, events) <==> CleanRemovals(s, events)
    decreases |events|
  {
    hide Balanced, RemovesCleanly, Step;
    if events == [] {
      RunOfNone(s);
    } else {
      hide AlwaysBalanced, CleanRemovals;
      var n := |events| - 1;
      BalancedThroughoutIff(s, events[..n]);
      FrontBalanced(s, events);
      if AlwaysBalanced(s, events[..n]) {
        LastBalanced(s, events[..n]);
        StepBalancedIff(Run(s, events[..n]), events[n]);
      }
    }
  }

  lemma LastBalanced(s: State, events: seq<Event>)
    requires AlwaysBalanced(s, events)
    ensures Balanced(Run(s, events))
  {
    assert events[..|events|] == events;
  }

  /** In-flight conservation from the start, on every run whose removals are clean. */
  lemma InFlightIsConserved(route: Route, events: seq<Event>)
    requires CleanRemovals(Initial(route), events)
    ensures Balanced(Run(Initial(route), events))
    ensures var s := Run(Initial(route), events);
            forall r: Route :: Outstanding(s.inFlight, r) == Flight(s.history, s.lastAck, r)
  {
    InitialBalanced(route);
    BalancedThroughoutIff(Initial(route), events);
    LastBalanced(Initial(route), events);
  }

  // ---------------------------------------------------------------------------
  // A run in which a removal is not clean and the balance is lost

  const RESENT := Key(1, 7)
  const OTHER := Key(1, 8)

  /** A packet is sent, and a later one; the first is reported lost and stays in the history;
      then its RTP key is re-sent. */
  const RESEND_EVENTS: seq<Event> :=
    [PacketAdded(Some(10), RESENT, 100, 0), PacketSent(10, true, true, 100, 0),
     PacketAdded(Some(11), OTHER, 100, 0), PacketSent(11, true, true, 100, 0),
     FeedbackReceived([Reported(RESENT, false)], 0), PacketAdded(Some(12), RESENT, 100, 0)]

  function Entry(n: int, sent: bool, inFlight: int, key: Key): PacketFeedback {
    PacketFeedback(0, n, 100, if sent then Some(0) else None, 0, inFlight, 0, key)
  }

  lemma {:induction false} NothingToPrune(s: State)
    requires forall k :: k in s.history ==> s.history[k].creationTime == 0
    ensures PruneHistory(s, 0) == s
  {
  }

  lemma FirstPacket()
    ensures Step(Step(Initial(0), RESEND_EVENTS[0]), RESEND_EVENTS[1]) ==
            AFTER_FIRST
  {
    var s1 := Initial(0).(unwrapper := Started(10, 10), keyToSeq := map[RESENT := 10],
                          history := map[10 := Entry(10, false, 0, RESENT)]);
    NothingToPrune(Initial(0).(unwrapper := Started(10, 10)));
    assert Step(Initial(0), RESEND_EVENTS[0]) == s1;
    assert Step(s1, RESEND_EVENTS[1]).history == map[10 := Entry(10, true, 100, RESENT)];
  }

  const TWO_KEYS := map[RESENT := 10, OTHER := 11]
  const TWO_ENTRIES := map[10 := Entry(10, true, 100, RESENT), 11 := Entry(11, true, 200, OTHER)]

  const AFTER_FIRST: State :=
    State(Started(10, 10), -1, map[0 := 100], 0, map[RESENT := 10], map[10 := Entry(10, true, 100, RESENT)],
          map[], [], 0, 0)

  const AFTER_ADD: State :=
    State(Started(11, 11), -1, map[0 := 100], 0, TWO_KEYS,
          map[10 := Entry(10, true, 100, RESENT), 11 := Entry(11, false, 0, OTHER)], map[], [], 0, 0)

  const AFTER_SECOND: State :=
    State(Started(11, 11), -1, map[0 := 200], 0, TWO_KEYS, TWO_ENTRIES, map[], [], 0, 0)

  lemma SecondPacketAdded()
    ensures Step(AFTER_FIRST, RESEND_EVENTS[2]) == AFTER_ADD
  {
    NothingToPrune(AFTER_FIRST.(unwrapper := Started(11, 11)));
    assert PruneRecent(AFTER_FIRST, 0) == AFTER_FIRST;
    assert Unwrap(AFTER_FIRST.unwrapper, Wrap(11)) == (Started(11, 11), 11);
  }

  lemma SecondPacketSent()
    ensures Step(AFTER_ADD, PacketSent(11, true, true, 100, 0)) == AFTER_SECOND
  {
    UnwrapEleven();
    hide Unwrap, Wrap, TrackedSent, Entry;
    SentElevenCounts(AFTER_ADD);
  }

  lemma UnwrapEleven()
    ensures Unwrap(Started(11, 11), Wrap(11)) == (Started(11, 11), 11)
  {
  }

  lemma SentElevenCounts(s: State)
    requires s.history == map[10 := Entry(10, true, 100, RESENT), 11 := Entry(11, false, 0, OTHER)]
    requires s.inFlight == map[0 := 100] && s.lastAck == -1 && s.route == 0 && s.pendingUntracked == 0
    requires Unwrap(s.unwrapper, Wrap(11)) == (Started(11, 11), 11)
    ensures TrackedSent(s, 11, 0).0 ==
            s.(unwrapper := Started(11, 11), history := TWO_ENTRIES, inFlight := map[0 := 200])
  {
    hide Unwrap, Wrap;
    var sent := Entry(11, true, 0, OTHER);
    assert s.history[11] == Entry(11, false, 0, OTHER);
    assert AddInFlight(s.inFlight, sent) == map[0 := 200];
    assert s.history[11 := Entry(11, true, 200, OTHER)] == TWO_ENTRIES;
  }

  lemma LossAndResend(s: State)
    requires s == AFTER_SECOND
    ensures RemovesAcknowledged(Step(Step(s, RESEND_EVENTS[4]), RESEND_EVENTS[5]), RESENT)
  {
    var f := Reported(RESENT, false);
    assert [f][1..] == [];
    assert Release(s.inFlight, s.history, -1, 9) == s.inFlight by {
      NothingToRelease(s.inFlight, s.history, -1, 9);
    }
    ReleaseSplit(s.inFlight, s.history, -1, 9, 10);
    assert Release(s.inFlight, s.history, 9, 10) == RemoveInFlight(s.inFlight, s.history[10]);
    var s5 := s.(lastAck := 10, inFlight := map[0 := 100]);
    assert FeedbackOne(s, f, 0).0 == s5;
    assert Step(s, RESEND_EVENTS[4]) == FeedbackLoop(s5, [], 0).0;
    NothingToPrune(s5.(unwrapper := Started(12, 12)));
  }

  lemma {:induction false} NothingToRelease(m: map<Route, int>, h: map<int, PacketFeedback>, lo: int, hi: int)
    requires forall k :: k in h ==> !(lo < k <= hi)
    ensures Release(m, h, lo, hi) == m
    decreases hi - lo
  {
    if lo < hi {
      NothingToRelease(m, h, lo + 1, hi);
    }
  }

  lemma {:induction false} ReleaseSplit(m: map<Route, int>, h: map<int, PacketFeedback>, lo: int, mid: int, hi: int)
    requires lo <= mid <= hi
    ensures Release(m, h, lo, hi) == Release(Release(m, h, lo, mid), h, mid, hi)
    decreases mid - lo
  {
    if lo < mid {
      ReleaseSplit(if lo + 1 in h then RemoveInFlight(m, h[lo + 1]) else m, h, lo + 1, mid, hi);
    }
  }

  lemma RunAppend(s: State, events: seq<Event>, e: Event)
    ensures Run(s, events + [e]) == Step(Run(s, events), e)
  {
    assert (events + [e])[..|events|] == events;
  }

  /** Rolling back the re-sent packet removes the first one instead, and takes its size out
      of flight a second time. */
  lemma RollbackOfResentKeyLosesBalance()
    ensures var s := Run(Initial(0), RESEND_EVENTS);
            Balanced(s) && RemovesAcknowledged(s, RESENT) && !Balanced(Step(s, PacketRemoved(RESENT)))
  {
    hide Balanced, RemovesAcknowledged, Step;
    var e := RESEND_EVENTS;
    FirstPacket();
    SecondPacketAdded();
    SecondPacketSent();
    LossAndResend(AFTER_SECOND);
    RunOfSix(Initial(0), e[0], e[1], e[2], e[3], e[4], e[5]);
    assert e == [e[0], e[1], e[2], e[3], e[4], e[5]];
    InFlightIsConserved(0, e);
    RemoveBalancedIff(Run(Initial(0), e), RESENT);
    RemovalStep(Run(Initial(0), e), RESENT);
  }

  lemma RemovalStep(s: State, key: Key)
    ensures Step(s, PacketRemoved(key)) == RemovePacket(s, key).0
  {
  }

  lemma RunOfSix(s: State, e1: Event, e2: Event, e3: Event, e4: Event, e5: Event, e6: Event)
    ensures Run(s, [e1, e2, e3, e4, e5, e6]) == Step(Step(Step(Step(Step(Step(s, e1), e2), e3), e4), e5), e6)
  {
    hide Step, Run;
    assert [e1, e2, e3, e4, e5, e6] == (((((([] + [e1]) + [e2]) + [e3]) + [e4]) + [e5]) + [e6]);
    RunAppend(s, [], e1);
    RunAppend(s, [e1], e2);
    RunAppend(s, [e1, e2], e3);
    RunAppend(s, [e1, e2, e3], e4);
    RunAppend(s, [e1, e2, e3, e4], e5);
    RunAppend(s, [e1, e2, e3, e4, e5], e6);
    assert [] + [e1] == [e1] && [e1] + [e2] == [e1, e2] && [e1, e2] + [e3] == [e1, e2, e3];
    assert [e1, e2, e3] + [e4] == [e1, e2, e3, e4] && [e1, e2, e3, e4] + [e5] == [e1, e2, e3, e4, e5];
    RunOfNone(s);
  }

  lemma RunOfNone(s: State)
    ensures Run(s, []) == s
  {
  }
}
