/**
 What a sender may rely on in the adapter's bookkeeping: every key mapping points to a
 live history entry, every inserted packet is reported received at most once, and the
 cache of recent acknowledgements answers exactly for the last 60 seconds.
 */
module FeedbackOnce {
  import opened Options
  import opened SeqNum
  import opened MapSums
  import opened AdapterModel
  import opened InFlight

  // ---------------------------------------------------------------------------
  // Key mappings

  /** Every key mapping points to a history entry of the same key. */
  predicate Mapped(s: State) {
    forall key :: key in s.keyToSeq ==> s.keyToSeq[key] in s.history && s.history[s.keyToSeq[key]].key == key
  }

  lemma {:induction false} PruneHistoryMapped(s: State, now: int)
    requires Mapped(s)
    ensures Mapped(PruneHistory(s, now))
    ensures forall n :: n in PruneHistory(s, now).history ==>
              n in s.history && PruneHistory(s, now).history[n] == s.history[n]
    decreases |s.history|
  {
    if s.history != map[] && now - s.history[First(s.history)].creationTime > SEND_TIME_HISTORY_WINDOW {
      RemoveShrinks(s.history, First(s.history));
      PruneHistoryMapped(DropFirst(s), now);
    }
  }

  /** The state in which `AddPacket` registers the packet, and its unwrapped number. */
  ghost function BeforeRegister(s: State, value: int, now: int): (State, int) {
    var s1 := PruneRecent(s, now);
    var (unwrapper, n) := Unwrap(s1.unwrapper, Wrap(value));
    (PruneHistory(s1.(unwrapper := unwrapper), now), n)
  }

  /** Adding a packet keeps the mappings right exactly when its transport number is not taken
      by another key, or its own key is mapped already. */
  lemma AddMappedIff(s: State, value: int, key: Key, size: nat, now: int)
    requires Mapped(s)
    ensures var (t, n) := BeforeRegister(s, value, now);
            Mapped(AddPacket(s, Some(value), key, size, now)) <==>
            key in t.keyToSeq || n !in t.history || t.history[n].key == key
  {
    PruneRecentFrame(s, now);
    var s1 := PruneRecent(s, now);
    PruneHistoryMapped(s1.(unwrapper := Unwrap(s1.unwrapper, Wrap(value)).0), now);
    var (t, n) := BeforeRegister(s, value, now);
    var r := AddPacket(s, Some(value), key, size, now);
    if key !in t.keyToSeq {
      assert r.keyToSeq[key] == n;
    }
  }

  /** No other operation can break a mapping. */
  lemma OthersMapped(s: State, e: Event)
    requires Mapped(s) && !e.PacketAdded?
    ensures Mapped(Step(s, e))
  {
    match e
    case PacketSent(id, feedback, allocation, size, sendTime) =>
    case FeedbackReceived(packets, now) =>
      PruneRecentFrame(s, now);
      FeedbackLoopMapped(PruneRecent(s, now), packets, now);
    case PacketRemoved(key) =>
    case RouteSet(route) =>
  }

  lemma {:induction false} FeedbackLoopMapped(s: State, packets: seq<Reported>, now: int)
    requires Mapped(s)
    ensures Mapped(FeedbackLoop(s, packets, now).0)
    decreases |packets|
  {
    if packets != [] {
      FeedbackLoopMapped(FeedbackOne(s, packets[0], now).0, packets[1..], now);
    }
  }

  // ---------------------------------------------------------------------------
  // Reported received at most once per insertion

  function One(b: bool): nat {
    if b then 1 else 0
  }

  /** How many results say that packet `n` was received. */
  function ReceivedResults(results: seq<Result>, n: int): nat {
    if results == [] then 0
    else One(results[0].received && results[0].sent.sequenceNumber == n) + ReceivedResults(results[1..], n)
  }

  /** A received result costs the history entry. */
  lemma {:induction false} FeedbackConsumes(s: State, packets: seq<Reported>, now: int, n: int)
    requires Filed(s.history)
    ensures var (t, results) := FeedbackLoop(s, packets, now);
            Filed(t.history) &&
            ReceivedResults(results, n) + One(n in t.history) <= One(n in s.history)
    decreases |packets|
  {
    if packets != [] {
      var (s1, r) := FeedbackOne(s, packets[0], now);
      var (s2, rest) := FeedbackLoop(s1, packets[1..], now);
      FeedbackConsumes(s1, packets[1..], now, n);
      var results := (if r.Some? then [r.value] else []) + rest;
      assert r.Some? ==> results[1..] == rest;
      assert r.None? ==> results == rest;
    }
  }

  /** Results of one event that say packet `n` was received. */
  ghost function Reports(s: State, e: Event, n: int): nat {
    if e.FeedbackReceived? && e.packets != [] then ReceivedResults(Feedback(s, e.packets, e.now).1, n) else 0
  }

  /** Whether the event puts packet `n` into the history. */
  ghost function Insertions(s: State, e: Event, n: int): nat {
    One(e.PacketAdded? && e.transportSeq.Some? &&
        BeforeRegister(s, e.transportSeq.value, e.now).1 == n &&
        n !in BeforeRegister(s, e.transportSeq.value, e.now).0.history)
  }

  ghost function AllReports(s: State, events: seq<Event>, n: int): nat
    decreases |events|
  {
    if events == [] then 0
    else AllReports(s, events[..|events| - 1], n) +
         Reports(Run(s, events[..|events| - 1]), events[|events| - 1], n)
  }

  ghost function AllInsertions(s: State, events: seq<Event>, n: int): nat
    decreases |events|
  {
    if events == [] then 0
    else AllInsertions(s, events[..|events| - 1], n) +
         Insertions(Run(s, events[..|events| - 1]), events[|events| - 1], n)
  }

  lemma {:induction false} PruneHistoryShrinks(s: State, now: int)
    ensures PruneHistory(s, now).history.Keys <= s.history.Keys
    ensures Filed(s.history) ==> Filed(PruneHistory(s, now).history)
    decreases |s.history|
  {
    if s.history != map[] && now - s.history[First(s.history)].creationTime > SEND_TIME_HISTORY_WINDOW {
      RemoveShrinks(s.history, First(s.history));
      PruneHistoryShrinks(DropFirst(s), now);
    }
  }

  lemma StepConsumes(s: State, e: Event, n: int)
    requires Filed(s.history)
    ensures Filed(Step(s, e).history)
    ensures Reports(s, e, n) + One(n in Step(s, e).history) <= One(n in s.history) + Insertions(s, e, n)
  {
    match e
    case PacketAdded(transportSeq, key, size, now) =>
      if transportSeq.Some? {
        PruneRecentFrame(s, now);
        var s1 := PruneRecent(s, now);
        PruneHistoryShrinks(s1.(unwrapper := Unwrap(s1.unwrapper, Wrap(transportSeq.value)).0), now);
      }
    case PacketSent(id, feedback, allocation, size, sendTime) =>
    case FeedbackReceived(packets, now) =>
      PruneRecentFrame(s, now);
      FeedbackConsumes(PruneRecent(s, now), packets, now, n);
    case PacketRemoved(key) =>
    case RouteSet(route) =>
  }

  /** Over every run, a transport number is reported received at most as often as a packet
      was inserted under it; with fresh numbers, at most once. */
  lemma {:induction false} ReceivedAtMostOncePerInsertion(s: State, events: seq<Event>, n: int)
    requires Filed(s.history)
    ensures Filed(Run(s, events).history)
    ensures AllReports(s, events, n) + One(n in Run(s, events).history) <=
            One(n in s.history) + AllInsertions(s, events, n)
    decreases |events|
  {
    hide Step, Reports, Insertions, Filed;
    if events != [] {
      ReceivedAtMostOncePerInsertion(s, events[..|events| - 1], n);
      StepConsumes(Run(s, events[..|events| - 1]), events[|events| - 1], n);
    }
  }

  // ---------------------------------------------------------------------------
  // The cache of recent acknowledgements

  /** When each key was last acknowledged, if its RTP number has not been sent again since. */
  type AckTimes = map<Key, int>

  ghost predicate Ordered(q: seq<Acknowledged>, generation: nat, now: int) {
    (forall i :: 0 <= i < |q| ==> q[i].generation <= generation && q[i].time <= now) &&
    (forall i, j :: 0 <= i < j < |q| ==> q[i].generation < q[j].generation && q[i].time <= q[j].time)
  }

  /** A cached key has its last acknowledgement in the queue; a key that is not cached any
      more was acknowledged too long ago. */
  ghost predicate Cached(s: State, times: AckTimes, now: int) {
    Ordered(s.recentInOrder, s.generation, now) &&
    (forall k :: k in s.recent ==> k in times && Acknowledged(k, times[k], s.recent[k]) in s.recentInOrder) &&
    (forall k :: k in times ==> k in s.recent || now - times[k] > SEND_TIME_HISTORY_WINDOW)
  }

  /** Nothing in the queue is too old at `now`. */
  ghost predicate NothingStale(s: State, now: int) {
    forall i :: 0 <= i < |s.recentInOrder| ==> now - s.recentInOrder[i].time <= SEND_TIME_HISTORY_WINDOW
  }

  /** At the time of the last prune, the cache holds exactly the keys acknowledged within the
      window and not re-sent since. */
  lemma CacheIsExact(s: State, times: AckTimes, now: int, key: Key)
    requires Cached(s, times, now) && NothingStale(s, now)
    ensures key in s.recent <==> key in times && now - times[key] <= SEND_TIME_HISTORY_WINDOW
  {
  }

  lemma LaterCached(s: State, times: AckTimes, now: int, later: int)
    requires Cached(s, times, now) && now <= later
    ensures Cached(s, times, later)
  {
  }

  lemma OrderedTail(q: seq<Acknowledged>, generation: nat, now: int)
    requires Ordered(q, generation, now) && q != []
    ensures Ordered(q[1..], generation, now)
  {
  }

  lemma OrderedApart(q: seq<Acknowledged>, generation: nat, now: int, i: nat)
    requires Ordered(q, generation, now) && i < |q|
    ensures q[i].generation == q[0].generation ==> i == 0
  {
  }

  lemma PruneOneCached(s: State, times: AckTimes, now: int)
    requires Cached(s, times, now) && s.recentInOrder != []
    requires now - s.recentInOrder[0].time > SEND_TIME_HISTORY_WINDOW
    ensures var a := s.recentInOrder[0];
            Cached(s.(recent := if a.key in s.recent && s.recent[a.key] == a.generation
                                then s.recent - {a.key} else s.recent,
                      recentInOrder := s.recentInOrder[1..]), times, now)
  {
    hide Ordered;
    var q, a := s.recentInOrder, s.recentInOrder[0];
    OrderedTail(q, s.generation, now);
    forall k | k in s.recent && !(k == a.key && s.recent[k] == a.generation)
      ensures Acknowledged(k, times[k], s.recent[k]) in q[1..]
    {
      var i :| 0 <= i < |q| && q[i] == Acknowledged(k, times[k], s.recent[k]);
      assert q[1..][i - 1] == q[i];
    }
    if a.key in s.recent && s.recent[a.key] == a.generation {
      var i :| 0 <= i < |q| && q[i] == Acknowledged(a.key, times[a.key], s.recent[a.key]);
      OrderedApart(q, s.generation, now, i);
    }
  }

  lemma {:induction false} PruneRecentCached(s: State, times: AckTimes, now: int)
    requires Cached(s, times, now)
    ensures Cached(PruneRecent(s, now), times, now) && NothingStale(PruneRecent(s, now), now)
    decreases |s.recentInOrder|
  {
    if s.recentInOrder != [] && now - s.recentInOrder[0].time > SEND_TIME_HISTORY_WINDOW {
      hide Cached, NothingStale;
      var a := s.recentInOrder[0];
      PruneOneCached(s, times, now);
      PruneRecentCached(s.(recent := if a.key in s.recent && s.recent[a.key] == a.generation
                                     then s.recent - {a.key} else s.recent,
                           recentInOrder := s.recentInOrder[1..]), times, now);
    }
  }

  lemma RememberCached(s: State, times: AckTimes, key: Key, now: int)
    requires Cached(s, times, now) && NothingStale(s, now)
    ensures Cached(Remember(s, key, now), times[key := now], now) && NothingStale(Remember(s, key, now), now)
  {
    var r, q := Remember(s, key, now), s.recentInOrder;
    assert r.recentInOrder[|q|] == Acknowledged(key, now, s.generation + 1);
    forall k | k in r.recent && k != key
      ensures Acknowledged(k, times[k], r.recent[k]) in r.recentInOrder
    {
      assert Acknowledged(k, times[k], s.recent[k]) in q;
    }
  }

  /** The keys acknowledged by a feedback message. */
  function AckedBy(s: State, packets: seq<Reported>, now: int, times: AckTimes): AckTimes
    decreases |packets|
  {
    if packets == [] then times
    else
      AckedBy(FeedbackOne(s, packets[0], now).0, packets[1..], now,
              if packets[0].received && Retrieve(s, packets[0].key, true).1.Some?
              then times[packets[0].key := now] else times)
  }

  lemma SameCache(s: State, t: State, times: AckTimes, now: int)
    requires t.recent == s.recent && t.recentInOrder == s.recentInOrder && t.generation == s.generation
    ensures Cached(s, times, now) ==> Cached(t, times, now)
    ensures NothingStale(s, now) ==> NothingStale(t, now)
  {
  }

  lemma {:induction false} FeedbackLoopCached(s: State, packets: seq<Reported>, now: int, times: AckTimes)
    requires Cached(s, times, now) && NothingStale(s, now)
    ensures var r := FeedbackLoop(s, packets, now).0;
            Cached(r, AckedBy(s, packets, now, times), now) && NothingStale(r, now)
    decreases |packets|
  {
    if packets != [] {
      hide Cached, NothingStale;
      var s1 := Retrieve(s, packets[0].key, packets[0].received).0;
      SameCache(s, s1, times, now);
      if packets[0].received && Retrieve(s, packets[0].key, true).1.Some? {
        RememberCached(s1, times, packets[0].key, now);
        FeedbackLoopCached(Remember(s1, packets[0].key, now), packets[1..], now, times[packets[0].key := now]);
      } else {
        FeedbackLoopCached(s1, packets[1..], now, times);
      }
    }
  }

  /** The acknowledgement times after an event. */
  ghost function StepTimes(s: State, e: Event, times: AckTimes): AckTimes {
    match e
    case PacketAdded(transportSeq, key, _, _) => if transportSeq.Some? then times - {key} else times
    case FeedbackReceived(packets, now) => AckedBy(PruneRecent(s, now), packets, now, times)
    case _ => times
  }

  /** The time of the last prune after an event. */
  function PrunedAt(e: Event, prunedAt: int): int {
    match e
    case PacketAdded(transportSeq, _, _, now) => if transportSeq.Some? then now else prunedAt
    case FeedbackReceived(_, now) => now
    case _ => prunedAt
  }

  lemma {:induction false} PruneHistoryCache(s: State, now: int)
    ensures var r := PruneHistory(s, now);
            r.recent == s.recent && r.recentInOrder == s.recentInOrder && r.generation == s.generation
    decreases |s.history|
  {
    if s.history != map[] && now - s.history[First(s.history)].creationTime > SEND_TIME_HISTORY_WINDOW {
      RemoveShrinks(s.history, First(s.history));
      PruneHistoryCache(DropFirst(s), now);
    }
  }

  lemma ForgetKeyCached(s: State, times: AckTimes, key: Key, now: int)
    requires Cached(s, times, now)
    ensures Cached(s.(recent := s.recent - {key}), times - {key}, now)
  {
  }

  /** With times that do not run backward, every event keeps the cache right and leaves
      nothing stale. */
  lemma StepCached(s: State, e: Event, times: AckTimes, prunedAt: int)
    requires Cached(s, times, prunedAt) && NothingStale(s, prunedAt) && prunedAt <= PrunedAt(e, prunedAt)
    ensures Cached(Step(s, e), StepTimes(s, e, times), PrunedAt(e, prunedAt))
    ensures NothingStale(Step(s, e), PrunedAt(e, prunedAt))
  {
    hide Cached, NothingStale;
    var now := PrunedAt(e, prunedAt);
    LaterCached(s, times, prunedAt, now);
    match e
    case PacketAdded(transportSeq, key, size, _) =>
      if transportSeq.Some? {
        PruneRecentCached(s, times, now);
        var s1 := PruneRecent(s, now);
        var s2 := PruneHistory(s1.(unwrapper := Unwrap(s1.unwrapper, Wrap(transportSeq.value)).0), now);
        PruneHistoryCache(s1.(unwrapper := Unwrap(s1.unwrapper, Wrap(transportSeq.value)).0), now);
        SameCache(s1, s2, times, now);
        ForgetKeyCached(s2, times, key, now);
        SameCache(s2.(recent := s2.recent - {key}), Step(s, e), times - {key}, now);
        SameQueueStale(s2, Step(s, e), now);
      }
    case PacketSent(id, feedback, allocation, size, sendTime) => SameCache(s, Step(s, e), times, now);
    case FeedbackReceived(packets, _) =>
      PruneRecentCached(s, times, now);
      FeedbackLoopCached(PruneRecent(s, now), packets, now, times);
    case PacketRemoved(key) => SameCache(s, Step(s, e), times, now);
    case RouteSet(route) => SameCache(s, Step(s, e), times, now);
  }

  lemma SameQueueStale(s: State, t: State, now: int)
    requires t.recentInOrder == s.recentInOrder
    ensures NothingStale(s, now) ==> NothingStale(t, now)
  {
  }

  ghost function RunTimes(s: State, events: seq<Event>): AckTimes
    decreases |events|
  {
    if events == [] then map[]
    else StepTimes(Run(s, events[..|events| - 1]), events[|events| - 1], RunTimes(s, events[..|events| - 1]))
  }

  function LastPrune(events: seq<Event>, start: int): int
    decreases |events|
  {
    if events == [] then start
    else PrunedAt(events[|events| - 1], LastPrune(events[..|events| - 1], start))
  }

  /** Event times that prune do not run backward. */
  ghost predicate InTimeOrder(events: seq<Event>, start: int) {
    forall i :: 0 <= i < |events| ==> LastPrune(events[..i], start) <= PrunedAt(events[i], LastPrune(events[..i], start))
  }

  /** Over every run in time order, "recently acknowledged" holds exactly for the keys
      acknowledged within 60 s of the last prune and not re-sent since. */
  lemma {:induction false} RecentlyAcknowledgedIsExact(route: Route, events: seq<Event>, start: int)
    requires InTimeOrder(events, start)
    ensures Cached(Run(Initial(route), events), RunTimes(Initial(route), events), LastPrune(events, start)) &&
            NothingStale(Run(Initial(route), events), LastPrune(events, start))
    ensures var times, now := RunTimes(Initial(route), events), LastPrune(events, start);
            forall key :: key in Run(Initial(route), events).recent <==>
              key in times && now - times[key] <= SEND_TIME_HISTORY_WINDOW
    decreases |events|
  {
    var s := Initial(route);
    if events != [] {
      hide Cached, NothingStale, Step, StepTimes, PrunedAt;
      var n := |events| - 1;
      var front := events[..n];
      assert forall i :: 0 <= i < n ==> front[..i] == events[..i];
      RecentlyAcknowledgedIsExact(route, front, start);
      StepCached(Run(s, front), events[n], RunTimes(s, front), LastPrune(front, start));
    }
    forall key
      ensures key in Run(s, events).recent <==>
              key in RunTimes(s, events) && LastPrune(events, start) - RunTimes(s, events)[key] <= SEND_TIME_HISTORY_WINDOW
    {
      CacheIsExact(Run(s, events), RunTimes(s, events), LastPrune(events, start), key);
    }
  }
}
