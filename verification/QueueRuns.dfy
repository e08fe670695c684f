/**
 Whole runs of the pacer's queue: the invariant in every reachable state, the time
 stamped on a packet as the un-paused time between its push and its pop, and the
 order of the enqueue-time list.
 */
module QueueRuns {
  import opened Options
  import opened QueueModel
  import opened QueueAccounting
  import opened QueueInvariant
  import opened QueueService

  datatype Event =
    | Pushed(now: int, packet: Packet)
    | PopCalled
    | TimeUpdated(now: int)
    | PauseSet(paused: bool, now: int)
    | SsrcRemoved(ssrc: nat)

  ghost function Step(s: State, e: Event): (r: State)
    requires Inv(s)
    ensures Inv(r)
  {
    match e
    case Pushed(now, packet) => PushEffect(s, now, packet); Push(s, now, packet)
    case PopCalled => PopInv(s); Pop(s).0
    case TimeUpdated(now) => AdvanceInv(s, now); AdvanceTo(s, now)
    case PauseSet(paused, now) => SetPauseInv(s, paused, now); SetPause(s, paused, now)
    case SsrcRemoved(ssrc) => RemoveSsrcEffect(s, ssrc); RemoveSsrc(s, ssrc)
  }

  lemma AdvanceInv(s: State, now: int)
    requires Inv(s)
    ensures Inv(AdvanceTo(s, now))
  {
    AdvanceCore(s, now, []);
  }

  /** Safety over whole runs: the invariant holds in every reachable state, whatever the
      order of operations and times. */
  ghost function Run(s: State, events: seq<Event>): (r: State)
    requires Inv(s)
    ensures Inv(r)
    decreases |events|
  {
    if events == [] then s else Step(Run(s, events[..|events| - 1]), events[|events| - 1])
  }

  // ---------------------------------------------------------------------------
  // Un-paused time, measured from the events alone

  /** A clock reading, the pause state, and the un-paused time so far. */
  datatype Meter = Meter(clock: int, paused: bool, active: int)

  function Tick(m: Meter, now: int): Meter {
    Meter(now, m.paused, m.active + if m.paused then 0 else now - m.clock)
  }

  function Measured(m: Meter, e: Event): Meter {
    match e
    case Pushed(now, _) => Tick(m, now)
    case TimeUpdated(now) => Tick(m, now)
    case PauseSet(paused, now) => Tick(m, now).(paused := paused)
    case PopCalled => m
    case SsrcRemoved(_) => m
  }

  function MeterRun(m: Meter, events: seq<Event>): Meter
    decreases |events|
  {
    if events == [] then m else Measured(MeterRun(m, events[..|events| - 1]), events[|events| - 1])
  }

  /** The state's clocks show what the meter shows, counting from `created`. */
  ghost predicate Agrees(s: State, created: int, m: Meter) {
    s.lastUpdateTime == m.clock && s.paused == m.paused && UnpausedClock(s) == created + m.active
  }

  lemma StepAgrees(s: State, e: Event, created: int, m: Meter)
    requires Inv(s) && Agrees(s, created, m)
    ensures Agrees(Step(s, e), created, Measured(m, e))
  {
    hide Core, RingsOk, TopOk, Push, Pop, RemoveSsrc;
    match e
    case Pushed(now, packet) => PushEffect(s, now, packet);
    case PopCalled => PopInv(s);
    case TimeUpdated(now) =>
    case PauseSet(paused, now) => SetPauseInv(s, paused, now);
    case SsrcRemoved(ssrc) => RemoveSsrcEffect(s, ssrc);
  }

  lemma {:induction false} RunAgrees(s: State, events: seq<Event>, created: int, m: Meter)
    requires Inv(s) && Agrees(s, created, m)
    ensures Agrees(Run(s, events), created, MeterRun(m, events))
    decreases |events|
  {
    hide Inv, Step, Measured;
    if events != [] {
      RunAgrees(s, events[..|events| - 1], created, m);
      StepAgrees(Run(s, events[..|events| - 1]), events[|events| - 1], created,
                 MeterRun(m, events[..|events| - 1]));
    }
  }

  // ---------------------------------------------------------------------------
  // Where queued packets come from

  lemma {:induction false} DropOldIsSuffix(d: seq<QueuedPacket>, now: int, ttl: int)
    ensures forall q :: q in DropOld(d, now, ttl) ==> q in d
  {
    if d != [] {
      DropOldIsSuffix(d[1..], now, ttl);
    }
  }

  lemma KeptIsSuffix(d: seq<QueuedPacket>, o: Level, p: Level, now: int, ttl: Option<int>)
    ensures forall q :: q in Kept(d, o, p, now, ttl) ==> q in d
  {
    if ttl.Some? {
      DropOldIsSuffix(d, now, ttl.value);
    }
  }

  /** How many packets the events push. */
  function Pushes(events: seq<Event>): nat
    decreases |events|
  {
    if events == [] then 0
    else Pushes(events[..|events| - 1]) + if events[|events| - 1].Pushed? then 1 else 0
  }

  /** The number of earlier pushes names a push. */
  lemma {:induction false} PushesTellApart(events: seq<Event>, i: nat, j: nat)
    requires i < j <= |events| && events[i].Pushed?
    ensures Pushes(events[..i]) < Pushes(events[..j])
    decreases j
  {
    assert events[..j][..j - 1] == events[..j - 1];
    if i < j - 1 {
      PushesTellApart(events, i, j - 1);
    }
  }

  /** The configuration does not change. */
  predicate SameLimits(s: State, t: State) {
    t.timeToLive == s.timeToLive && t.prioritizeAudioRetransmission == s.prioritizeAudioRetransmission
  }

  lemma PurgeNodes(s: State, p: Level, now: int)
    ensures Purge(s, p, now).nextNode == s.nextNode && SameLimits(s, Purge(s, p, now))
  {
    if s.timeToLive[p].Some? {
      PurgeFromKeepsSettings(s, p, 0, now, s.timeToLive[p].value);
    }
  }

  lemma {:induction false} FindTopNodes(s: State, i: nat)
    requires i <= NUM_LEVELS
    ensures FindTop(s, i).nextNode == s.nextNode && SameLimits(s, FindTop(s, i))
    decreases NUM_LEVELS - i
  {
    if i < NUM_LEVELS {
      PurgeNodes(s, i, s.lastUpdateTime);
      FindTopNodes(Purge(s, i, s.lastUpdateTime), i + 1);
    }
  }

  /** Every push takes the next node, and nothing else does. */
  lemma StepNodes(s: State, e: Event)
    requires Inv(s)
    ensures Step(s, e).nextNode == s.nextNode + if e.Pushed? then 1 else 0
    ensures SameLimits(s, Step(s, e))
  {
    hide Inv, Purge, FindTop, RemoveLevels;
    match e
    case Pushed(now, packet) =>
      PurgeNodes(Register(s, now, packet.ssrc), LevelOf(s.prioritizeAudioRetransmission, packet), now);
    case PopCalled =>
      InvCanServe(s);
      if s.sizePackets != 0 {
        PopIsCoreThenTop(s);
        FindTopNodes(PopCore(s), 0);
      }
    case TimeUpdated(now) =>
    case PauseSet(paused, now) =>
    case SsrcRemoved(ssrc) =>
      if ssrc in s.streams {
        ClearedCore(s, ssrc);
        FindTopNodes(Cleared(s, ssrc), 0);
      } else {
        FindTopNodes(s, 0);
      }
  }

  lemma {:induction false} RunNodes(s: State, events: seq<Event>)
    requires Inv(s)
    ensures Run(s, events).nextNode == s.nextNode + Pushes(events)
    ensures SameLimits(s, Run(s, events))
    decreases |events|
  {
    hide Inv, Step;
    if events != [] {
      RunNodes(s, events[..|events| - 1]);
      StepNodes(Run(s, events[..|events| - 1]), events[|events| - 1]);
    }
  }

  /** After a step every queued packet was there before or has just been pushed. */
  lemma StepProvenance(s: State, e: Event, k: nat, o: Level, q: QueuedPacket)
    requires Inv(s)
    requires q in Deque(Step(s, e), k, o)
    ensures q in Deque(s, k, o) ||
            (e.Pushed? && e.packet == q.packet && q.enqueueTime == UnpausedClock(Step(s, e)) &&
             q.node == Node(s.nextNode, e.now))
  {
    hide Core, RingsOk, TopOk, Push, RemoveSsrc;
    match e
    case Pushed(now, packet) =>
      PushEffect(s, now, packet);
      var p := LevelOf(s.prioritizeAudioRetransmission, packet);
      KeptIsSuffix(Deque(s, k, o), o, p, now, s.timeToLive[p]);
    case PopCalled => InvCanServe(s); PopProvenance(s, k, o, q);
    case TimeUpdated(now) => AdvanceCore(s, now, []);
    case PauseSet(paused, now) => SetPauseInv(s, paused, now);
    case SsrcRemoved(ssrc) =>
      RemoveSsrcEffect(s, ssrc);
      KeptIsSuffix(Deque(s, k, o), o, o, s.lastUpdateTime, s.timeToLive[o]);
  }

  lemma PopProvenance(s: State, k: nat, o: Level, q: QueuedPacket)
    requires Inv(s)
    requires s.sizePackets == 0 || CanServe(s)
    requires q in Deque(Pop(s).0, k, o)
    ensures q in Deque(s, k, o)
  {
    hide Core, RingsOk, TopOk, Pop, PopCore;
    InvCanServe(s);
    PopRefinesSpec(s);
    if s.sizePackets > 0 {
      PopCoreEffect(s);
      var d := Deque(PopCore(s), k, o);
      KeptIsSuffix(d, o, o, PopCore(s).lastUpdateTime, PopCore(s).timeToLive[o]);
      assert OnlyExpiredLost(PopCore(s), Pop(s).0);
      assert q in d;
      assert d == Deque(s, k, o) || d == Deque(s, k, o)[1..];
    }
  }

  /** A queued packet was pushed by some event: its list node names that event among all
      pushes, and it carries the un-paused clock of then. */
  ghost predicate PushedAt(created: int, m: Meter, events: seq<Event>, i: nat, q: QueuedPacket) {
    i < |events| && events[i].Pushed? && events[i].packet == q.packet &&
    q.node == Node(Pushes(events[..i]), events[i].now) &&
    q.enqueueTime == created + MeterRun(m, events[..i + 1]).active
  }

  lemma {:induction false} RunProvenance(s: State, events: seq<Event>, created: int, m: Meter,
                                         k: nat, o: Level, q: QueuedPacket) returns (i: nat)
    requires Inv(s) && s.streams == map[] && s.nextNode == 0 && Agrees(s, created, m)
    requires q in Deque(Run(s, events), k, o)
    ensures PushedAt(created, m, events, i, q)
    decreases |events|
  {
    hide Inv, Step, Measured, UnpausedClock;
    if events == [] {
      assert false;
    } else {
      var n := |events| - 1;
      var before := Run(s, events[..n]);
      StepProvenance(before, events[n], k, o, q);
      if q in Deque(before, k, o) {
        i := RunProvenance(s, events[..n], created, m, k, o, q);
        assert events[..n][..i + 1] == events[..i + 1] && events[..n][..i] == events[..i];
      } else {
        i := n;
        assert events[..n + 1] == events;
        RunAgrees(s, events, created, m);
        RunNodes(s, events[..n]);
      }
    }
  }

  /** The packet `Pop` takes next. */
  function Next(s: State): QueuedPacket
    requires CanServe(s)
  {
    Deque(s, s.rings[s.top][0], s.top)[0]
  }

  /** The time stamped on a popped packet is exactly the un-paused time between its push
      and its pop, for any pattern of pauses, pushes, pops, purges and removals. The push is
      the one whose list node the popped entry holds. */
  lemma StampIsUnpausedTime(creationTime: int, prioritizeAudio: bool, ttls: Ttls, events: seq<Event>)
    ensures Inv(Initial(creationTime, prioritizeAudio, ttls))
    ensures var s := Run(Initial(creationTime, prioritizeAudio, ttls), events);
            var m := Meter(creationTime, false, 0);
            (s.sizePackets == 0 || CanServe(s)) &&
            (Pop(s).1.Some? ==>
               s.sizePackets != 0 &&
               exists i: nat :: i < |events| && events[i].Pushed? && events[i].packet == Pop(s).1.value.packet &&
                 Next(s).node == Node(Pushes(events[..i]), events[i].now) &&
                 Pop(s).1.value.timeInSendQueue == MeterRun(m, events).active - MeterRun(m, events[..i + 1]).active)
  {
    hide Core, RingsOk, TopOk, UpdateTop, Run, MeterRun;
    var start := Initial(creationTime, prioritizeAudio, ttls);
    var m := Meter(creationTime, false, 0);
    InitialInv(creationTime, prioritizeAudio, ttls);
    var s := Run(start, events);
    InvCanServe(s);
    RunAgrees(start, events, creationTime, m);
    if s.sizePackets != 0 {
      PopRefinesSpec(s);
      var q := Next(s);
      var i := RunProvenance(start, events, creationTime, m, s.rings[s.top][0], s.top, q);
    }
  }

  // ---------------------------------------------------------------------------
  // The enqueue-time list stays sorted

  /** The list is sorted and reaches no further than `bound`. */
  ghost predicate SortedUpTo(nodes: seq<Node>, bound: int) {
    TimesSorted(nodes) && forall n :: n in nodes ==> n.time <= bound
  }

  lemma {:induction false} EraseSorted(nodes: seq<Node>, n: Node, bound: int)
    requires SortedUpTo(nodes, bound)
    ensures SortedUpTo(Erase(nodes, n), bound)
    ensures forall m :: m in Erase(nodes, n) ==> m in nodes
  {
    if nodes != [] && nodes[0] != n {
      EraseSorted(nodes[1..], n, bound);
      var rest := Erase(nodes[1..], n);
      forall m | m in rest
        ensures nodes[0].time <= m.time
      {
        assert m in nodes[1..];
      }
    }
  }

  lemma {:induction false} DropExpiredSorted(s: State, ssrc: nat, p: Level, now: int, ttl: int, bound: int)
    requires SortedUpTo(s.enqueueTimes, bound)
    ensures SortedUpTo(DropExpired(s, ssrc, p, now, ttl).enqueueTimes, bound)
    decreases |Deque(s, ssrc, p)|
  {
    hide SortedUpTo;
    var d := Deque(s, ssrc, p);
    if d != [] && now - d[0].enqueueTime > ttl {
      EraseSorted(s.enqueueTimes, d[0].node, bound);
      DropHeadDeque(s, ssrc, p, ssrc, p);
      DropExpiredSorted(DropHead(s, ssrc, p), ssrc, p, now, ttl, bound);
    }
  }

  lemma {:induction false} PurgeFromSorted(s: State, p: Level, i: nat, now: int, ttl: int, bound: int)
    requires i <= |s.rings[p]| && SortedUpTo(s.enqueueTimes, bound)
    ensures SortedUpTo(PurgeFrom(s, p, i, now, ttl).enqueueTimes, bound)
    decreases |s.rings[p]| - i
  {
    hide SortedUpTo, DropExpired, PurgeFrom;
    PurgeStep(s, p, i, now, ttl);
    if i < |s.rings[p]| {
      var s1 := DropExpired(s, s.rings[p][i], p, now, ttl);
      DropExpiredSorted(s, s.rings[p][i], p, now, ttl, bound);
      if Deque(s1, s.rings[p][i], p) == [] {
        PurgeFromSorted(s1.(rings := s1.rings[p := RemoveAt(s1.rings[p], i)]), p, i, now, ttl, bound);
      } else {
        PurgeFromSorted(s1, p, i + 1, now, ttl, bound);
      }
    }
  }

  lemma PurgeSorted(s: State, p: Level, now: int, bound: int)
    requires SortedUpTo(s.enqueueTimes, bound)
    ensures SortedUpTo(Purge(s, p, now).enqueueTimes, bound)
  {
    hide SortedUpTo;
    if s.timeToLive[p].Some? {
      PurgeFromSorted(s, p, 0, now, s.timeToLive[p].value, bound);
    }
  }

  lemma {:induction false} FindTopSorted(s: State, i: nat, bound: int)
    requires i <= NUM_LEVELS && SortedUpTo(s.enqueueTimes, bound)
    ensures SortedUpTo(FindTop(s, i).enqueueTimes, bound)
    decreases NUM_LEVELS - i
  {
    hide SortedUpTo;
    if i < NUM_LEVELS {
      PurgeSorted(s, i, s.lastUpdateTime, bound);
      FindTopSorted(Purge(s, i, s.lastUpdateTime), i + 1, bound);
    }
  }

  lemma UpdateTopSorted(s: State, bound: int)
    requires SortedUpTo(s.enqueueTimes, bound)
    ensures SortedUpTo(UpdateTop(s).enqueueTimes, bound)
  {
    hide SortedUpTo, FindTop;
    FindTopSorted(s, 0, bound);
  }

  lemma {:induction false} UnlinkAllSorted(s: State, qs: seq<QueuedPacket>, bound: int)
    requires SortedUpTo(s.enqueueTimes, bound)
    ensures SortedUpTo(UnlinkAll(s, qs).enqueueTimes, bound)
    decreases |qs|
  {
    hide SortedUpTo;
    if qs != [] {
      EraseSorted(s.enqueueTimes, qs[0].node, bound);
      UnlinkAllSorted(Unlink(s, qs[0]), qs[1..], bound);
    }
  }

  lemma {:induction false} RemoveLevelsSorted(s: State, ssrc: nat, removed: Deques, i: nat, bound: int)
    requires i <= NUM_LEVELS && SortedUpTo(s.enqueueTimes, bound)
    ensures SortedUpTo(RemoveLevels(s, ssrc, removed, i).enqueueTimes, bound)
    decreases NUM_LEVELS - i
  {
    hide SortedUpTo;
    if i < NUM_LEVELS {
      if removed[i] == [] {
        RemoveLevelsSorted(s, ssrc, removed, i + 1, bound);
      } else {
        UnlinkAllSorted(s, removed[i], bound);
        var s1 := UnlinkAll(s, removed[i]);
        RemoveLevelsSorted(s1.(rings := s1.rings[i := Deregister(s1.rings[i], ssrc)]), ssrc, removed, i + 1, bound);
      }
    }
  }

  /** The least time a further push may have. */
  function Latest(bound: int, e: Event): int {
    if e.Pushed? then e.now else bound
  }

  /** Pushes come in non-decreasing time order. */
  ghost predicate PushesInOrder(bound: int, events: seq<Event>) {
    forall i, j :: 0 <= i <= j < |events| && events[i].Pushed? && events[j].Pushed? ==>
      bound <= events[i].now <= events[j].now
  }

  lemma PushSorted(s: State, now: int, packet: Packet, bound: int)
    requires Inv(s) && SortedUpTo(s.enqueueTimes, bound) && bound <= now
    ensures SortedUpTo(Push(s, now, packet).enqueueTimes, now)
  {
    hide Inv, Purge;
    var r := Register(s, now, packet.ssrc);
    assert SortedUpTo(r.enqueueTimes, now);
    PurgeSorted(r, LevelOf(s.prioritizeAudioRetransmission, packet), now, now);
    PurgeKeepsStreams(r, LevelOf(s.prioritizeAudioRetransmission, packet), now);
  }

  lemma StepSorted(s: State, e: Event, bound: int)
    requires Inv(s) && SortedUpTo(s.enqueueTimes, bound)
    requires e.Pushed? ==> bound <= e.now
    ensures SortedUpTo(Step(s, e).enqueueTimes, Latest(bound, e))
  {
    hide Core, RingsOk, SortedUpTo, Push, UpdateTop, RemoveLevels;
    match e
    case Pushed(now, packet) => PushSorted(s, now, packet, bound);
    case PopCalled =>
      InvCanServe(s);
      if s.sizePackets != 0 {
        PopIsCoreThenTop(s);
        EraseSorted(s.enqueueTimes, Deque(s, s.rings[s.top][0], s.top)[0].node, bound);
        UpdateTopSorted(PopCore(s), bound);
      }
    case TimeUpdated(now) =>
    case PauseSet(paused, now) =>
    case SsrcRemoved(ssrc) =>
      if ssrc in s.streams {
        RemoveLevelsSorted(
          s.(streams := s.streams[ssrc := s.streams[ssrc].(levels := NO_PACKETS, keyFramePackets := 0)]),
          ssrc, s.streams[ssrc].levels, 0, bound);
        UpdateTopSorted(Cleared(s, ssrc), bound);
      } else {
        UpdateTopSorted(s, bound);
      }
  }

  lemma {:induction false} RunSorted(s: State, events: seq<Event>, bound: int) returns (latest: int)
    requires Inv(s) && SortedUpTo(s.enqueueTimes, bound) && PushesInOrder(bound, events)
    ensures SortedUpTo(Run(s, events).enqueueTimes, latest)
    ensures bound <= latest && forall i :: 0 <= i < |events| && events[i].Pushed? ==> events[i].now <= latest
    ensures latest == bound || exists i :: 0 <= i < |events| && events[i].Pushed? && events[i].now == latest
    decreases |events|
  {
    hide Inv, SortedUpTo, Step;
    if events == [] {
      latest := bound;
    } else {
      var n := |events| - 1;
      latest := RunSorted(s, events[..n], bound);
      StepSorted(Run(s, events[..n]), events[n], latest);
      latest := Latest(latest, events[n]);
    }
  }

  /** `OldestEnqueueTime` over runs: if pushes come in time order, the front of the list is
      the least enqueue time of the queued packets. */
  lemma OldestEnqueueTimeIsLeast(creationTime: int, prioritizeAudio: bool, ttls: Ttls, events: seq<Event>, bound: int)
    requires PushesInOrder(bound, events)
    ensures Inv(Initial(creationTime, prioritizeAudio, ttls))
    ensures var s := Run(Initial(creationTime, prioritizeAudio, ttls), events);
            |s.enqueueTimes| == s.sizePackets &&
            (s.sizePackets > 0 ==>
               forall k: nat, p: Level, i: nat :: i < |Deque(s, k, p)| ==>
                 s.enqueueTimes[0].time <= Deque(s, k, p)[i].node.time)
  {
    hide Core, RingsOk, TopOk, Run;
    var start := Initial(creationTime, prioritizeAudio, ttls);
    InitialInv(creationTime, prioritizeAudio, ttls);
    var latest := RunSorted(start, events, bound);
    var s := Run(start, events);
    CachesAreWalks(s);
    if s.sizePackets > 0 {
      OldestIsFront(s);
    }
  }
}
