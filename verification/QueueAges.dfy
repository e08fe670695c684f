/**
 Age limits of the pacer's queue over whole runs: which packets a push drops, what that
 promises about the age of those that stay, and how pauses shorten the limit.
 */
module QueueAges {
  import opened Options
  import opened QueueModel
  import opened QueueAccounting
  import opened QueueInvariant
  import opened QueueService
  import opened QueueRuns

  // ---------------------------------------------------------------------------
  // Packets wait in the order of their enqueue times

  predicate InAgeOrder(d: seq<QueuedPacket>, bound: int) {
    (forall i, j :: 0 <= i < j < |d| ==> d[i].enqueueTime <= d[j].enqueueTime) &&
    forall i :: 0 <= i < |d| ==> d[i].enqueueTime <= bound
  }

  /** Every deque is in the order of enqueue times, up to the un-paused clock. */
  ghost predicate Aging(s: State) {
    forall k: nat, o: Level :: InAgeOrder(Deque(s, k, o), UnpausedClock(s))
  }

  /** In such a deque dropping the expired prefix drops exactly the expired packets. */
  lemma {:induction false} DropOldIff(d: seq<QueuedPacket>, now: int, ttl: int, bound: int)
    requires InAgeOrder(d, bound)
    ensures InAgeOrder(DropOld(d, now, ttl), bound)
    ensures forall q :: q in d ==> (q in DropOld(d, now, ttl) <==> now - q.enqueueTime <= ttl)
  {
    if d != [] && now - d[0].enqueueTime > ttl {
      DropOldIff(d[1..], now, ttl, bound);
      DropOldIsSuffix(d[1..], now, ttl);
    } else {
      forall q | q in d
        ensures now - q.enqueueTime <= ttl
      {
        var i :| 0 <= i < |d| && d[i] == q;
        assert i == 0 || d[0].enqueueTime <= d[i].enqueueTime;
      }
    }
  }

  lemma KeptInOrder(d: seq<QueuedPacket>, o: Level, p: Level, now: int, ttl: Option<int>, bound: int)
    requires InAgeOrder(d, bound)
    ensures InAgeOrder(Kept(d, o, p, now, ttl), bound)
  {
    if ttl.Some? {
      DropOldIff(d, now, ttl.value, bound);
    }
  }

  lemma LaterBound(d: seq<QueuedPacket>, bound: int, later: int)
    requires InAgeOrder(d, bound) && bound <= later
    ensures InAgeOrder(d, later)
  {
  }

  /** The clock of an event is not before the last one. */
  predicate InTime(clock: int, e: Event) {
    match e
    case Pushed(now, _) => clock <= now
    case TimeUpdated(now) => clock <= now
    case PauseSet(_, now) => clock <= now
    case PopCalled => true
    case SsrcRemoved(_) => true
  }

  lemma PushAging(s: State, now: int, packet: Packet)
    requires Inv(s) && Aging(s) && s.lastUpdateTime <= now
    ensures Aging(Push(s, now, packet))
  {
    hide Inv, Push, Kept, InAgeOrder, BeforeAppend;
    PushEffect(s, now, packet);
    var r, q := Push(s, now, packet), BeforeAppend(s, now, packet).1;
    var p := LevelOf(s.prioritizeAudioRetransmission, packet);
    forall k: nat, o: Level
      ensures InAgeOrder(Deque(r, k, o), UnpausedClock(r))
    {
      KeptInOrder(Deque(s, k, o), o, p, now, s.timeToLive[p], UnpausedClock(s));
      var kept := Kept(Deque(s, k, o), o, p, now, s.timeToLive[p]);
      LaterBound(kept, UnpausedClock(s), UnpausedClock(r));
      LastInOrder(kept, q, UnpausedClock(r));
      assert kept + [] == kept;
    }
  }

  lemma LastInOrder(d: seq<QueuedPacket>, q: QueuedPacket, bound: int)
    requires InAgeOrder(d, bound) && q.enqueueTime == bound
    ensures InAgeOrder(d + [q], bound)
  {
  }

  lemma PopAging(s: State)
    requires Inv(s) && Aging(s)
    requires s.sizePackets == 0 || CanServe(s)
    ensures Aging(Pop(s).0)
  {
    hide Inv, Pop, PopCore, Kept, Deque, RingsOk, InAgeOrder;
    PopInv(s);
    PopRefinesSpec(s);
    InvCanServe(s);
    if s.sizePackets > 0 {
      InvRings(s);
      PopCoreEffect(s);
      var c, r := PopCore(s), Pop(s).0;
      forall k: nat, o: Level
        ensures InAgeOrder(Deque(r, k, o), UnpausedClock(r))
      {
        if k == s.rings[s.top][0] && o == s.top {
          HeadInOrder(Deque(s, k, o), UnpausedClock(s));
        }
        KeptInOrder(Deque(c, k, o), o, o, c.lastUpdateTime, c.timeToLive[o], UnpausedClock(s));
      }
    }
  }

  lemma HeadInOrder(d: seq<QueuedPacket>, bound: int)
    requires InAgeOrder(d, bound) && d != []
    ensures InAgeOrder(d[1..], bound)
  {
  }

  lemma StepAging(s: State, e: Event)
    requires Inv(s) && Aging(s) && InTime(s.lastUpdateTime, e)
    ensures Aging(Step(s, e))
  {
    hide Inv, Push, Pop, RemoveSsrc, Kept, InAgeOrder;
    match e
    case Pushed(now, packet) => PushAging(s, now, packet);
    case PopCalled =>
      PopInv(s);
      PopAging(s);
    case TimeUpdated(now) =>
      SetPauseInv(s, s.paused, now);
      SameAging(s, AdvanceTo(s, now));
    case PauseSet(paused, now) =>
      SetPauseInv(s, paused, now);
      SameAging(s, SetPause(s, paused, now));
    case SsrcRemoved(ssrc) =>
      RemoveSsrcEffect(s, ssrc);
      var r := RemoveSsrc(s, ssrc);
      forall k: nat, o: Level
        ensures InAgeOrder(Deque(r, k, o), UnpausedClock(r))
      {
        KeptInOrder(Deque(s, k, o), o, o, s.lastUpdateTime, s.timeToLive[o], UnpausedClock(s));
        EmptyInOrder(UnpausedClock(r));
      }
  }

  lemma EmptyInOrder(bound: int)
    ensures InAgeOrder([], bound)
  {
  }

  lemma SameAging(s: State, t: State)
    requires Aging(s) && UnpausedClock(s) <= UnpausedClock(t)
    requires forall k: nat, o: Level :: Deque(t, k, o) == Deque(s, k, o)
    ensures Aging(t)
  {
    hide InAgeOrder;
    forall k: nat, o: Level
      ensures InAgeOrder(Deque(t, k, o), UnpausedClock(t))
    {
      LaterBound(Deque(s, k, o), UnpausedClock(s), UnpausedClock(t));
    }
  }

  // ---------------------------------------------------------------------------
  // Runs

  /** No clock runs backward. */
  predicate ClocksInOrder(created: int, events: seq<Event>) {
    forall i :: 0 <= i < |events| ==> InTime(MeterRun(Meter(created, false, 0), events[..i]).clock, events[i])
  }

  lemma ShorterInOrder(created: int, events: seq<Event>, n: nat)
    requires ClocksInOrder(created, events) && n <= |events|
    ensures ClocksInOrder(created, events[..n])
  {
    hide MeterRun, InTime;
    assert forall i :: 0 <= i < n ==> events[..n][..i] == events[..i];
  }

  lemma {:induction false} RunAging(created: int, prioritizeAudio: bool, ttls: Ttls, events: seq<Event>)
    requires ClocksInOrder(created, events)
    ensures Inv(Initial(created, prioritizeAudio, ttls))
    ensures Aging(Run(Initial(created, prioritizeAudio, ttls), events))
    decreases |events|
  {
    hide Core, RingsOk, TopOk, Step, MeterRun, InTime;
    InitialInv(created, prioritizeAudio, ttls);
    if events != [] {
      hide Aging, Initial;
      var n := |events| - 1;
      var s := Run(Initial(created, prioritizeAudio, ttls), events[..n]);
      ShorterInOrder(created, events, n);
      RunAging(created, prioritizeAudio, ttls, events[..n]);
      StartAgrees(created, prioritizeAudio, ttls, events[..n]);
      StepAging(s, events[n]);
    }
  }

  /** The state's clocks are those of the meter. */
  lemma StartAgrees(created: int, prioritizeAudio: bool, ttls: Ttls, events: seq<Event>)
    ensures Inv(Initial(created, prioritizeAudio, ttls))
    ensures Agrees(Run(Initial(created, prioritizeAudio, ttls), events), created,
                   MeterRun(Meter(created, false, 0), events))
  {
    InitialInv(created, prioritizeAudio, ttls);
    RunAgrees(Initial(created, prioritizeAudio, ttls), events, created, Meter(created, false, 0));
  }

  /** How long the queue had been paused when the i-th event came. */
  function PausedUntil(created: int, events: seq<Event>, i: nat): int
    requires i < |events| && events[i].Pushed?
  {
    events[i].now - created - MeterRun(Meter(created, false, 0), events[..i + 1]).active
  }

  /** With clocks in order that is never negative. */
  lemma {:induction false} PausedNonNegative(created: int, events: seq<Event>)
    requires ClocksInOrder(created, events)
    ensures var m := MeterRun(Meter(created, false, 0), events); m.active <= m.clock - created
    decreases |events|
  {
    if events != [] {
      ShorterInOrder(created, events, |events| - 1);
      PausedNonNegative(created, events[..|events| - 1]);
    }
  }

  /** Without a pause it is zero. */
  lemma {:induction false} NeverPaused(created: int, events: seq<Event>)
    requires forall i :: 0 <= i < |events| && events[i].PauseSet? ==> !events[i].paused
    ensures var m := MeterRun(Meter(created, false, 0), events); m.active == m.clock - created && !m.paused
    decreases |events|
  {
    if events != [] {
      NeverPaused(created, events[..|events| - 1]);
    }
  }

  /** The state before the last event. */
  ghost function Before(created: int, prioritizeAudio: bool, ttls: Ttls, events: seq<Event>): (s: State)
    requires events != []
    ensures Inv(s)
  {
    InitialInv(created, prioritizeAudio, ttls);
    Run(Initial(created, prioritizeAudio, ttls), events[..|events| - 1])
  }

  /** A queued packet before the last event, and the push it came with. */
  ghost predicate QueuedBy(created: int, prioritizeAudio: bool, ttls: Ttls, events: seq<Event>, k: nat, o: Level,
                           q: QueuedPacket, i: nat) {
    events != [] && q in Deque(Before(created, prioritizeAudio, ttls, events), k, o) &&
    i < |events| - 1 && events[i].Pushed? && events[i].packet == q.packet &&
    q.node == Node(Pushes(events[..i]), events[i].now) &&
    q.enqueueTime == events[i].now - PausedUntil(created, events, i)
  }

  /** Every packet queued before the last event has such a push. */
  lemma EveryQueuedWasPushed(created: int, prioritizeAudio: bool, ttls: Ttls, events: seq<Event>, k: nat, o: Level,
                             q: QueuedPacket) returns (i: nat)
    requires events != [] && q in Deque(Before(created, prioritizeAudio, ttls, events), k, o)
    ensures QueuedBy(created, prioritizeAudio, ttls, events, k, o, q, i)
  {
    hide Core, RingsOk, TopOk, Run, MeterRun, Pushes;
    var front := events[..|events| - 1];
    InitialInv(created, prioritizeAudio, ttls);
    i := RunProvenance(Initial(created, prioritizeAudio, ttls), front, created, Meter(created, false, 0), k, o, q);
    assert front[..i + 1] == events[..i + 1] && front[..i] == events[..i];
  }

  /** What one push leaves of the packets queued before at its level. */
  lemma PushDropsOld(s: State, now: int, packet: Packet, k: nat, q: QueuedPacket)
    requires Inv(s) && Aging(s) && q.node != Node(s.nextNode, now)
    requires var p := LevelOf(s.prioritizeAudioRetransmission, packet);
             s.timeToLive[p].Some? && q in Deque(s, k, p)
    ensures var p := LevelOf(s.prioritizeAudioRetransmission, packet);
            q in Deque(Push(s, now, packet), k, p) <==> now - q.enqueueTime <= s.timeToLive[p].value
  {
    hide Inv, Push, InAgeOrder, DropOld, Purge, AdvanceTo, Register;
    PushEffect(s, now, packet);
    var p := LevelOf(s.prioritizeAudioRetransmission, packet);
    DropOldIff(Deque(s, k, p), now, s.timeToLive[p].value, UnpausedClock(s));
  }

  /** On every run whose clocks are in order, a push drops a packet waiting at its level exactly
      if the packet's age, and the time for which the queue had been paused before the packet
      came, together exceed the limit. */
  lemma AgeLimitIff(created: int, prioritizeAudio: bool, ttls: Ttls, events: seq<Event>, k: nat,
                   q: QueuedPacket, i: nat)
    requires events != [] && events[|events| - 1].Pushed? && ClocksInOrder(created, events)
    requires var p := LevelOf(prioritizeAudio, events[|events| - 1].packet);
             ttls[p].Some? && QueuedBy(created, prioritizeAudio, ttls, events, k, p, q, i)
    ensures Inv(Initial(created, prioritizeAudio, ttls))
    ensures var e := events[|events| - 1];
            var p := LevelOf(prioritizeAudio, e.packet);
            q in Deque(Run(Initial(created, prioritizeAudio, ttls), events), k, p) <==>
            e.now - events[i].now + PausedUntil(created, events, i) <= ttls[p].value
  {
    hide Inv, Push, Aging, MeterRun, Pushes, PausedUntil, InTime;
    var n := |events| - 1;
    var start := Initial(created, prioritizeAudio, ttls);
    InitialInv(created, prioritizeAudio, ttls);
    ShorterInOrder(created, events, n);
    RunAging(created, prioritizeAudio, ttls, events[..n]);
    RunNodes(start, events[..n]);
    PushesTellApart(events, i, n);
    var s := Run(start, events[..n]);
    PushDropsOld(s, events[n].now, events[n].packet, k, q);
  }

  /** After the i-th event, a push, the meter shows its clock. */
  lemma MeterAtPush(created: int, events: seq<Event>, i: nat)
    requires i < |events| && events[i].Pushed?
    ensures MeterRun(Meter(created, false, 0), events[..i + 1]).clock == events[i].now
  {
    assert events[..i + 1][..i] == events[..i];
  }

  /** So after a push nothing else at its level is older than the limit, pauses or not. */
  lemma NothingOlderThanLimit(created: int, prioritizeAudio: bool, ttls: Ttls, events: seq<Event>, k: nat,
                              q: QueuedPacket)
    requires events != [] && events[|events| - 1].Pushed? && ClocksInOrder(created, events)
    requires ttls[LevelOf(prioritizeAudio, events[|events| - 1].packet)].Some?
    ensures Inv(Initial(created, prioritizeAudio, ttls))
    ensures var e := events[|events| - 1];
            var p := LevelOf(prioritizeAudio, e.packet);
            q in Deque(Run(Initial(created, prioritizeAudio, ttls), events), k, p) ==>
              q.node == Node(Pushes(events[..|events| - 1]), e.now) || e.now - q.node.time <= ttls[p].value
  {
    hide Core, RingsOk, TopOk, Push, Step, MeterRun, Pushes, InTime, Initial;
    var n := |events| - 1;
    var p := LevelOf(prioritizeAudio, events[n].packet);
    var start := Initial(created, prioritizeAudio, ttls);
    InitialInv(created, prioritizeAudio, ttls);
    if q in Deque(Run(start, events), k, p) {
      var s := Before(created, prioritizeAudio, ttls, events);
      StepProvenance(s, events[n], k, p, q);
      RunNodes(start, events[..n]);
      StartsAtZero(created, prioritizeAudio, ttls);
      if q in Deque(s, k, p) {
        var i := EveryQueuedWasPushed(created, prioritizeAudio, ttls, events, k, p, q);
        AgeLimitIff(created, prioritizeAudio, ttls, events, k, q, i);
        ShorterInOrder(created, events, i + 1);
        PausedNonNegative(created, events[..i + 1]);
        MeterAtPush(created, events, i);
      }
    }
  }

  lemma StartsAtZero(created: int, prioritizeAudio: bool, ttls: Ttls)
    ensures Initial(created, prioritizeAudio, ttls).nextNode == 0
  {
  }

  /** While the queue has never been paused, the limit is exact. */
  lemma LimitExactWithoutPause(created: int, prioritizeAudio: bool, ttls: Ttls, events: seq<Event>, k: nat,
                               q: QueuedPacket)
    requires events != [] && events[|events| - 1].Pushed? && ClocksInOrder(created, events)
    requires forall i :: 0 <= i < |events| && events[i].PauseSet? ==> !events[i].paused
    requires var p := LevelOf(prioritizeAudio, events[|events| - 1].packet);
             ttls[p].Some? && q in Deque(Before(created, prioritizeAudio, ttls, events), k, p)
    ensures Inv(Initial(created, prioritizeAudio, ttls))
    ensures var e := events[|events| - 1];
            var p := LevelOf(prioritizeAudio, e.packet);
            q in Deque(Run(Initial(created, prioritizeAudio, ttls), events), k, p) <==>
            e.now - q.node.time <= ttls[p].value
  {
    hide Inv, Run, Before, MeterRun, Pushes, InTime, ClocksInOrder;
    var p := LevelOf(prioritizeAudio, events[|events| - 1].packet);
    var i := EveryQueuedWasPushed(created, prioritizeAudio, ttls, events, k, p, q);
    AgeLimitIff(created, prioritizeAudio, ttls, events, k, q, i);
    NeverPaused(created, events[..i + 1]);
    MeterAtPush(created, events, i);
  }

  // ---------------------------------------------------------------------------
  // The search for the next level

  /** Every head at the level is within the level's limit at the time of the last update. */
  ghost predicate HeadsWithinLimit(s: State, p: Level) {
    s.timeToLive[p].Some? ==>
      forall k: nat :: Deque(s, k, p) != [] ==>
        s.lastUpdateTime - Deque(s, k, p)[0].enqueueTime <= s.timeToLive[p].value
  }

  lemma {:induction false} DropOldHead(d: seq<QueuedPacket>, now: int, ttl: int)
    ensures var r := DropOld(d, now, ttl); r != [] ==> now - r[0].enqueueTime <= ttl
  {
    if d != [] && now - d[0].enqueueTime > ttl {
      DropOldHead(d[1..], now, ttl);
    }
  }

  lemma PurgedHeads(s: State, p: Level)
    requires RingsOk(s)
    ensures HeadsWithinLimit(Purge(s, p, s.lastUpdateTime), p)
  {
    hide RingsOk, Purge, DropOld, StillPending;
    PurgeEffect(s, p, s.lastUpdateTime);
    if s.timeToLive[p].Some? {
      forall k: nat
        ensures var d := DropOld(Deque(s, k, p), s.lastUpdateTime, s.timeToLive[p].value);
                d != [] ==> s.lastUpdateTime - d[0].enqueueTime <= s.timeToLive[p].value
      {
        DropOldHead(Deque(s, k, p), s.lastUpdateTime, s.timeToLive[p].value);
      }
    }
  }

  lemma SameHeads(s: State, t: State, p: Level)
    requires HeadsWithinLimit(s, p) && t == s.(top := t.top)
    ensures HeadsWithinLimit(t, p)
  {
    assert forall k: nat :: Deque(t, k, p) == Deque(s, k, p);
  }

  lemma {:induction false} FindTopWithinLimit(s: State, i: nat)
    requires RingsOk(s) && i <= NUM_LEVELS
    ensures var r := FindTop(s, i);
            (r.top == s.top && forall o: Level :: i <= o ==> r.rings[o] == []) ||
            (i <= r.top < NUM_LEVELS && HeadsWithinLimit(r, r.top))
    decreases NUM_LEVELS - i
  {
    if i < NUM_LEVELS {
      var s1 := Purge(s, i, s.lastUpdateTime);
      PurgeEffect(s, i, s.lastUpdateTime);
      FindTopStep(s, i);
      hide FindTop, Purge, RingsOk, StillPending, HeadsWithinLimit, Deque;
      if s1.rings[i] != [] {
        PurgedHeads(s, i);
        SameHeads(s1, s1.(top := i), i);
      } else {
        FindTopWithinLimit(s1, i + 1);
        FindTopKeepsAbove(s1, i + 1, i);
      }
    }
  }

  lemma {:induction false} FindTopKeepsAbove(s: State, i: nat, o: Level)
    requires RingsOk(s) && o < i <= NUM_LEVELS
    ensures FindTop(s, i).rings[o] == s.rings[o]
    decreases NUM_LEVELS - i
  {
    if i < NUM_LEVELS {
      var s1 := Purge(s, i, s.lastUpdateTime);
      PurgeEffect(s, i, s.lastUpdateTime);
      FindTopStep(s, i);
      hide FindTop, Purge, RingsOk, StillPending;
      if s1.rings[i] == [] {
        FindTopKeepsAbove(s1, i + 1, o);
      }
    }
  }

  /** When the queue has to look for its next level, the packets it then offers are within their
      limit: none that is too old at the last update is handed out. */
  lemma SearchOffersNothingOld(s: State)
    requires Core(s, []) && RingsOk(s) && -1 <= s.top < NUM_LEVELS
    requires forall p: Level :: p < s.top ==> s.rings[p] == []
    requires s.top == -1 || s.rings[s.top] == []
    ensures var r := UpdateTop(s);
            r.sizePackets != 0 ==>
              CanServe(r) && HeadsWithinLimit(r, r.top) && Next(r) in Deque(r, r.rings[r.top][0], r.top)
  {
    hide Core, FindTop, HeadsWithinLimit, RingsOk;
    UpdateTopEffect(s);
    FindTopWithinLimit(s, 0);
    var r := UpdateTop(s);
    InvCanServe(r);
  }

  // ---------------------------------------------------------------------------
  // A pause before a packet counts toward its age

  const VIDEO := Packet(1, 0, Video, None, 1000, 0, false)
  const ONE_SECOND: Ttls := [None, None, None, Some(1_000_000), None]

  /** A pause of ten seconds, then two packets a microsecond apart. */
  const AFTER_PAUSE: seq<Event> :=
    [PauseSet(true, 0), PauseSet(false, 10_000_000), Pushed(10_000_000, VIDEO), Pushed(10_000_001, VIDEO)]

  lemma {:induction false} PrefixMeters(events: seq<Event>, i: nat)
    requires i < |events|
    ensures MeterRun(Meter(0, false, 0), events[..i + 1]) ==
            Measured(MeterRun(Meter(0, false, 0), events[..i]), events[i])
    ensures Pushes(events[..i + 1]) == Pushes(events[..i]) + if events[i].Pushed? then 1 else 0
  {
    assert events[..i + 1][..i] == events[..i];
  }

  lemma MetersAfterPause()
    ensures ClocksInOrder(0, AFTER_PAUSE)
    ensures MeterRun(Meter(0, false, 0), AFTER_PAUSE[..3]) == Meter(10_000_000, false, 0)
    ensures Pushes(AFTER_PAUSE[..2]) == 0
  {
    assert MeterRun(Meter(0, false, 0), AFTER_PAUSE[..0]) == Meter(0, false, 0);
    assert Pushes(AFTER_PAUSE[..0]) == 0;
    PrefixMeters(AFTER_PAUSE, 0);
    PrefixMeters(AFTER_PAUSE, 1);
    PrefixMeters(AFTER_PAUSE, 2);
    hide MeterRun;
    forall i | 0 <= i < |AFTER_PAUSE|
      ensures InTime(MeterRun(Meter(0, false, 0), AFTER_PAUSE[..i]).clock, AFTER_PAUSE[i])
    {
      assert i == 0 || i == 1 || i == 2 || i == 3;
    }
  }

  /** The first of the two waits with the un-paused clock of its push, which is zero. */
  lemma FirstWaits(q: QueuedPacket)
    requires q == QueuedPacket(VIDEO, 0, Node(0, 10_000_000))
    ensures Inv(Initial(0, false, ONE_SECOND))
    ensures q in Deque(Run(Initial(0, false, ONE_SECOND), AFTER_PAUSE[..3]), 1, 3)
  {
    hide Core, RingsOk, TopOk, Run, Push, MeterRun, Pushes, Kept, Purge, Register, AdvanceTo, ClocksInOrder, Initial;
    var start := Initial(0, false, ONE_SECOND);
    InitialInv(0, false, ONE_SECOND);
    MetersAfterPause();
    RunNodes(start, AFTER_PAUSE[..2]);
    StartsAtZero(0, false, ONE_SECOND);
    InitialLimits();
    StartAgrees(0, false, ONE_SECOND, AFTER_PAUSE[..3]);
    var s := Run(start, AFTER_PAUSE[..2]);
    LastStep(start, AFTER_PAUSE[..3], AFTER_PAUSE[..2]);
    PushEffect(s, 10_000_000, VIDEO);
  }

  lemma InitialLimits()
    ensures !Initial(0, false, ONE_SECOND).prioritizeAudioRetransmission
  {
  }

  lemma LastStep(s: State, events: seq<Event>, front: seq<Event>)
    requires Inv(s) && events != [] && front == events[..|events| - 1]
    ensures Run(s, events) == Step(Run(s, front), events[|events| - 1])
  {
    hide Inv, Step;
  }

  /** The second push drops the first packet, which is a microsecond old, under a limit of a
      second. */
  lemma PauseShortensLimit()
    ensures Inv(Initial(0, false, ONE_SECOND)) && ClocksInOrder(0, AFTER_PAUSE)
    ensures var q := QueuedPacket(VIDEO, 0, Node(0, 10_000_000));
            q in Deque(Run(Initial(0, false, ONE_SECOND), AFTER_PAUSE[..3]), 1, 3) &&
            q !in Deque(Run(Initial(0, false, ONE_SECOND), AFTER_PAUSE), 1, 3)
  {
    hide Inv, Run, MeterRun, Pushes, ClocksInOrder;
    var q := QueuedPacket(VIDEO, 0, Node(0, 10_000_000));
    MetersAfterPause();
    FirstWaits(q);
    assert AFTER_PAUSE[..|AFTER_PAUSE| - 1] == AFTER_PAUSE[..3];
    AgeLimitIff(0, false, ONE_SECOND, AFTER_PAUSE, 1, q, 2);
  }
}
