/**
 What the pacer sends and when: audio and retransmissions at once, media exactly when the
 debt allows it, nothing paced under congestion and nothing at all in a pause.
 */
module PacerService {
  import opened Options
  import opened QueueModel
  import opened QueueAccounting
  import opened QueueInvariant
  import opened QueueService
  import QueueRuns
  import opened QueueMedia
  import QueueAges
  import opened PacerModel
  import opened PacerBound
  import opened Units

  // ---------------------------------------------------------------------------
  // The queue under pops

  lemma {:induction false} DropExpiredShrinks(s: State, ssrc: nat, p: Level, now: int, ttl: int)
    ensures DropExpired(s, ssrc, p, now, ttl).sizePackets <= s.sizePackets
    decreases |Deque(s, ssrc, p)|
  {
    var d := Deque(s, ssrc, p);
    if d != [] && now - d[0].enqueueTime > ttl {
      DropHeadDeque(s, ssrc, p, ssrc, p);
      DropExpiredShrinks(DropHead(s, ssrc, p), ssrc, p, now, ttl);
    }
  }

  lemma {:induction false} PurgeFromShrinks(s: State, p: Level, i: nat, now: int, ttl: int)
    requires i <= |s.rings[p]|
    ensures PurgeFrom(s, p, i, now, ttl).sizePackets <= s.sizePackets
    decreases |s.rings[p]| - i
  {
    hide DropExpired, PurgeFrom;
    PurgeStep(s, p, i, now, ttl);
    if i < |s.rings[p]| {
      var s1 := DropExpired(s, s.rings[p][i], p, now, ttl);
      DropExpiredShrinks(s, s.rings[p][i], p, now, ttl);
      if Deque(s1, s.rings[p][i], p) == [] {
        PurgeFromShrinks(s1.(rings := s1.rings[p := RemoveAt(s1.rings[p], i)]), p, i, now, ttl);
      } else {
        PurgeFromShrinks(s1, p, i + 1, now, ttl);
      }
    }
  }

  lemma {:induction false} FindTopShrinks(s: State, i: nat)
    requires i <= NUM_LEVELS
    ensures FindTop(s, i).sizePackets <= s.sizePackets
    decreases NUM_LEVELS - i
  {
    if i < NUM_LEVELS {
      if s.timeToLive[i].Some? {
        PurgeFromShrinks(s, i, 0, s.lastUpdateTime, s.timeToLive[i].value);
      }
      FindTopShrinks(Purge(s, i, s.lastUpdateTime), i + 1);
    }
  }

  /** `Pop` takes at least the packet it hands out. */
  lemma PopShrinks(q: State)
    requires Inv(q) && q.sizePackets != 0
    ensures CanServe(q) && Pop(q).1 == Some(Popped(QueueRuns.Next(q).packet, UnpausedWait(q, QueueRuns.Next(q))))
    ensures Pop(q).0.sizePackets < q.sizePackets
  {
    hide Inv, FindTop;
    InvCanServe(q);
    PopIsCoreThenTop(q);
    FindTopShrinks(PopCore(q), 0);
  }

  // ---------------------------------------------------------------------------
  // Who waits

  predicate IsUnpaced(packet: Packet) {
    packet.mediaType.Audio? || packet.mediaType.Retransmission?
  }

  ghost predicate OnlyMedia(q: State) {
    forall k: nat, o: Level, y :: y in Deque(q, k, o) ==> !IsUnpaced(y.packet)
  }

  lemma EmptyHasNone(q: State)
    requires Inv(q)
    ensures q.sizePackets == 0 ==> forall k: nat, o: Level :: Deque(q, k, o) == []
  {
    hide Inv;
    PopRefinesSpec(q);
  }

  /** The pacer looks for an un-paced packet where one waits. */
  lemma UnpacedTimeMeans(q: State)
    requires Inv(q)
    ensures UnpacedTime(q).None? <==> OnlyMedia(q)
    ensures q.sizePackets == 0 ==> OnlyMedia(q)
    ensures UnpacedTime(q).Some? ==>
              exists k: nat, o: Level, y :: y in Deque(q, k, o) && y.enqueueTime == UnpacedTime(q).value
  {
    hide Accounts, NodesOrdered, StreamWeight, TopOk;
    InvRings(q);
    EmptyHasNone(q);
    forall p: Level
      ensures HeadTime(q, p).Some? <==> q.rings[p] != []
      ensures HeadTime(q, p).Some? ==> q.rings[p][0] in q.rings[p] && Deque(q, q.rings[p][0], p) != []
    {
      assert RingOk(q, p);
      assert q.rings[p] != [] ==> q.rings[p][0] in q.rings[p];
    }
    forall k: nat, o: Level, y | y in Deque(q, k, o)
      ensures q.rings[o] != [] && LevelOf(q.prioritizeAudioRetransmission, y.packet) == o
    {
      assert RingOk(q, o);
      FiledAtLevel(q, k, o, y);
    }
    if UnpacedTime(q).Some? {
      var p: Level := if HeadTime(q, 0) == UnpacedTime(q) then 0 else if HeadTime(q, 1) == UnpacedTime(q) then 1 else 2;
      var y := Deque(q, q.rings[p][0], p)[0];
      assert y in Deque(q, q.rings[p][0], p);
    }
  }

  /** The time the pacer goes by then is that of the leading audio packet, or else the earlier one of
      the leading retransmissions; so never later than that of the packet it sends next. */
  lemma UnpacedTimeIsFirst(q: State, p: Level)
    requires Inv(q) && UnpacedTime(q).Some? && p <= 2 && q.rings[p] != []
    ensures CanServe(q) && Deque(q, q.rings[p][0], p) != []
    ensures UnpacedTime(q).value <= QueueRuns.Next(q).enqueueTime
    ensures QueueRuns.Next(q).packet.mediaType.Audio? ==> UnpacedTime(q).value == QueueRuns.Next(q).enqueueTime
    ensures QueueRuns.Next(q).packet.mediaType.Audio? ||
            UnpacedTime(q).value <= Deque(q, q.rings[p][0], p)[0].enqueueTime
  {
    hide Accounts, NodesOrdered, StreamWeight;
    InvRings(q);
    InvCanServe(q);
    forall o: Level
      ensures q.rings[o] != [] ==>
                Deque(q, q.rings[o][0], o) != [] && Deque(q, q.rings[o][0], o)[0] in Deque(q, q.rings[o][0], o)
    {
      assert RingOk(q, o);
      assert q.rings[o] != [] ==> q.rings[o][0] in q.rings[o];
    }
    assert q.sizePackets != 0 by {
      EmptyHasNone(q);
    }
    FiledAtLevel(q, q.rings[q.top][0], q.top, QueueRuns.Next(q));
    if q.rings[2] != [] {
      FiledAtLevel(q, q.rings[2][0], 2, Deque(q, q.rings[2][0], 2)[0]);
    }
  }

  // ---------------------------------------------------------------------------
  // No packet waits for a time that lies ahead

  ghost predicate QueueOnTime(q: State, limits: Limits, bound: int) {
    q.timeToLive == TtlsOf(limits) && q.lastUpdateTime <= bound && q.pauseTimeSum >= 0 &&
    forall k: nat, o: Level, y :: y in Deque(q, k, o) ==> y.enqueueTime <= bound
  }

  ghost predicate OnTime(s: Pacer, limits: Limits) {
    QueueOnTime(s.queue, limits, s.lastTimestamp)
  }

  /** The clock of a queue event is at most the bound. */
  predicate ReadBy(e: QueueRuns.Event, bound: int) {
    match e
    case Pushed(now, _) => now <= bound
    case TimeUpdated(now) => now <= bound
    case PauseSet(_, now) => now <= bound
    case PopCalled => true
    case SsrcRemoved(_) => true
  }

  lemma QueueStepOnTime(q: State, e: QueueRuns.Event, limits: Limits, bound: int)
    requires Inv(q) && QueueOnTime(q, limits, bound)
    requires QueueAges.InTime(q.lastUpdateTime, e) && ReadBy(e, bound)
    ensures QueueOnTime(QueueRuns.Step(q, e), limits, bound)
  {
    hide Inv, QueueRuns.Step;
    var r := QueueRuns.Step(q, e);
    QueueRuns.StepNodes(q, e);
    StepClocks(q, e);
    forall k: nat, o: Level, y | y in Deque(r, k, o)
      ensures y.enqueueTime <= bound
    {
      QueueRuns.StepProvenance(q, e, k, o, y);
    }
  }

  lemma StepClocks(q: State, e: QueueRuns.Event)
    requires Inv(q) && q.pauseTimeSum >= 0 && QueueAges.InTime(q.lastUpdateTime, e)
    ensures var r := QueueRuns.Step(q, e);
            r.pauseTimeSum >= 0 &&
            r.lastUpdateTime == match e
                                case Pushed(now, _) => now
                                case TimeUpdated(now) => now
                                case PauseSet(_, now) => now
                                case PopCalled => q.lastUpdateTime
                                case SsrcRemoved(_) => q.lastUpdateTime
  {
    hide Core, RingsOk, TopOk, Push, Pop, RemoveSsrc;
    match e
    case Pushed(now, packet) => PushEffect(q, now, packet);
    case PopCalled => PopInv(q);
    case TimeUpdated(now) =>
    case PauseSet(paused, now) => SetPauseInv(q, paused, now);
    case SsrcRemoved(ssrc) => RemoveSsrcEffect(q, ssrc);
  }

  lemma LaterOnTime(q: State, limits: Limits, bound: int, later: int)
    requires QueueOnTime(q, limits, bound) && bound <= later
    ensures QueueOnTime(q, limits, later)
  {
  }

  // ---------------------------------------------------------------------------
  // One round of the send loop

  lemma OneRelease(s: Pacer, now: int, limits: Limits)
    requires s.rate > 0 && Inv(s.queue) && s.queue.sizePackets != 0 && OnTime(s, limits)
    ensures var r := Released(s, now);
            Inv(r.queue) && OnTime(r, limits) && r.queue.sizePackets < s.queue.sizePackets &&
            CanServe(s.queue) && r.queue == Pop(s.queue).0 &&
            r.ledger.sent == s.ledger.sent + [QueueRuns.Next(s.queue).packet] &&
            r.rate == s.rate && r.paused == s.paused && r.congested == s.congested &&
            r.lastTimestamp == s.lastTimestamp && r.burstInterval == s.burstInterval &&
            r.queue.lastUpdateTime == s.queue.lastUpdateTime &&
            r.queue.prioritizeAudioRetransmission == s.queue.prioritizeAudioRetransmission
  {
    hide Inv, Pop, UnpacedTime, CanServe;
    PopShrinks(s.queue);
    PopInv(s.queue);
    QueueStepOnTime(s.queue, QueueRuns.PopCalled, limits, s.lastTimestamp);
    QueueRuns.StepNodes(s.queue, QueueRuns.PopCalled);
    assert QueueRuns.Step(s.queue, QueueRuns.PopCalled) == Pop(s.queue).0;
  }

  /** Paying changes neither the queue nor what was sent. */
  lemma PayingKeeps(s: Pacer, time: int)
    ensures var r := PayUpTo(s, time);
            r.queue == s.queue && r.ledger.sent == s.ledger.sent && r.rate == s.rate && r.paused == s.paused &&
            r.congested == s.congested && r.lastTimestamp == s.lastTimestamp && r.burstInterval == s.burstInterval &&
            r.seenFirstPacket == s.seenFirstPacket
  {
  }

  /** What was sent since. */
  ghost predicate Extends(before: seq<Packet>, after: seq<Packet>) {
    |before| <= |after| && after[..|before|] == before
  }

  ghost function NewlySent(s: Pacer, r: Pacer): seq<Packet>
    requires Extends(s.ledger.sent, r.ledger.sent)
  {
    r.ledger.sent[|s.ledger.sent|..]
  }

  predicate LimitPassed(q: State, limits: Limits, y: QueuedPacket) {
    var limit := LimitOf(limits, q.prioritizeAudioRetransmission, y.packet);
    limit.Some? && q.lastUpdateTime - y.enqueueTime > limit.value
  }

  /** The packet is still queued, or was sent, or was past its limit. */
  ghost predicate Accounted(s: Pacer, r: Pacer, limits: Limits, k: nat, o: Level, y: QueuedPacket)
    requires Extends(s.ledger.sent, r.ledger.sent)
  {
    y in Deque(r.queue, k, o) || y.packet in NewlySent(s, r) || LimitPassed(s.queue, limits, y)
  }

  lemma ReleaseAccounts(s: Pacer, now: int, limits: Limits, k: nat, o: Level, y: QueuedPacket)
    requires s.rate > 0 && Inv(s.queue) && s.queue.sizePackets != 0 && OnTime(s, limits) && y in Deque(s.queue, k, o)
    ensures var r := Released(s, now);
            Extends(s.ledger.sent, r.ledger.sent) && Accounted(s, r, limits, k, o, y)
  {
    hide Inv, Pop, Released, CanServe, Deque;
    OneRelease(s, now, limits);
    var r := Released(s, now);
    if y !in Deque(r.queue, k, o) {
      PopLosesOnly(s.queue, limits, k, o, y);
      assert NewlySent(s, r) == [QueueRuns.Next(s.queue).packet];
    }
  }

  /** Un-paced packets leave first: after the loop none is left, unless the circuit breaker
      stopped it. Whatever left the queue was sent, or past its limit. */
  lemma {:induction false} SendLoopServes(s: Pacer, target: int, now: int, fuel: nat, limits: Limits)
    requires s.rate > 0 && Inv(s.queue) && OnTime(s, limits) && !s.paused && now == s.lastTimestamp
    ensures var r := SendLoop(s, target, now, fuel);
            Extends(s.ledger.sent, r.ledger.sent) && Inv(r.queue) && OnTime(r, limits) &&
            r.lastTimestamp == now && r.paused == s.paused &&
            (OnlyMedia(r.queue) || r.queue.sizePackets + fuel <= s.queue.sizePackets) &&
            forall k: nat, o: Level, y :: y in Deque(s.queue, k, o) ==> Accounted(s, r, limits, k, o, y)
    decreases fuel
  {
    hide Inv, Released, PayUpTo, UnpacedTime, OnTime, OnlyMedia, Deque;
    UnpacedTimeMeans(s.queue);
    var r := SendLoop(s, target, now, fuel);
    SameOnTime(s, s.(lastSendTime := r.lastSendTime, lastProcessTime := r.lastProcessTime), limits);
    if fuel != 0 && !Withheld(s, target, now) {
      OneRelease(s, now, limits);
      var s1 := Released(s, now);
      var next := NextSendTime(s1);
      UnpacedTimeMeans(s1.queue);
      DueNow(s1, limits);
      if next <= now {
        PayingKeeps(s1, next);
        var s2 := PayUpTo(s1, next);
        SameOnTime(s1, s2, limits);
        SendLoopServes(s2, next, now, fuel - 1, limits);
        forall k: nat, o: Level, y | y in Deque(s.queue, k, o)
          ensures Accounted(s, r, limits, k, o, y)
        {
          ReleaseAccounts(s, now, limits, k, o, y);
          AccountsFollow(s, s1, s2, r, limits, k, o, y);
        }
      } else {
        forall k: nat, o: Level, y | y in Deque(s.queue, k, o)
          ensures Accounted(s, r, limits, k, o, y)
        {
          ReleaseAccounts(s, now, limits, k, o, y);
        }
      }
    }
  }

  lemma SameOnTime(s: Pacer, t: Pacer, limits: Limits)
    requires OnTime(s, limits) && t.queue == s.queue && t.lastTimestamp == s.lastTimestamp
    ensures OnTime(t, limits)
  {
  }

  lemma AccountsFollow(s: Pacer, s1: Pacer, s2: Pacer, r: Pacer, limits: Limits, k: nat, o: Level, y: QueuedPacket)
    requires Extends(s.ledger.sent, s1.ledger.sent) && Accounted(s, s1, limits, k, o, y)
    requires s2.queue == s1.queue && s2.ledger.sent == s1.ledger.sent && Extends(s2.ledger.sent, r.ledger.sent)
    requires s1.queue.lastUpdateTime == s.queue.lastUpdateTime &&
             s1.queue.prioritizeAudioRetransmission == s.queue.prioritizeAudioRetransmission
    requires y in Deque(s2.queue, k, o) ==> Accounted(s2, r, limits, k, o, y)
    ensures Extends(s.ledger.sent, r.ledger.sent) && Accounted(s, r, limits, k, o, y)
  {
    var a, b, c := s.ledger.sent, s1.ledger.sent, r.ledger.sent;
    assert c[..|a|] == b[..|a|];
    assert c[|a|..] == b[|a|..] + c[|b|..];
  }

  /** An un-paced packet that waits is due at once. */
  lemma DueNow(s: Pacer, limits: Limits)
    requires s.rate > 0 && Inv(s.queue) && OnTime(s, limits) && !s.paused
    ensures UnpacedTime(s.queue).Some? ==> NextSendTime(s) <= s.lastTimestamp
  {
    hide Inv, UnpacedTime;
    UnpacedTimeMeans(s.queue);
  }

  // ---------------------------------------------------------------------------
  // A whole call

  const BREAKER := 65536

  lemma ClockOnTime(s: Pacer, clock: int, limits: Limits)
    requires OnTime(s, limits)
    ensures OnTime(Clock(s, clock), limits)
  {
    LaterOnTime(s.queue, limits, s.lastTimestamp, Clock(s, clock).lastTimestamp);
  }

  /** What a whole call does to the queue and to what was sent. */
  lemma ProcessServes(s: Pacer, clock: int, keepAliveBytes: nat, limits: Limits)
    requires s.rate > 0 && Inv(s.queue) && OnTime(s, limits) && !s.paused
    ensures var r := Process(s, clock, keepAliveBytes);
            Extends(s.ledger.sent, r.ledger.sent) && Inv(r.queue) && OnTime(r, limits) &&
            (OnlyMedia(r.queue) || r.queue.sizePackets + BREAKER <= s.queue.sizePackets) &&
            forall k: nat, o: Level, y :: y in Deque(s.queue, k, o) ==> Accounted(s, r, limits, k, o, y)
  {
    hide Inv, PayUpTo, SendLoop, OnTime, UnpacedTime, OnlyMedia, Deque, LimitPassed;
    ClockOnTime(s, clock, limits);
    var s1 := KeepAlive(Clock(s, clock), keepAliveBytes, Clock(s, clock).lastTimestamp);
    SameOnTime(Clock(s, clock), s1, limits);
    UnpacedTimeMeans(s1.queue);
    DueNow(s1, limits);
    var now, target := s1.lastTimestamp, NextSendTime(s1);
    PayingKeeps(s1, now);
    PayingKeeps(s1, target);
    SameOnTime(s1, PayUpTo(s1, now), limits);
    SameOnTime(s1, PayUpTo(s1, target), limits);
    SendLoopServes(PayUpTo(s1, target), target, now, CIRCUIT_BREAKER_THRESHOLD, limits);
  }

  /** After a call outside a pause, no audio and no retransmission is queued, and each one that
      was has been sent, unless it was past its limit, which audio never is; except that one
      call sends no more than 65536 packets. */
  lemma UnpacedAreSent(s: Pacer, clock: int, keepAliveBytes: nat, limits: Limits)
    requires s.rate > 0 && Inv(s.queue) && OnTime(s, limits) && !s.paused
    ensures var r := Process(s, clock, keepAliveBytes);
            Extends(s.ledger.sent, r.ledger.sent) &&
            (r.queue.sizePackets + BREAKER <= s.queue.sizePackets ||
             forall k: nat, o: Level, y ::
               (y in Deque(r.queue, k, o) ==> !IsUnpaced(y.packet)) &&
               (y in Deque(s.queue, k, o) && IsUnpaced(y.packet) ==>
                  y.packet in NewlySent(s, r) || (!y.packet.mediaType.Audio? && LimitPassed(s.queue, limits, y))))
  {
    hide Inv, Process, OnTime, Deque;
    ProcessServes(s, clock, keepAliveBytes, limits);
    var r := Process(s, clock, keepAliveBytes);
    if OnlyMedia(r.queue) {
      forall k: nat, o: Level, y
        ensures y in Deque(r.queue, k, o) ==> !IsUnpaced(y.packet)
        ensures y in Deque(s.queue, k, o) && IsUnpaced(y.packet) ==>
                  y.packet in NewlySent(s, r) || (!y.packet.mediaType.Audio? && LimitPassed(s.queue, limits, y))
      {
        assert y in Deque(s.queue, k, o) ==> Accounted(s, r, limits, k, o, y);
      }
    }
  }

  // ---------------------------------------------------------------------------
  // Over runs

  lemma StepOnTime(s: Pacer, e: Event, limits: Limits, origin: int)
    requires PacerInv(s, origin) && OnTime(s, limits)
    ensures OnTime(Step(s, e), limits)
  {
    hide Inv, Books, Bounded, Process, Push, SetPause, RemoveSsrc, QueueOnTime, NextSendTime, PayUpTo;
    match e
    case PacketEnqueued(clock, packet) =>
      ClockOnTime(s, clock, limits);
      var s0 := Clock(s, clock);
      PayingKeeps(s0, Min(s0.lastTimestamp, NextSendTime(s0)));
      QueueAt(s.queue, QueueRuns.Pushed(s0.lastTimestamp, packet), limits, s0.lastTimestamp);
      assert QueueRuns.Step(s.queue, QueueRuns.Pushed(s0.lastTimestamp, packet)) ==
             Push(s.queue, s0.lastTimestamp, packet);
    case Processed(clock, keepAliveBytes) =>
      if s.paused {
        PausedSendsNothing(s, clock, keepAliveBytes);
        ClockOnTime(s, clock, limits);
      } else {
        ProcessServes(s, clock, keepAliveBytes, limits);
      }
    case Paused(clock) => PauseOnTime(s, true, clock, limits);
    case Resumed(clock) => PauseOnTime(s, false, clock, limits);
    case CongestionSet(clock, congested) =>
      ClockOnTime(s, clock, limits);
      PayingKeeps(Clock(s, clock), Clock(s, clock).lastTimestamp);
    case StreamRemoved(ssrc) =>
      QueueAt(s.queue, QueueRuns.SsrcRemoved(ssrc), limits, s.lastTimestamp);
      assert QueueRuns.Step(s.queue, QueueRuns.SsrcRemoved(ssrc)) == RemoveSsrc(s.queue, ssrc);
  }

  lemma QueueAt(q: State, e: QueueRuns.Event, limits: Limits, bound: int)
    requires Inv(q) && QueueOnTime(q, limits, bound)
    requires (e.Pushed? && e.now == bound) || (e.PauseSet? && e.now == bound) || e.SsrcRemoved?
    ensures QueueOnTime(QueueRuns.Step(q, e), limits, bound)
  {
    hide Inv, QueueRuns.Step;
    QueueStepOnTime(q, e, limits, bound);
  }

  lemma PauseOnTime(s: Pacer, paused: bool, clock: int, limits: Limits)
    requires Inv(s.queue) && OnTime(s, limits)
    ensures var now := Clock(s, clock).lastTimestamp; QueueOnTime(SetPause(s.queue, paused, now), limits, now)
  {
    hide Inv, SetPause;
    ClockOnTime(s, clock, limits);
    var now := Clock(s, clock).lastTimestamp;
    QueueAt(s.queue, QueueRuns.PauseSet(paused, now), limits, now);
    assert QueueRuns.Step(s.queue, QueueRuns.PauseSet(paused, now)) == SetPause(s.queue, paused, now);
  }

  /** In a pause nothing is sent but the keep-alive: half a second after the last, once there has been
      a packet. */
  lemma PausedSendsNothing(s: Pacer, clock: int, keepAliveBytes: nat)
    requires s.rate > 0 && Inv(s.queue) && s.paused
    ensures var r, now := Process(s, clock, keepAliveBytes), Max(s.lastTimestamp, clock);
            r.queue == s.queue && r.ledger.sent == s.ledger.sent && r.lastTimestamp == now &&
            r.lastSendTime == (if now >= s.lastSendTime + 500_000 then now else s.lastSendTime) &&
            r.ledger.unpaced ==
              s.ledger.unpaced + if now >= s.lastSendTime + 500_000 && s.seenFirstPacket then keepAliveBytes else 0
  {
  }

  /** What the packets cost: payload and padding of each, audio only if it is accounted for. */
  function Cost(sent: seq<Packet>, accountForAudio: bool): nat
    decreases |sent|
  {
    if sent == [] then 0
    else
      var p := sent[|sent| - 1];
      Cost(sent[..|sent| - 1], accountForAudio) +
      if p.mediaType.Audio? && !accountForAudio then 0 else p.payloadSize + p.paddingSize
  }

  lemma {:induction false} LoopCharges(s: Pacer, target: int, now: int, fuel: nat, limits: Limits)
    requires s.rate > 0 && Inv(s.queue) && OnTime(s, limits) && !s.paused && now == s.lastTimestamp
    ensures var r := SendLoop(s, target, now, fuel);
            r.ledger.paced + r.ledger.unpaced - Cost(r.ledger.sent, s.accountForAudio) ==
            s.ledger.paced + s.ledger.unpaced - Cost(s.ledger.sent, s.accountForAudio)
    decreases fuel
  {
    hide Inv, Released, PayUpTo, UnpacedTime, NextSendTime, OnTime, Cost;
    if fuel != 0 && !Withheld(s, target, now) {
      OneRelease(s, now, limits);
      ReleaseCharges(s, now);
      var s1 := Released(s, now);
      var next := NextSendTime(s1);
      if next <= now {
        PayingKeeps(s1, next);
        PayingCharges(s1, next);
        SameOnTime(s1, PayUpTo(s1, next), limits);
        LoopCharges(PayUpTo(s1, next), next, now, fuel - 1, limits);
      }
    }
  }

  lemma ReleaseCharges(s: Pacer, now: int)
    requires s.rate > 0 && Inv(s.queue) && s.queue.sizePackets != 0
    ensures var r := Released(s, now);
            r.accountForAudio == s.accountForAudio &&
            r.ledger.paced + r.ledger.unpaced - Cost(r.ledger.sent, s.accountForAudio) ==
            s.ledger.paced + s.ledger.unpaced - Cost(s.ledger.sent, s.accountForAudio)
  {
    hide Inv, Pop, UnpacedTime, Charge, CanServe;
    PopShrinks(s.queue);
    PacedIsMedia(s.queue);
    var p := QueueRuns.Next(s.queue).packet;
    assert (s.ledger.sent + [p])[..|s.ledger.sent|] == s.ledger.sent;
    ChargeKeeps(s.(queue := Pop(s.queue).0), PacketSize(p));
  }

  lemma ChargeKeeps(s: Pacer, size: int)
    ensures var r := Charge(s, size);
            r.ledger.paced == s.ledger.paced && r.ledger.unpaced == s.ledger.unpaced &&
            r.ledger.sent == s.ledger.sent && r.ledger.largest == s.ledger.largest &&
            r.accountForAudio == s.accountForAudio
  {
  }

  lemma PayingCharges(s: Pacer, time: int)
    ensures var r := PayUpTo(s, time);
            r.ledger.paced == s.ledger.paced && r.ledger.unpaced == s.ledger.unpaced &&
            r.accountForAudio == s.accountForAudio
  {
  }

  /** A call charges exactly what it sends, and the keep-alive. */
  lemma ChargesWhatIsSent(s: Pacer, clock: int, keepAliveBytes: nat, limits: Limits)
    requires s.rate > 0 && Inv(s.queue) && OnTime(s, limits)
    ensures var r, now := Process(s, clock, keepAliveBytes), Max(s.lastTimestamp, clock);
            (r.ledger.paced + r.ledger.unpaced) - (s.ledger.paced + s.ledger.unpaced) ==
            Cost(r.ledger.sent, s.accountForAudio) - Cost(s.ledger.sent, s.accountForAudio) +
            if now >= s.lastSendTime + 500_000 && s.seenFirstPacket then keepAliveBytes else 0
  {
    hide Inv, PayUpTo, SendLoop, OnTime, NextSendTime, Cost, DebtCap;
    ClockOnTime(s, clock, limits);
    var now := Clock(s, clock).lastTimestamp;
    var s1 := KeepAlive(Clock(s, clock), keepAliveBytes, now);
    SameOnTime(Clock(s, clock), s1, limits);
    var target := NextSendTime(s1);
    PayingKeeps(s1, now);
    PayingKeeps(s1, target);
    PayingCharges(s1, now);
    PayingCharges(s1, target);
    SameOnTime(s1, PayUpTo(s1, target), limits);
    if !s1.paused {
      LoopCharges(PayUpTo(s1, target), target, now, CIRCUIT_BREAKER_THRESHOLD, limits);
    }
  }

  /** No part of the debt is paid for the time of a pause: the process time jumps over it. Only
      leaving congestion pays for the time since the last update. */
  lemma PausesEarnNothing(s: Pacer, clock: int, congested: bool)
    ensures var r := Resume(Pause(s, clock), clock);
            r.mediaDebt == s.mediaDebt && r.ledger == s.ledger && r.lastProcessTime == r.lastTimestamp
    ensures Pause(s, clock).lastProcessTime == s.lastProcessTime && Pause(s, clock).ledger == s.ledger
    ensures var r := Resume(s, clock);
            r.mediaDebt == s.mediaDebt && r.ledger == s.ledger &&
            r.lastProcessTime == if s.paused then Max(s.lastTimestamp, clock) else s.lastProcessTime
    ensures var r := SetCongested(s, clock, congested);
            if s.congested && !congested then
              r.lastProcessTime == Max(s.lastProcessTime, Max(s.lastTimestamp, clock))
            else r == s.(congested := congested)
  {
  }

  // ---------------------------------------------------------------------------
  // The flags

  /** What was last said about pausing, congestion and packets. */
  datatype Flags = Flags(paused: bool, congested: bool, seenFirstPacket: bool)

  function FlagsOf(s: Pacer): Flags {
    Flags(s.paused, s.congested, s.seenFirstPacket)
  }

  function Said(f: Flags, events: seq<Event>): Flags
    decreases |events|
  {
    if events == [] then f
    else
      var n := |events| - 1;
      var before := Said(f, events[..n]);
      match events[n]
      case Paused(_) => before.(paused := true)
      case Resumed(_) => before.(paused := false)
      case CongestionSet(_, congested) => before.(congested := congested)
      case PacketEnqueued(_, _) => before.(seenFirstPacket := true)
      case Processed(_, _) => before
      case StreamRemoved(_) => before
  }

  lemma {:induction false} SendLoopFlags(s: Pacer, target: int, now: int, fuel: nat)
    requires s.rate > 0 && Inv(s.queue)
    ensures FlagsOf(SendLoop(s, target, now, fuel)) == FlagsOf(s)
    ensures SendLoop(s, target, now, fuel).queue.paused == s.queue.paused
    decreases fuel
  {
    hide Inv, NextSendTime, UnpacedTime, Pop, PayUpTo;
    if fuel != 0 && !Withheld(s, target, now) {
      PopInv(s.queue);
      var s1 := Released(s, now);
      var next := NextSendTime(s1);
      if next <= now {
        PayingKeeps(s1, next);
        SendLoopFlags(PayUpTo(s1, next), next, now, fuel - 1);
      }
    }
  }

  lemma ProcessFlags(s: Pacer, clock: int, keepAliveBytes: nat)
    requires s.rate > 0 && Inv(s.queue)
    ensures var r := Process(s, clock, keepAliveBytes);
            FlagsOf(r) == FlagsOf(s) && r.queue.paused == s.queue.paused
  {
    hide Inv, NextSendTime, SendLoop, PayUpTo;
    var s1 := KeepAlive(Clock(s, clock), keepAliveBytes, Clock(s, clock).lastTimestamp);
    var target := NextSendTime(s1);
    PayingKeeps(s1, target);
    PayingKeeps(s1, s1.lastTimestamp);
    SendLoopFlags(PayUpTo(s1, target), target, s1.lastTimestamp, CIRCUIT_BREAKER_THRESHOLD);
  }

  /** A step does to the flags what the event says, and the queue is paused with the pacer. */
  lemma StepFlags(s: Pacer, e: Event, origin: int)
    requires PacerInv(s, origin)
    ensures FlagsOf(Step(s, e)) == Said(FlagsOf(s), [e])
    ensures s.queue.paused == s.paused ==> Step(s, e).queue.paused == Step(s, e).paused
  {
    hide Inv, Books, Bounded, Push, RemoveSsrc, NextSendTime, SendLoop, PayUpTo, Process;
    assert [e][..0] == [] && Said(FlagsOf(s), []) == FlagsOf(s);
    match e
    case PacketEnqueued(clock, packet) =>
      var s0 := Clock(s, clock);
      PayingKeeps(s0, Min(s0.lastTimestamp, NextSendTime(s0)));
      PushEffect(s.queue, s0.lastTimestamp, packet);
    case Processed(clock, keepAliveBytes) => ProcessFlags(s, clock, keepAliveBytes);
    case Paused(clock) =>
    case Resumed(clock) =>
    case CongestionSet(clock, congested) => PayingKeeps(Clock(s, clock), Clock(s, clock).lastTimestamp);
    case StreamRemoved(ssrc) => RemoveSsrcEffect(s.queue, ssrc);
  }

  lemma {:induction false} SaidInTurn(f: Flags, e: Event, events: seq<Event>)
    ensures Said(f, [e] + events) == Said(Said(f, [e]), events)
    decreases |events|
  {
    if events == [] {
      assert [e] + [] == [e];
    } else {
      var n := |events| - 1;
      SaidInTurn(f, e, events[..n]);
      assert ([e] + events)[..n + 1] == [e] + events[..n];
    }
  }

  /** Over every run the pacer is paused, congested and started as the last events about it say. */
  lemma {:induction false} RunFlags(s: Pacer, events: seq<Event>, origin: int)
    requires PacerInv(s, origin)
    ensures FlagsOf(Run(s, events, origin)) == Said(FlagsOf(s), events)
    ensures s.queue.paused == s.paused ==> Run(s, events, origin).queue.paused == Run(s, events, origin).paused
    decreases |events|
  {
    hide PacerInv, Step, FlagsOf, Said;
    if events == [] {
      NothingSaid(FlagsOf(s));
    } else {
      StepInv(s, events[0], origin);
      PositiveRate(s, origin);
      StepFlags(s, events[0], origin);
      RunFlags(Step(s, events[0]), events[1..], origin);
      SaidInTurn(FlagsOf(s), events[0], events[1..]);
      assert [events[0]] + events[1..] == events;
    }
  }

  lemma NothingSaid(f: Flags)
    ensures Said(f, []) == f
  {
  }

  lemma {:induction false} RunOnTime(s: Pacer, events: seq<Event>, limits: Limits, origin: int)
    requires PacerInv(s, origin) && OnTime(s, limits)
    ensures OnTime(Run(s, events, origin), limits)
    decreases |events|
  {
    hide PacerInv, OnTime, Step;
    if events != [] {
      StepInv(s, events[0], origin);
      PositiveRate(s, origin);
      StepOnTime(s, events[0], limits, origin);
      RunOnTime(Step(s, events[0]), events[1..], limits, origin);
    }
  }

  /** So on every run from a new pacer, a call outside a pause sends all that is not paced. */
  lemma UnpacedNeverWait(now: int, prioritizeAudio: bool, limits: Limits, rate: int, burst: nat, account: bool,
                         events: seq<Event>, clock: int, keepAliveBytes: nat)
    requires rate > 0
    ensures PacerInv(Start(now, Initial(now, prioritizeAudio, TtlsOf(limits)), rate, burst, account), now)
    ensures var s := Run(Start(now, Initial(now, prioritizeAudio, TtlsOf(limits)), rate, burst, account), events, now);
            var r := Process(s, clock, keepAliveBytes);
            !s.paused ==>
              Extends(s.ledger.sent, r.ledger.sent) &&
              (r.queue.sizePackets + BREAKER <= s.queue.sizePackets ||
               forall k: nat, o: Level, y ::
                 (y in Deque(r.queue, k, o) ==> !IsUnpaced(y.packet)) &&
                 (y in Deque(s.queue, k, o) && IsUnpaced(y.packet) ==>
                    y.packet in NewlySent(s, r) || (!y.packet.mediaType.Audio? && LimitPassed(s.queue, limits, y))))
  {
    hide Inv, Books, Bounded, Run, Process, OnTime, Deque, NewlySent, LimitPassed, IsUnpaced;
    var q := Initial(now, prioritizeAudio, TtlsOf(limits));
    StartInv(now, now, prioritizeAudio, TtlsOf(limits), rate, burst, account);
    var start := Start(now, q, rate, burst, account);
    StartOnTime(now, prioritizeAudio, limits, rate, burst, account);
    RunOnTime(start, events, limits, now);
    var s := Run(start, events, now);
    if !s.paused {
      UnpacedAreSent(s, clock, keepAliveBytes, limits);
    }
  }

  lemma StartOnTime(now: int, prioritizeAudio: bool, limits: Limits, rate: int, burst: nat, account: bool)
    ensures OnTime(Start(now, Initial(now, prioritizeAudio, TtlsOf(limits)), rate, burst, account), limits)
  {
    assert forall k: nat, o: Level :: Deque(Initial(now, prioritizeAudio, TtlsOf(limits)), k, o) == [];
  }

  // ---------------------------------------------------------------------------
  // Media

  /** How long the debt holds a media packet back: not at all while it drains within the burst
      interval, of at most 63000 bytes; else until it has drained. */
  function Wait(s: Pacer): int
    requires s.rate > 0
  {
    var drain := s.mediaDebt * MICROBITS_PER_BYTE / s.rate;
    if drain < Min(s.burstInterval, 63_000 * MICROBITS_PER_BYTE / s.rate) then 0 else drain
  }

  /** The wait is over at `now`. If it ends just then and no burst is allowed, rounding must
      not have left a debt of a microsecond or more. */
  predicate WaitOver(s: Pacer, now: int)
    requires s.rate > 0
  {
    var due := s.lastProcessTime + Wait(s);
    due < now ||
    (due == now &&
     (s.burstInterval > 0 ||
      MICROBITS_PER_BYTE * (s.mediaDebt - Min(s.mediaDebt, BytesAt(s.rate, Wait(s)))) < s.rate))
  }

  /** If only media is queued, outside pause and congestion, a call sends exactly if the wait is
      over, and then begins with the packet that is next in the queue. */
  lemma MediaGoesOutIff(s: Pacer, clock: int, keepAliveBytes: nat, limits: Limits, origin: int)
    requires PacerInv(s, origin) && OnTime(s, limits) && !s.paused && !s.congested
    requires s.queue.sizePackets != 0 && OnlyMedia(s.queue)
    requires var now := Max(s.lastTimestamp, clock); now < s.lastSendTime + 500_000 || keepAliveBytes == 0
    ensures var r, now := Process(s, clock, keepAliveBytes), Max(s.lastTimestamp, clock);
            Extends(s.ledger.sent, r.ledger.sent) && CanServe(s.queue) &&
            (NewlySent(s, r) != [] <==> WaitOver(s, now)) &&
            (NewlySent(s, r) != [] ==> NewlySent(s, r)[0] == QueueRuns.Next(s.queue).packet)
  {
    hide Inv, Bounded, OnTime, OnlyMedia, UnpacedTime, SendLoop, CanServe;
    UnpacedTimeMeans(s.queue);
    PopShrinks(s.queue);
    ClockOnTime(s, clock, limits);
    var now := Max(s.lastTimestamp, clock);
    var s1 := KeepAlive(Clock(s, clock), keepAliveBytes, now);
    SameOnTime(Clock(s, clock), s1, limits);
    assert s1 == Clock(s, clock).(lastSendTime := s1.lastSendTime);
    NextMediaTime(s1);
    var target := NextSendTime(s1);
    if now < target {
      PayingKeeps(s1, now);
    } else {
      PayingKeeps(s1, target);
      var s2 := PayUpTo(s1, target);
      SameOnTime(s1, s2, limits);
      WithheldAt(s1, target, now);
      FirstSent(s2, target, now, CIRCUIT_BREAKER_THRESHOLD, limits);
    }
  }

  /** The next send time with only media queued. */
  lemma NextMediaTime(s: Pacer)
    requires s.rate > 0 && !s.paused && !s.congested && s.seenFirstPacket && s.queue.sizePackets != 0
    requires UnpacedTime(s.queue).None?
    ensures NextSendTime(s) == Min(s.lastProcessTime + Wait(s), s.lastSendTime + 500_000)
  {
    hide UnpacedTime;
  }

  /** Having paid up to the target, the packet is withheld only in the case `WaitOver` names. */
  lemma WithheldAt(s: Pacer, target: int, now: int)
    requires s.rate > 0 && 0 <= s.mediaDebt <= DebtCap(s.rate) && s.burstInterval >= 0
    requires !s.congested && s.queue.sizePackets != 0 && UnpacedTime(s.queue).None?
    requires target == s.lastProcessTime + Wait(s) <= now
    ensures Withheld(PayUpTo(s, target), target, now) <==> !WaitOver(s, now)
  {
    hide UnpacedTime, BytesAt, DebtCap;
    CappedDebtDrainsInTime(s.mediaDebt, s.rate);
    var wait := Wait(s);
    assert 0 <= wait <= MAX_ELAPSED_TIME;
    var s2 := PayUpTo(s, target);
    assert s2.mediaDebt == s.mediaDebt - Min(s.mediaDebt, BytesAt(s.rate, wait));
    PaymentWorth(s, wait);
    DrainBelow(s2.mediaDebt, s.rate, 1);
  }

  /** The loop starts with the next packet of the queue, unless that is withheld. */
  lemma FirstSent(s: Pacer, target: int, now: int, fuel: nat, limits: Limits)
    requires s.rate > 0 && Inv(s.queue) && OnTime(s, limits) && !s.paused && now == s.lastTimestamp && fuel > 0
    requires s.queue.sizePackets != 0
    ensures CanServe(s.queue)
    ensures var r := SendLoop(s, target, now, fuel);
            Extends(s.ledger.sent, r.ledger.sent) &&
            (if Withheld(s, target, now) then NewlySent(s, r) == []
             else NewlySent(s, r) != [] && NewlySent(s, r)[0] == QueueRuns.Next(s.queue).packet)
  {
    hide Inv, Released, PayUpTo, NextSendTime, OnTime, Withheld, CanServe;
    PopShrinks(s.queue);
    if !Withheld(s, target, now) {
      OneRelease(s, now, limits);
      var s1 := Released(s, now);
      var next := NextSendTime(s1);
      if next <= now {
        PayingKeeps(s1, next);
        SameOnTime(s1, PayUpTo(s1, next), limits);
        SendLoopServes(PayUpTo(s1, next), next, now, fuel - 1, limits);
      }
    }
  }

  // ---------------------------------------------------------------------------
  // Congestion

  /** Under congestion whatever is sent is audio or a retransmission. */
  lemma CongestedSendsOnlyUnpaced(s: Pacer, clock: int, keepAliveBytes: nat, limits: Limits)
    requires s.rate > 0 && Inv(s.queue) && OnTime(s, limits) && !s.paused && s.congested
    ensures var r := Process(s, clock, keepAliveBytes);
            Extends(s.ledger.sent, r.ledger.sent) && forall p :: p in NewlySent(s, r) ==> IsUnpaced(p)
  {
    hide Inv, PayUpTo, SendLoop, OnTime, NextSendTime;
    ClockOnTime(s, clock, limits);
    var s1 := KeepAlive(Clock(s, clock), keepAliveBytes, Clock(s, clock).lastTimestamp);
    SameOnTime(Clock(s, clock), s1, limits);
    var now, target := s1.lastTimestamp, NextSendTime(s1);
    PayingKeeps(s1, now);
    PayingKeeps(s1, target);
    SameOnTime(s1, PayUpTo(s1, target), limits);
    CongestedLoop(PayUpTo(s1, target), target, now, CIRCUIT_BREAKER_THRESHOLD, limits);
  }

  lemma {:induction false} CongestedLoop(s: Pacer, target: int, now: int, fuel: nat, limits: Limits)
    requires s.rate > 0 && Inv(s.queue) && OnTime(s, limits) && !s.paused && s.congested && now == s.lastTimestamp
    ensures var r := SendLoop(s, target, now, fuel);
            Extends(s.ledger.sent, r.ledger.sent) && forall p :: p in NewlySent(s, r) ==> IsUnpaced(p)
    decreases fuel
  {
    hide Inv, Released, PayUpTo, UnpacedTime, NextSendTime, OnTime;
    if fuel != 0 && !Withheld(s, target, now) {
      OneRelease(s, now, limits);
      PopShrinks(s.queue);
      PacedIsMedia(s.queue);
      var s1 := Released(s, now);
      var next := NextSendTime(s1);
      if next <= now {
        PayingKeeps(s1, next);
        SameOnTime(s1, PayUpTo(s1, next), limits);
        CongestedLoop(PayUpTo(s1, next), next, now, fuel - 1, limits);
        SentInTurn(s, s1, SendLoop(s, target, now, fuel), QueueRuns.Next(s.queue).packet);
      }
    }
  }

  lemma SentInTurn(s: Pacer, s1: Pacer, r: Pacer, packet: Packet)
    requires s1.ledger.sent == s.ledger.sent + [packet] && Extends(s1.ledger.sent, r.ledger.sent)
    ensures Extends(s.ledger.sent, r.ledger.sent)
    ensures NewlySent(s, r) == [packet] + NewlySent(s1, r)
  {
    var a, b, c := s.ledger.sent, s1.ledger.sent, r.ledger.sent;
    assert c[..|a|] == b[..|a|];
  }

  /** The next call is never asked for later than the next keep-alive is due; and at rest, that is in
      a pause, or with nothing but media waiting under congestion, or before the first packet,
      exactly then. With nothing queued it is half a second after the last call at the latest. */
  lemma HeartbeatInTime(s: Pacer, limits: Limits)
    requires s.rate > 0 && Inv(s.queue) && OnTime(s, limits)
    ensures NextSendTime(s) <= Max(s.lastTimestamp, s.lastSendTime + 500_000)
    ensures s.paused || (OnlyMedia(s.queue) && (s.congested || !s.seenFirstPacket)) ==>
              NextSendTime(s) == s.lastSendTime + 500_000
    ensures !s.paused && !s.congested && s.seenFirstPacket && s.queue.sizePackets == 0 ==>
              NextSendTime(s) == Min(s.lastProcessTime, s.lastSendTime) + 500_000
  {
    hide Inv, UnpacedTime, OnlyMedia;
    UnpacedTimeMeans(s.queue);
  }
}
