/**
 What the levels of the pacer's queue mean for the media: which packets go before which,
 and which age limit applies to which packet.
 */
module QueueMedia {
  import opened Options
  import opened QueueModel
  import opened QueueAccounting
  import opened QueueInvariant
  import opened QueueService
  import opened QueueRuns

  // ---------------------------------------------------------------------------
  // Order of service

  predicate IsVideoRetransmission(packet: Packet) {
    packet.mediaType.Retransmission? && packet.original == Some(VideoOriginal)
  }

  /** Packet `x` may leave while `y` waits: audio goes first, then retransmissions (those of
      video last, if they are told apart), then video and redundancy, and padding at the end. */
  predicate MayLeaveBefore(x: Packet, y: Packet, prioritizeAudioRetransmission: bool) {
    (y.mediaType.Audio? ==> x.mediaType.Audio?) &&
    (y.mediaType.Retransmission? ==> x.mediaType.Audio? || x.mediaType.Retransmission?) &&
    (prioritizeAudioRetransmission && y.mediaType.Retransmission? && !IsVideoRetransmission(y) ==>
       !IsVideoRetransmission(x)) &&
    (y.mediaType.Video? || y.mediaType.ForwardErrorCorrection? ==> !x.mediaType.Padding?)
  }

  /** Whatever `Pop` hands out may leave before every packet that is queued. */
  lemma PopServesByMedia(s: State, k: nat, o: Level, y: QueuedPacket)
    requires Inv(s) && y in Deque(s, k, o)
    ensures CanServe(s) && Pop(s).1.Some?
    ensures MayLeaveBefore(Pop(s).1.value.packet, y.packet, s.prioritizeAudioRetransmission)
  {
    hide Accounts, NodesOrdered, StreamWeight, UpdateTop, RingsOk, TopOk, Pop;
    PopRefinesSpec(s);
    InvCanServe(s);
    FiledAtLevel(s, k, o, y);
  }

  lemma FiledAtLevel(s: State, k: nat, o: Level, y: QueuedPacket)
    requires Inv(s) && y in Deque(s, k, o)
    ensures LevelOf(s.prioritizeAudioRetransmission, y.packet) == o && y.packet.ssrc == k
  {
    assert StreamFiled(s.prioritizeAudioRetransmission, k, s.streams[k]);
  }

  // ---------------------------------------------------------------------------
  // Age limits

  /** The limits the queue is made with. */
  datatype Limits = Limits(audioRetransmission: Option<int>, videoRetransmission: Option<int>, video: Option<int>)

  /** The limit that applies to a packet. Audio and padding have none. */
  function LimitOf(limits: Limits, prioritizeAudioRetransmission: bool, packet: Packet): Option<int> {
    match packet.mediaType
    case Audio => None
    case Padding => None
    case Video => limits.video
    case ForwardErrorCorrection => limits.video
    case Retransmission =>
      if prioritizeAudioRetransmission && packet.original == Some(VideoOriginal) then limits.videoRetransmission
      else limits.audioRetransmission
  }

  function TtlsOf(limits: Limits): Ttls {
    TtlPerLevel(limits.audioRetransmission, limits.videoRetransmission, limits.video)
  }

  lemma {:induction false} DropOldLoses(d: seq<QueuedPacket>, now: int, ttl: int, q: QueuedPacket)
    requires q in d && q !in DropOld(d, now, ttl)
    ensures now - q.enqueueTime > ttl
  {
    if q in d[1..] {
      DropOldLoses(d[1..], now, ttl, q);
    }
  }

  lemma KeptLoses(d: seq<QueuedPacket>, o: Level, p: Level, now: int, ttl: Option<int>, q: QueuedPacket)
    requires q in d && q !in Kept(d, o, p, now, ttl)
    ensures o == p && ttl.Some? && now - q.enqueueTime > ttl.value
  {
    if o == p && ttl.Some? {
      DropOldLoses(d, now, ttl.value, q);
    }
  }

  /** By which clock an event judges ages. */
  function ClockOf(s: State, e: Event): int {
    if e.Pushed? then e.now else s.lastUpdateTime
  }

  /** The packet is the next to be handed out and `Pop` is called, or its stream is removed. */
  predicate TakenOut(s: State, e: Event, q: QueuedPacket) {
    (e.PopCalled? && CanServe(s) && q == Next(s)) || (e.SsrcRemoved? && e.ssrc == q.packet.ssrc)
  }

  predicate PastLimit(s: State, e: Event, limits: Limits, q: QueuedPacket) {
    var limit := LimitOf(limits, s.prioritizeAudioRetransmission, q.packet);
    limit.Some? && ClockOf(s, e) - q.enqueueTime > limit.value
  }

  /** A packet leaves the queue only by being taken out, or by being past the limit that applies
      to its own medium. */
  lemma StepLosesOnly(s: State, e: Event, limits: Limits, k: nat, o: Level, q: QueuedPacket)
    requires Inv(s) && s.timeToLive == TtlsOf(limits)
    requires q in Deque(s, k, o) && q !in Deque(Step(s, e), k, o)
    ensures TakenOut(s, e, q) || PastLimit(s, e, limits, q)
  {
    hide Core, RingsOk, TopOk, Push, Pop, RemoveSsrc, Kept, Deque;
    FiledAtLevel(s, k, o, q);
    match e
    case Pushed(now, packet) =>
      PushEffect(s, now, packet);
      var p := LevelOf(s.prioritizeAudioRetransmission, packet);
      KeptLoses(Deque(s, k, o), o, p, now, s.timeToLive[p], q);
    case PopCalled => InvCanServe(s); PopLosesOnly(s, limits, k, o, q);
    case TimeUpdated(now) => AdvanceCore(s, now, []);
    case PauseSet(paused, now) => SetPauseInv(s, paused, now);
    case SsrcRemoved(ssrc) =>
      RemoveSsrcEffect(s, ssrc);
      if k != ssrc {
        KeptLoses(Deque(s, k, o), o, o, s.lastUpdateTime, s.timeToLive[o], q);
      }
  }

  lemma NotTheHead(d: seq<QueuedPacket>, q: QueuedPacket)
    requires q in d
    ensures q == d[0] || q in d[1..]
  {
  }

  lemma PopLosesOnly(s: State, limits: Limits, k: nat, o: Level, q: QueuedPacket)
    requires Inv(s) && s.timeToLive == TtlsOf(limits)
    requires s.sizePackets == 0 || CanServe(s)
    requires q in Deque(s, k, o) && q !in Deque(Pop(s).0, k, o)
    ensures TakenOut(s, PopCalled, q) || PastLimit(s, PopCalled, limits, q)
  {
    hide Core, RingsOk, Pop, PopCore, Kept;
    InvCanServe(s);
    FiledAtLevel(s, k, o, q);
    PopRefinesSpec(s);
    if q != Next(s) {
      InvRings(s);
      PopCoreEffect(s);
      var c := PopCore(s);
      NotTheHead(Deque(s, k, o), q);
      KeptLoses(Deque(c, k, o), o, o, c.lastUpdateTime, c.timeToLive[o], q);
    }
  }

  /** Over every run from a new queue with these limits: the last event costs the queue only
      packets that are taken out or past the limit of their medium. */
  lemma LeavesOnlyPastLimit(created: int, prioritizeAudio: bool, limits: Limits, events: seq<Event>, k: nat, o: Level,
                            q: QueuedPacket)
    requires events != []
    ensures Inv(Initial(created, prioritizeAudio, TtlsOf(limits)))
    ensures var start := Initial(created, prioritizeAudio, TtlsOf(limits));
            var s, e := Run(start, events[..|events| - 1]), events[|events| - 1];
            q in Deque(s, k, o) && q !in Deque(Run(start, events), k, o) ==>
              TakenOut(s, e, q) ||
              (var limit := LimitOf(limits, prioritizeAudio, q.packet);
               limit.Some? && ClockOf(s, e) - q.enqueueTime > limit.value)
  {
    hide Core, RingsOk, TopOk, Step, LimitOf, TakenOut, ClockOf;
    var start := Initial(created, prioritizeAudio, TtlsOf(limits));
    InitialInv(created, prioritizeAudio, TtlsOf(limits));
    var s, e := Run(start, events[..|events| - 1]), events[|events| - 1];
    RunNodes(start, events[..|events| - 1]);
    if q in Deque(s, k, o) && q !in Deque(Run(start, events), k, o) {
      StepLosesOnly(s, e, limits, k, o, q);
    }
  }

  // ---------------------------------------------------------------------------
  // Idle streams

  /** Every half second a push forgets the streams that are empty and were made more than half a
      second ago, and no others. */
  lemma PushForgetsIdle(s: State, now: int, packet: Packet)
    requires Inv(s)
    ensures var r := Push(s, now, packet);
            packet.ssrc in r.streams &&
            (if now - s.lastCullingTime > 500_000 then
               r.lastCullingTime == now &&
               (forall k :: k in r.streams ==>
                  (exists p: Level :: Deque(r, k, p) != []) || r.streams[k].lastEnqueueTime + 500_000 >= now) &&
               (forall k :: k in s.streams && k !in r.streams ==> s.streams[k].lastEnqueueTime + 500_000 < now)
             else r.lastCullingTime == s.lastCullingTime && forall k :: k in s.streams ==> k in r.streams)
  {
    hide Inv, AdvanceTo;
    var p := LevelOf(s.prioritizeAudioRetransmission, packet);
    var g := Register(s, now, packet.ssrc);
    var (s1, q) := BeforeAppend(s, now, packet);
    PurgeKeepsStreams(g, p, now);
    PurgeKeepsTimes(g, p, now);
    AdvanceKeeps(Purge(g, p, now), now);
    hide Purge;
    var a := Append(s1, q, p);
    assert Deque(a, packet.ssrc, p) != [];
    assert a.lastCullingTime == s.lastCullingTime;
    assert forall k :: k in s.streams ==> k in a.streams && a.streams[k].lastEnqueueTime == s.streams[k].lastEnqueueTime;
    assert Push(s, now, packet) == Cull(a, now);
    CullKeepsPending(a, now, packet.ssrc, p);
  }

  lemma CullKeepsPending(a: State, now: int, ssrc: nat, p: Level)
    requires ssrc in a.streams && Deque(a, ssrc, p) != []
    ensures var r := Cull(a, now);
            ssrc in r.streams && (forall k :: k in r.streams ==> k in a.streams && r.streams[k] == a.streams[k]) &&
            (now - a.lastCullingTime > 500_000 ==>
               r.lastCullingTime == now &&
               (forall k :: k in r.streams ==>
                  (exists o: Level :: Deque(r, k, o) != []) || r.streams[k].lastEnqueueTime + 500_000 >= now) &&
               (forall k :: k in a.streams && k !in r.streams ==> a.streams[k].lastEnqueueTime + 500_000 < now)) &&
            (now - a.lastCullingTime <= 500_000 ==> r == a)
  {
    var r := Cull(a, now);
    if now - a.lastCullingTime > 500_000 {
      forall k | k in r.streams && r.streams[k].lastEnqueueTime + 500_000 < now
        ensures exists o: Level :: Deque(r, k, o) != []
      {
        var o: Level :| r.streams[k].levels[o] != [];
        assert Deque(r, k, o) != [];
      }
    }
  }

  lemma AdvanceKeeps(s: State, now: int)
    ensures AdvanceTo(s, now).streams == s.streams && AdvanceTo(s, now).lastCullingTime == s.lastCullingTime
  {
  }

  lemma {:induction false} DropExpiredKeepsTimes(s: State, ssrc: nat, p: Level, now: int, ttl: int)
    ensures var r := DropExpired(s, ssrc, p, now, ttl);
            r.lastCullingTime == s.lastCullingTime &&
            forall k :: k in s.streams ==> r.streams[k].lastEnqueueTime == s.streams[k].lastEnqueueTime
    decreases |Deque(s, ssrc, p)|
  {
    var d := Deque(s, ssrc, p);
    if d != [] && now - d[0].enqueueTime > ttl {
      DropHeadDeque(s, ssrc, p, ssrc, p);
      DropExpiredKeepsTimes(DropHead(s, ssrc, p), ssrc, p, now, ttl);
    }
  }

  lemma {:induction false} PurgeFromKeepsTimes(s: State, p: Level, i: nat, now: int, ttl: int)
    requires i <= |s.rings[p]|
    ensures var r := PurgeFrom(s, p, i, now, ttl);
            r.lastCullingTime == s.lastCullingTime && r.streams.Keys == s.streams.Keys &&
            forall k :: k in s.streams ==> r.streams[k].lastEnqueueTime == s.streams[k].lastEnqueueTime
    decreases |s.rings[p]| - i
  {
    hide DropExpired, PurgeFrom;
    PurgeStep(s, p, i, now, ttl);
    if i < |s.rings[p]| {
      var s1 := DropExpired(s, s.rings[p][i], p, now, ttl);
      DropExpiredKeepsTimes(s, s.rings[p][i], p, now, ttl);
      if Deque(s1, s.rings[p][i], p) == [] {
        PurgeFromKeepsTimes(s1.(rings := s1.rings[p := RemoveAt(s1.rings[p], i)]), p, i, now, ttl);
      } else {
        PurgeFromKeepsTimes(s1, p, i + 1, now, ttl);
      }
    }
  }

  lemma PurgeKeepsTimes(s: State, p: Level, now: int)
    ensures var r := Purge(s, p, now);
            r.lastCullingTime == s.lastCullingTime && r.streams.Keys == s.streams.Keys &&
            forall k :: k in s.streams ==> r.streams[k].lastEnqueueTime == s.streams[k].lastEnqueueTime
  {
    if s.timeToLive[p].Some? {
      PurgeFromKeepsTimes(s, p, 0, now, s.timeToLive[p].value);
    }
  }
}
