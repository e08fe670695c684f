/**
 PrioritizedPacketQueue as the program has it: an object whose methods update
 counters, deques and round-robin tables in place. Each method is proved to make
 exactly the state change of its function in QueueModel.
 */
module PacketQueue {
  import opened Options
  import opened QueueModel
  import opened QueueInvariant
  import opened QueueService

  class PrioritizedPacketQueue {
    const prioritizeAudioRetransmission: bool
    const timeToLivePerPrio: Ttls
    var queueTimeSum: int
    var pauseTimeSum: int
    var sizePackets: int
    var sizePacketsPerMediaType: PerMedia
    var sizePayload: int
    var lastUpdateTime: int
    var paused: bool
    var lastCullingTime: int
    var streams: map<nat, StreamQueue>
    var streamsByPrio: Rings
    var topActivePrioLevel: int
    var enqueueTimes: seq<Node>
    var nextNode: nat

    /** The whole state as a value. */
    function Snapshot(): State
      reads this
    {
      State(prioritizeAudioRetransmission, timeToLivePerPrio, queueTimeSum, pauseTimeSum, sizePackets,
            sizePacketsPerMediaType, sizePayload, lastUpdateTime, paused, lastCullingTime, streams,
            streamsByPrio, topActivePrioLevel, enqueueTimes, nextNode)
    }

    ghost predicate Valid()
      reads this
    {
      Inv(Snapshot())
    }

    constructor (creationTime: int, prioritizeAudioRetransmission: bool, audioRetransmissionTtl: Option<int>,
                 videoRetransmissionTtl: Option<int>, videoTtl: Option<int>)
      ensures Valid()
      ensures Snapshot() == Initial(creationTime, prioritizeAudioRetransmission,
                                    TtlPerLevel(audioRetransmissionTtl, videoRetransmissionTtl, videoTtl))
    {
      this.prioritizeAudioRetransmission := prioritizeAudioRetransmission;
      timeToLivePerPrio := TtlPerLevel(audioRetransmissionTtl, videoRetransmissionTtl, videoTtl);
      queueTimeSum, pauseTimeSum, sizePackets, sizePayload := 0, 0, 0, 0;
      sizePacketsPerMediaType := [0, 0, 0, 0, 0];
      lastUpdateTime, lastCullingTime, paused := creationTime, creationTime, false;
      streams, streamsByPrio, topActivePrioLevel := map[], [[], [], [], [], []], -1;
      enqueueTimes, nextNode := [], 0;
      new;
      InitialInv(creationTime, prioritizeAudioRetransmission, timeToLivePerPrio);
    }

    method UpdateAverageQueueTime(now: int)
      modifies this
      ensures Snapshot() == AdvanceTo(old(Snapshot()), now)
      ensures streams == old(streams)
    {
      if now == lastUpdateTime {
        return;
      }
      var delta := now - lastUpdateTime;
      if paused {
        pauseTimeSum := pauseTimeSum + delta;
      } else {
        queueTimeSum := queueTimeSum + delta * sizePackets;
      }
      lastUpdateTime := now;
    }

    method SetPauseState(paused: bool, now: int)
      requires Valid()
      modifies this
      ensures Valid()
      ensures Snapshot() == SetPause(old(Snapshot()), paused, now)
    {
      SetPauseInv(Snapshot(), paused, now);
      UpdateAverageQueueTime(now);
      this.paused := paused;
    }

    method DequeuePacketInternal(q: QueuedPacket) returns (timeInSendQueue: int)
      modifies this
      ensures Snapshot() == Unlink(old(Snapshot()), q)
      ensures timeInSendQueue == UnpausedWait(old(Snapshot()), q)
    {
      sizePackets := sizePackets - 1;
      var t := MediaIndex(q.packet.mediaType);
      sizePacketsPerMediaType := sizePacketsPerMediaType[t := sizePacketsPerMediaType[t] - 1];
      sizePayload := sizePayload - PacketSize(q.packet);
      timeInSendQueue := lastUpdateTime - q.enqueueTime - pauseTimeSum;
      queueTimeSum := queueTimeSum - timeInSendQueue;
      enqueueTimes := Erase(enqueueTimes, q.node);
    }

    /** `StreamQueue::DequeuePacket` on the stream of an SSRC. */
    method DequeuePacket(ssrc: nat, level: Level) returns (q: QueuedPacket)
      requires Deque(Snapshot(), ssrc, level) != []
      modifies this`streams
      ensures q == Deque(old(Snapshot()), ssrc, level)[0]
      ensures streams == old(streams)[ssrc := WithoutHead(old(streams)[ssrc], level)]
    {
      var stream := streams[ssrc];
      q := stream.levels[level][0];
      stream := stream.(levels := stream.levels[level := stream.levels[level][1..]]);
      if q.packet.keyFrame {
        stream := stream.(keyFramePackets := stream.keyFramePackets - 1);
      }
      streams := streams[ssrc := stream];
    }

    method PurgeOldPacketsAtPriorityLevel(level: Level, now: int)
      modifies this
      ensures Snapshot() == Purge(old(Snapshot()), level, now)
    {
      if timeToLivePerPrio[level].None? {
        return;
      }
      var ttl := timeToLivePerPrio[level].value;
      var i := 0;
      while i < |streamsByPrio[level]|
        invariant i <= |streamsByPrio[level]|
        invariant PurgeFrom(Snapshot(), level, i, now, ttl) == PurgeFrom(old(Snapshot()), level, 0, now, ttl)
        decreases |streamsByPrio[level]| - i
      {
        var ssrc := streamsByPrio[level][i];
        PurgeStream(ssrc, level, now, ttl);
        if Deque(Snapshot(), ssrc, level) == [] {
          streamsByPrio := streamsByPrio[level := RemoveAt(streamsByPrio[level], i)];
        } else {
          i := i + 1;
        }
      }
    }

    /** The inner loop: drop the leading packets of one stream while they are too old. */
    method PurgeStream(ssrc: nat, level: Level, now: int, ttl: int)
      modifies this
      ensures Snapshot() == DropExpired(old(Snapshot()), ssrc, level, now, ttl)
    {
      while Deque(Snapshot(), ssrc, level) != [] && now - Deque(Snapshot(), ssrc, level)[0].enqueueTime > ttl
        invariant DropExpired(Snapshot(), ssrc, level, now, ttl) ==
                  DropExpired(old(Snapshot()), ssrc, level, now, ttl)
        decreases |Deque(Snapshot(), ssrc, level)|
      {
        ghost var before := Snapshot();
        var q := DequeuePacket(ssrc, level);
        var _ := DequeuePacketInternal(q);
        assert Snapshot() == DropHead(before, ssrc, level);
        DropHeadDeque(before, ssrc, level, ssrc, level);
      }
    }

    method MaybeUpdateTopPrioLevel()
      requires -1 <= topActivePrioLevel < NUM_LEVELS
      modifies this
      ensures Snapshot() == UpdateTop(old(Snapshot()))
    {
      if topActivePrioLevel != -1 && streamsByPrio[topActivePrioLevel] != [] {
        return;
      }
      var i := 0;
      var found := false;
      while i < NUM_LEVELS && !found
        invariant 0 <= i <= NUM_LEVELS
        invariant if found then Snapshot() == FindTop(old(Snapshot()), 0)
                  else FindTop(Snapshot(), i) == FindTop(old(Snapshot()), 0)
        decreases NUM_LEVELS - i, !found
      {
        PurgeOldPacketsAtPriorityLevel(i, lastUpdateTime);
        if streamsByPrio[i] != [] {
          topActivePrioLevel := i;
          found := true;
        } else {
          i := i + 1;
        }
      }
      if sizePackets == 0 {
        topActivePrioLevel := -1;
      }
    }

    method Push(enqueueTime: int, packet: Packet)
      requires Valid()
      modifies this
      ensures Valid()
      ensures Snapshot() == QueueModel.Push(old(Snapshot()), enqueueTime, packet)
    {
      hide Inv, Purge, AdvanceTo, Append, Cull, Register;
      PushEffect(Snapshot(), enqueueTime, packet);
      ghost var s0 := Snapshot();
      var node := RegisterTime(packet.ssrc, enqueueTime);
      var level := LevelOf(prioritizeAudioRetransmission, packet);
      PurgeKeepsStreams(Snapshot(), level, enqueueTime);
      PurgeOldPacketsAtPriorityLevel(level, enqueueTime);
      UpdateAverageQueueTime(enqueueTime);
      var q := QueuedPacket(packet, enqueueTime - pauseTimeSum, node);
      assert (Snapshot(), q) == BeforeAppend(s0, enqueueTime, packet);
      EnqueuePacket(q, level);
      CullIdleStreams(enqueueTime);
    }

    /** Find or create the stream, and take down the enqueue time. */
    method RegisterTime(ssrc: nat, enqueueTime: int) returns (node: Node)
      modifies this
      ensures Snapshot() == Register(old(Snapshot()), enqueueTime, ssrc)
      ensures node == Node(old(nextNode), enqueueTime) && ssrc in streams
    {
      if ssrc !in streams {
        streams := streams[ssrc := StreamQueue(NO_PACKETS, enqueueTime, 0)];
      }
      node := Node(nextNode, enqueueTime);
      enqueueTimes, nextNode := enqueueTimes + [node], nextNode + 1;
    }

    method CullIdleStreams(now: int)
      modifies this
      ensures Snapshot() == Cull(old(Snapshot()), now)
    {
      if now - lastCullingTime > CULLING_TIMEOUT {
        streams := map k | k in streams && !Idle(streams[k], now) :: streams[k];
        lastCullingTime := now;
      }
    }

    method EnqueuePacket(q: QueuedPacket, level: Level)
      requires q.packet.ssrc in streams
      modifies this
      ensures Snapshot() == Append(old(Snapshot()), q, level)
    {
      CountIn(q.packet);
      AddToStream(q, level);
    }

    method CountIn(packet: Packet)
      modifies this`sizePackets, this`sizePacketsPerMediaType, this`sizePayload
      ensures sizePackets == old(sizePackets) + 1 && sizePayload == old(sizePayload) + PacketSize(packet)
      ensures var t := MediaIndex(packet.mediaType);
              sizePacketsPerMediaType == old(sizePacketsPerMediaType)[t := old(sizePacketsPerMediaType)[t] + 1]
    {
      var t := MediaIndex(packet.mediaType);
      sizePackets := sizePackets + 1;
      sizePacketsPerMediaType := sizePacketsPerMediaType[t := sizePacketsPerMediaType[t] + 1];
      sizePayload := sizePayload + PacketSize(packet);
    }

    /** Append the packet to its stream, and enter the stream at the level if it was not pending
        there. */
    method AddToStream(q: QueuedPacket, level: Level)
      requires q.packet.ssrc in streams
      modifies this`streams, this`streamsByPrio, this`topActivePrioLevel
      ensures var stream := old(streams)[q.packet.ssrc];
              streams == old(streams)[q.packet.ssrc := stream.(
                levels := stream.levels[level := stream.levels[level] + [q]],
                keyFramePackets := stream.keyFramePackets + if q.packet.keyFrame then 1 else 0)] &&
              streamsByPrio == (if stream.levels[level] == []
                                then old(streamsByPrio)[level := old(streamsByPrio)[level] + [q.packet.ssrc]]
                                else old(streamsByPrio))
      ensures topActivePrioLevel ==
              if old(topActivePrioLevel) < 0 || level < old(topActivePrioLevel) then level else old(topActivePrioLevel)
    {
      var stream := streams[q.packet.ssrc];
      if q.packet.keyFrame {
        stream := stream.(keyFramePackets := stream.keyFramePackets + 1);
      }
      var firstPacketAtLevel := stream.levels[level] == [];
      stream := stream.(levels := stream.levels[level := stream.levels[level] + [q]]);
      streams := streams[q.packet.ssrc := stream];
      if firstPacketAtLevel {
        streamsByPrio := streamsByPrio[level := streamsByPrio[level] + [q.packet.ssrc]];
      }
      if topActivePrioLevel < 0 || level < topActivePrioLevel {
        topActivePrioLevel := level;
      }
    }

    method Pop() returns (popped: Option<Popped>)
      requires Valid()
      modifies this
      ensures Valid()
      ensures old(Snapshot()).sizePackets == 0 || CanServe(old(Snapshot()))
      ensures (Snapshot(), popped) == QueueModel.Pop(old(Snapshot()))
    {
      hide Core, RingsOk, UpdateTop;
      ghost var s0 := Snapshot();
      PopInv(s0);
      if sizePackets == 0 {
        return None;
      }
      var level := topActivePrioLevel;
      var ssrc := streamsByPrio[level][0];
      var q := DequeuePacket(ssrc, level);
      var timeInSendQueue := DequeuePacketInternal(q);
      assert Snapshot() == DropHead(s0, ssrc, level);
      streamsByPrio := streamsByPrio[level := streamsByPrio[level][1..]];
      if Deque(Snapshot(), ssrc, level) != [] {
        streamsByPrio := streamsByPrio[level := streamsByPrio[level] + [ssrc]];
        assert streamsByPrio == s0.rings[level := s0.rings[level][1..] + [ssrc]];
      } else {
        MaybeUpdateTopPrioLevel();
      }
      popped := Some(Popped(q.packet, timeInSendQueue));
    }

    method RemovePacketsForSsrc(ssrc: nat)
      requires Valid()
      modifies this
      ensures Valid()
      ensures Snapshot() == RemoveSsrc(old(Snapshot()), ssrc)
    {
      hide Core, RingsOk, UpdateTop, UnlinkAll, Without, Deregister;
      RemoveSsrcEffect(Snapshot(), ssrc);
      if ssrc in streams {
        var packetsByPrio := streams[ssrc].levels;
        streams := streams[ssrc := streams[ssrc].(levels := NO_PACKETS, keyFramePackets := 0)];
        ghost var s0 := Snapshot();
        var i := 0;
        while i < NUM_LEVELS
          invariant 0 <= i <= NUM_LEVELS
          invariant RemoveLevels(Snapshot(), ssrc, packetsByPrio, i) == RemoveLevels(s0, ssrc, packetsByPrio, 0)
          invariant topActivePrioLevel == old(topActivePrioLevel)
        {
          if packetsByPrio[i] != [] {
            RemoveLevel(i, packetsByPrio[i], ssrc);
          }
          i := i + 1;
        }
      }
      MaybeUpdateTopPrioLevel();
    }

    /** Forget the packets of one level and take the stream out of its table. */
    method RemoveLevel(level: Level, packets: seq<QueuedPacket>, ssrc: nat)
      modifies this
      ensures var s1 := UnlinkAll(old(Snapshot()), packets);
              Snapshot() == s1.(rings := s1.rings[level := Deregister(s1.rings[level], ssrc)])
      ensures topActivePrioLevel == old(topActivePrioLevel)
    {
      hide UnlinkAll, Without;
      EraseAll(packets);
      if |streamsByPrio[level]| == 1 {
        streamsByPrio := streamsByPrio[level := []];
      } else {
        var filtered := Filter(streamsByPrio[level], ssrc);
        streamsByPrio := streamsByPrio[level := filtered];
      }
    }

    method EraseAll(packets: seq<QueuedPacket>)
      modifies this
      ensures Snapshot() == UnlinkAll(old(Snapshot()), packets)
      ensures topActivePrioLevel == old(topActivePrioLevel)
    {
      var rest := packets;
      while rest != []
        invariant UnlinkAll(Snapshot(), rest) == UnlinkAll(old(Snapshot()), packets)
        invariant topActivePrioLevel == old(topActivePrioLevel)
        decreases |rest|
      {
        var q := rest[0];
        rest := rest[1..];
        var _ := DequeuePacketInternal(q);
      }
    }

    static method Filter(ring: seq<nat>, ssrc: nat) returns (filtered: seq<nat>)
      ensures filtered == Without(ring, ssrc)
      ensures forall k :: k in filtered <==> k in ring && k != ssrc
    {
      filtered := [];
      var i := 0;
      while i < |ring|
        invariant 0 <= i <= |ring|
        invariant filtered + Without(ring[i..], ssrc) == Without(ring, ssrc)
      {
        if ring[i] != ssrc {
          filtered := filtered + [ring[i]];
        }
        assert ring[i..][1..] == ring[i + 1..];
        i := i + 1;
      }
      assert ring[i..] == [];
      WithoutEffect(ring, ssrc);
    }

    /** The mean un-paused waiting time of the queued packets at the last update. */
    method AverageQueueTime() returns (average: int)
      requires Valid()
      ensures sizePackets == 0 ==> average == 0
      ensures sizePackets != 0 ==>
                average == TruncatingDiv(QueueAccounting.Walk(streams, QueueAccounting.WaitAt(lastUpdateTime - pauseTimeSum)),
                                         sizePackets)
    {
      hide Core, RingsOk, QueueAccounting.Walk;
      InvCanServe(Snapshot());
      QueueTimeSumIsSumOfWaits(Snapshot());
      if sizePackets == 0 {
        return 0;
      }
      average := TruncatingDiv(queueTimeSum, sizePackets);
    }

    /** The key-frame query answers for the packets actually queued. */
    method HasKeyframePackets(ssrc: nat) returns (has: bool)
      requires Valid()
      ensures has <==> exists level: Level, i :: 0 <= i < |Deque(Snapshot(), ssrc, level)| &&
                         Deque(Snapshot(), ssrc, level)[i].packet.keyFrame
    {
      if ssrc in streams {
        CachesAreWalks(Snapshot());
        KeyFrameCountFinds(streams[ssrc].levels);
        assert forall level: Level :: Deque(Snapshot(), ssrc, level) == streams[ssrc].levels[level];
        has := streams[ssrc].keyFramePackets > 0;
      } else {
        has := false;
      }
    }
  }

  /** Integer division of C++ for a positive divisor. */
  function TruncatingDiv(a: int, b: int): int
    requires b > 0
  {
    if a >= 0 then a / b else -((-a) / b)
  }

  lemma {:induction false} KeyFrameInSeq(qs: seq<QueuedPacket>)
    ensures QueueAccounting.SeqWeight(qs, QueueAccounting.KeyFrames) > 0 <==>
            exists i :: 0 <= i < |qs| && qs[i].packet.keyFrame
  {
    if qs != [] {
      KeyFrameInSeq(qs[1..]);
      QueueAccounting.SeqWeightNonNegative(qs[1..], QueueAccounting.KeyFrames);
      if exists i :: 0 <= i < |qs[1..]| && qs[1..][i].packet.keyFrame {
        var i :| 0 <= i < |qs[1..]| && qs[1..][i].packet.keyFrame;
        assert qs[i + 1].packet.keyFrame;
      }
      if exists i :: 1 <= i < |qs| && qs[i].packet.keyFrame {
        var i :| 1 <= i < |qs| && qs[i].packet.keyFrame;
        assert qs[1..][i - 1].packet.keyFrame;
      }
    }
  }

  lemma KeyFrameCountFinds(levels: Deques)
    ensures QueueAccounting.StreamWeight(levels, QueueAccounting.KeyFrames) > 0 <==>
            exists p: Level, i :: 0 <= i < |levels[p]| && levels[p][i].packet.keyFrame
  {
    forall p: Level
      ensures QueueAccounting.SeqWeight(levels[p], QueueAccounting.KeyFrames) >= 0
      ensures QueueAccounting.SeqWeight(levels[p], QueueAccounting.KeyFrames) > 0 <==>
              exists i :: 0 <= i < |levels[p]| && levels[p][i].packet.keyFrame
    {
      QueueAccounting.SeqWeightNonNegative(levels[p], QueueAccounting.KeyFrames);
      KeyFrameInSeq(levels[p]);
    }
  }
}
