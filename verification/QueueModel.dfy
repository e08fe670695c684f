/**
 The pacer's priority queue as values: the state of PrioritizedPacketQueue and
 what each of its operations does to that state, in the order in which the
 program does it. PacketQueue.dfy holds the class that updates the state in
 place; QueueAccounting.dfy and QueueService.dfy prove what the state means.
 */
module QueueModel {
  import opened Options

  const NUM_LEVELS := 5
  const NUM_MEDIA_TYPES := 5

  /** 500 ms, in microseconds like every time here. */
  const CULLING_TIMEOUT := 500_000

  datatype MediaType = Audio | Video | Retransmission | ForwardErrorCorrection | Padding

  datatype OriginalType = AudioOriginal | VideoOriginal

  datatype Packet = Packet(
    ssrc: nat,
    seqNum: nat,
    mediaType: MediaType,
    original: Option<OriginalType>,
    payloadSize: nat,
    paddingSize: nat,
    keyFrame: bool)

  /** A node of the list `enqueue_times_`. The id stands for the node's address, which
      is what a list iterator holds. */
  datatype Node = Node(id: nat, time: int)

  /** `enqueueTime` has the pause time so far subtracted. */
  datatype QueuedPacket = QueuedPacket(packet: Packet, enqueueTime: int, node: Node)

  type Level = p: int | 0 <= p < NUM_LEVELS

  type Deques = s: seq<seq<QueuedPacket>> | |s| == NUM_LEVELS witness [[], [], [], [], []]

  /** `lastEnqueueTime` is set when the stream is created and never after. */
  datatype StreamQueue = StreamQueue(levels: Deques, lastEnqueueTime: int, keyFramePackets: int)

  /** Per level, the streams with packets there, in round-robin order. A stream is named
      by its SSRC where the program holds a pointer to it. */
  type Rings = s: seq<seq<nat>> | |s| == NUM_LEVELS witness [[], [], [], [], []]

  type PerMedia = s: seq<int> | |s| == NUM_MEDIA_TYPES witness [0, 0, 0, 0, 0]

  /** None is an infinite time to live. */
  type Ttls = s: seq<Option<int>> | |s| == NUM_LEVELS witness [None, None, None, None, None]

  datatype State = State(
    prioritizeAudioRetransmission: bool,
    timeToLive: Ttls,
    queueTimeSum: int,
    pauseTimeSum: int,
    sizePackets: int,
    sizePerMedia: PerMedia,
    sizePayload: int,
    lastUpdateTime: int,
    paused: bool,
    lastCullingTime: int,
    streams: map<nat, StreamQueue>,
    rings: Rings,
    top: int,
    enqueueTimes: seq<Node>,
    nextNode: nat)

  // ---------------------------------------------------------------------------
  // Classification

  function PriorityForType(mediaType: MediaType, original: Option<OriginalType>): Level {
    match mediaType
    case Audio => 0
    case Retransmission => if original == Some(VideoOriginal) then 2 else 1
    case Video => 3
    case ForwardErrorCorrection => 3
    case Padding => 4
  }

  /** The level `Push` files a packet under. */
  function LevelOf(prioritizeAudioRetransmission: bool, packet: Packet): Level {
    PriorityForType(packet.mediaType, if prioritizeAudioRetransmission then packet.original else None)
  }

  /** The array index of a media type. */
  function MediaIndex(mediaType: MediaType): (i: nat)
    ensures i < NUM_MEDIA_TYPES
  {
    match mediaType
    case Audio => 0
    case Video => 1
    case Retransmission => 2
    case ForwardErrorCorrection => 3
    case Padding => 4
  }

  /** `ToTtlPerPrio`. */
  function TtlPerLevel(audioRetransmission: Option<int>, videoRetransmission: Option<int>,
                       video: Option<int>): Ttls {
    [None, audioRetransmission, videoRetransmission, video, None]
  }

  function PacketSize(packet: Packet): nat {
    packet.payloadSize + packet.paddingSize
  }

  // ---------------------------------------------------------------------------
  // Construction and small steps

  const NO_PACKETS: Deques := [[], [], [], [], []]

  function Initial(creationTime: int, prioritizeAudioRetransmission: bool, timeToLive: Ttls): State {
    State(prioritizeAudioRetransmission, timeToLive, 0, 0, 0, [0, 0, 0, 0, 0], 0, creationTime,
          false, creationTime, map[], [[], [], [], [], []], -1, [], 0)
  }

  function Deque(s: State, ssrc: nat, p: Level): seq<QueuedPacket> {
    if ssrc in s.streams then s.streams[ssrc].levels[p] else []
  }

  /** `StreamQueue::DequeuePacket`, without the packet it returns. */
  function WithoutHead(stream: StreamQueue, p: Level): StreamQueue
    requires stream.levels[p] != []
  {
    var head := stream.levels[p][0];
    stream.(levels := stream.levels[p := stream.levels[p][1..]],
            keyFramePackets := stream.keyFramePackets - if head.packet.keyFrame then 1 else 0)
  }

  /** `std::list::erase` through an iterator. */
  function Erase(nodes: seq<Node>, node: Node): seq<Node> {
    if nodes == [] then []
    else if nodes[0] == node then nodes[1..]
    else [nodes[0]] + Erase(nodes[1..], node)
  }

  /** The time the packet has spent in the queue while it was not paused. */
  function UnpausedWait(s: State, q: QueuedPacket): int {
    s.lastUpdateTime - q.enqueueTime - s.pauseTimeSum
  }

  /** `DequeuePacketInternal`. */
  function Unlink(s: State, q: QueuedPacket): State {
    var t := MediaIndex(q.packet.mediaType);
    s.(sizePackets := s.sizePackets - 1,
       sizePerMedia := s.sizePerMedia[t := s.sizePerMedia[t] - 1],
       sizePayload := s.sizePayload - PacketSize(q.packet),
       queueTimeSum := s.queueTimeSum - UnpausedWait(s, q),
       enqueueTimes := Erase(s.enqueueTimes, q.node))
  }

  /** Take the leading packet of a stream at a level out of the queue. */
  function DropHead(s: State, ssrc: nat, p: Level): State
    requires Deque(s, ssrc, p) != []
  {
    Unlink(s.(streams := s.streams[ssrc := WithoutHead(s.streams[ssrc], p)]), Deque(s, ssrc, p)[0])
  }

  /** `UpdateAverageQueueTime`. */
  function AdvanceTo(s: State, now: int): State {
    if now == s.lastUpdateTime then s
    else
      var delta := now - s.lastUpdateTime;
      if s.paused then s.(pauseTimeSum := s.pauseTimeSum + delta, lastUpdateTime := now)
      else s.(queueTimeSum := s.queueTimeSum + delta * s.sizePackets, lastUpdateTime := now)
  }

  /** `SetPauseState`. */
  function SetPause(s: State, paused: bool, now: int): State {
    AdvanceTo(s, now).(paused := paused)
  }

  // ---------------------------------------------------------------------------
  // Time to live

  /** Drop the leading packets of one stream at one level while they are too old. */
  function DropExpired(s: State, ssrc: nat, p: Level, now: int, ttl: int): (r: State)
    ensures r.rings == s.rings && r.streams.Keys == s.streams.Keys
    decreases |Deque(s, ssrc, p)|
  {
    var d := Deque(s, ssrc, p);
    if d == [] || now - d[0].enqueueTime <= ttl then s
    else DropExpired(DropHead(s, ssrc, p), ssrc, p, now, ttl)
  }

  function RemoveAt<T>(xs: seq<T>, i: nat): seq<T>
    requires i < |xs|
  {
    xs[..i] + xs[i + 1..]
  }

  /** The loop over the round-robin table of a level, from position `i` on. */
  function PurgeFrom(s: State, p: Level, i: nat, now: int, ttl: int): State
    requires i <= |s.rings[p]|
    decreases |s.rings[p]| - i
  {
    if i == |s.rings[p]| then s
    else
      var s1 := DropExpired(s, s.rings[p][i], p, now, ttl);
      if Deque(s1, s.rings[p][i], p) == [] then
        PurgeFrom(s1.(rings := s1.rings[p := RemoveAt(s1.rings[p], i)]), p, i, now, ttl)
      else
        PurgeFrom(s1, p, i + 1, now, ttl)
  }

  /** `PurgeOldPacketsAtPriorityLevel`. */
  function Purge(s: State, p: Level, now: int): State {
    match s.timeToLive[p]
    case None => s
    case Some(ttl) => PurgeFrom(s, p, 0, now, ttl)
  }

  // ---------------------------------------------------------------------------
  // Top level

  /** The search loop of `MaybeUpdateTopPrioLevel`, from level `i` on. */
  function FindTop(s: State, i: nat): State
    requires i <= NUM_LEVELS
    decreases NUM_LEVELS - i
  {
    if i == NUM_LEVELS then s
    else
      var s1 := Purge(s, i, s.lastUpdateTime);
      if s1.rings[i] != [] then s1.(top := i) else FindTop(s1, i + 1)
  }

  /** `MaybeUpdateTopPrioLevel`. */
  function UpdateTop(s: State): State {
    if 0 <= s.top < NUM_LEVELS && s.rings[s.top] != [] then s
    else
      var s1 := FindTop(s, 0);
      if s1.sizePackets == 0 then s1.(top := -1) else s1
  }

  // ---------------------------------------------------------------------------
  // Push

  predicate IsEmpty(stream: StreamQueue) {
    forall p: Level :: stream.levels[p] == []
  }

  /** The stream is empty and was created more than the timeout before `now`. */
  predicate Idle(stream: StreamQueue, now: int) {
    IsEmpty(stream) && stream.lastEnqueueTime + CULLING_TIMEOUT < now
  }

  function Cull(s: State, now: int): State {
    if now - s.lastCullingTime > CULLING_TIMEOUT then
      s.(streams := map k | k in s.streams && !Idle(s.streams[k], now) :: s.streams[k],
         lastCullingTime := now)
    else s
  }

  /** Find or create the stream, and register the enqueue time. */
  function Register(s: State, now: int, ssrc: nat): State {
    s.(streams := if ssrc in s.streams then s.streams
                  else s.streams[ssrc := StreamQueue(NO_PACKETS, now, 0)],
       enqueueTimes := s.enqueueTimes + [Node(s.nextNode, now)],
       nextNode := s.nextNode + 1)
  }

  /** Count the packet in and append it to its stream. */
  function Append(s: State, q: QueuedPacket, p: Level): State
    requires q.packet.ssrc in s.streams
  {
    var ssrc := q.packet.ssrc;
    var t := MediaIndex(q.packet.mediaType);
    var stream := s.streams[ssrc];
    s.(sizePackets := s.sizePackets + 1,
       sizePerMedia := s.sizePerMedia[t := s.sizePerMedia[t] + 1],
       sizePayload := s.sizePayload + PacketSize(q.packet),
       streams := s.streams[ssrc := stream.(
         levels := stream.levels[p := stream.levels[p] + [q]],
         keyFramePackets := stream.keyFramePackets + if q.packet.keyFrame then 1 else 0)],
       rings := if stream.levels[p] == [] then s.rings[p := s.rings[p] + [ssrc]] else s.rings,
       top := if s.top < 0 || p < s.top then p else s.top)
  }

  /** The state in which `Push` appends the new packet, and the packet as queued. */
  function BeforeAppend(s: State, now: int, packet: Packet): (State, QueuedPacket) {
    var p := LevelOf(s.prioritizeAudioRetransmission, packet);
    var s1 := AdvanceTo(Purge(Register(s, now, packet.ssrc), p, now), now);
    (s1, QueuedPacket(packet, now - s1.pauseTimeSum, Node(s.nextNode, now)))
  }

  function Push(s: State, now: int, packet: Packet): State
  {
    var (s1, q) := BeforeAppend(s, now, packet);
    PurgeKeepsStreams(Register(s, now, packet.ssrc), LevelOf(s.prioritizeAudioRetransmission, packet), now);
    Cull(Append(s1, q, LevelOf(s.prioritizeAudioRetransmission, packet)), now)
  }

  /** Purging never removes a stream and touches neither the clocks nor the settings. */
  lemma PurgeFromKeepsStreams(s: State, p: Level, i: nat, now: int, ttl: int)
    requires i <= |s.rings[p]|
    ensures PurgeFrom(s, p, i, now, ttl).streams.Keys == s.streams.Keys
    decreases |s.rings[p]| - i
  {
  }

  lemma PurgeKeepsStreams(s: State, p: Level, now: int)
    ensures Purge(s, p, now).streams.Keys == s.streams.Keys
  {
    if s.timeToLive[p].Some? {
      PurgeFromKeepsStreams(s, p, 0, now, s.timeToLive[p].value);
    }
  }

  // ---------------------------------------------------------------------------
  // Pop

  /** What `Pop` hands out: the packet with its stamped time in the send queue. */
  datatype Popped = Popped(packet: Packet, timeInSendQueue: int)

  /** `Pop` finds the stream it is about to serve. */
  predicate CanServe(s: State) {
    0 <= s.top < NUM_LEVELS && s.rings[s.top] != [] && Deque(s, s.rings[s.top][0], s.top) != []
  }

  function Pop(s: State): (State, Option<Popped>)
    requires s.sizePackets == 0 || CanServe(s)
  {
    if s.sizePackets == 0 then (s, None)
    else
      var p := s.top;
      var ssrc := s.rings[p][0];
      var q := Deque(s, ssrc, p)[0];
      var s1 := DropHead(s, ssrc, p);
      var rest := s1.rings[p][1..];
      var s2 :=
        if Deque(s1, ssrc, p) != [] then s1.(rings := s1.rings[p := rest + [ssrc]])
        else UpdateTop(s1.(rings := s1.rings[p := rest]));
      (s2, Some(Popped(q.packet, UnpausedWait(s, q))))
  }

  // ---------------------------------------------------------------------------
  // RemovePacketsForSsrc

  function UnlinkAll(s: State, qs: seq<QueuedPacket>): (r: State)
    ensures r.rings == s.rings && r.streams == s.streams
    decreases |qs|
  {
    if qs == [] then s else UnlinkAll(Unlink(s, qs[0]), qs[1..])
  }

  function Without(ring: seq<nat>, ssrc: nat): seq<nat> {
    if ring == [] then []
    else (if ring[0] == ssrc then [] else [ring[0]]) + Without(ring[1..], ssrc)
  }

  /** Take a stream out of a round-robin table: a table of one entry just loses it. */
  function Deregister(ring: seq<nat>, ssrc: nat): seq<nat> {
    if |ring| == 1 then [] else Without(ring, ssrc)
  }

  /** The loop over the levels of the removed packets, from level `i` on. */
  function RemoveLevels(s: State, ssrc: nat, removed: Deques, i: nat): State
    requires i <= NUM_LEVELS
    decreases NUM_LEVELS - i
  {
    if i == NUM_LEVELS then s
    else if removed[i] == [] then RemoveLevels(s, ssrc, removed, i + 1)
    else
      var s1 := UnlinkAll(s, removed[i]);
      RemoveLevels(s1.(rings := s1.rings[i := Deregister(s1.rings[i], ssrc)]), ssrc, removed, i + 1)
  }

  function RemoveSsrc(s: State, ssrc: nat): State {
    UpdateTop(
      if ssrc in s.streams then
        RemoveLevels(s.(streams := s.streams[ssrc := s.streams[ssrc].(levels := NO_PACKETS, keyFramePackets := 0)]),
                     ssrc, s.streams[ssrc].levels, 0)
      else s)
  }
}
