/**
 The redundant counters of the pacer's queue agree with a walk over all per-stream
 deques, in every reachable state.

 All walks are one function, `Walk`, taken over a measure: counting every packet,
 counting a media type, adding sizes, adding un-paused waiting times, counting the
 packets that hold a given node of the enqueue-time list.
 */
module QueueAccounting {
  import opened QueueModel
  import opened MapSums

  /** What a walk adds up. */
  datatype Measure =
    | Packets
    | Payload
    | OfMedia(mediaType: MediaType)
    | KeyFrames
    | WaitAt(unpausedClock: int)
    | HoldersOf(node: Node)

  function Weight(q: QueuedPacket, m: Measure): int {
    match m
    case Packets => 1
    case Payload => PacketSize(q.packet)
    case OfMedia(t) => if q.packet.mediaType == t then 1 else 0
    case KeyFrames => if q.packet.keyFrame then 1 else 0
    case WaitAt(clock) => clock - q.enqueueTime
    case HoldersOf(n) => if q.node == n then 1 else 0
  }

  function SeqWeight(qs: seq<QueuedPacket>, m: Measure): int {
    if qs == [] then 0 else Weight(qs[0], m) + SeqWeight(qs[1..], m)
  }

  function StreamWeight(levels: Deques, m: Measure): int {
    SeqWeight(levels[0], m) + SeqWeight(levels[1], m) + SeqWeight(levels[2], m)
    + SeqWeight(levels[3], m) + SeqWeight(levels[4], m)
  }

  ghost function Weights(streams: map<nat, StreamQueue>, m: Measure): map<nat, int> {
    map k | k in streams :: StreamWeight(streams[k].levels, m)
  }

  /** The walk over every deque of every stream. */
  ghost function Walk(streams: map<nat, StreamQueue>, m: Measure): int {
    Sum(Weights(streams, m))
  }

  function CountNode(nodes: seq<Node>, n: Node): nat {
    if nodes == [] then 0 else (if nodes[0] == n then 1 else 0) + CountNode(nodes[1..], n)
  }

  /** The un-paused clock: it stands still while the queue is paused. */
  function UnpausedClock(s: State): int {
    s.lastUpdateTime - s.pauseTimeSum
  }

  /** What the program has cached for a measure. The queue-time sum is kept for the
      current un-paused clock, and moves by one time unit per packet with the clock. */
  ghost function Cached(s: State, m: Measure): int {
    match m
    case Packets => s.sizePackets
    case Payload => s.sizePayload
    case OfMedia(t) => s.sizePerMedia[MediaIndex(t)]
    case WaitAt(clock) => s.queueTimeSum + s.sizePackets * (clock - UnpausedClock(s))
    case HoldersOf(n) => CountNode(s.enqueueTimes, n)
    case KeyFrames => Walk(s.streams, KeyFrames)
  }

  /** A measure that is cached for the whole queue; key frames are cached per stream. */
  predicate Global(m: Measure) {
    !m.KeyFrames?
  }

  function EarlyWeight(early: seq<Node>, m: Measure): int {
    if m.HoldersOf? then CountNode(early, m.node) else 0
  }

  /** The caches agree with the walk, where `transit` has left its stream and is still
      counted, and `early` is registered and not yet counted. */
  ghost predicate Accounts(s: State, transit: seq<QueuedPacket>, early: seq<Node>) {
    |s.enqueueTimes| == s.sizePackets + |early| &&
    forall m: Measure :: Global(m) ==>
      Cached(s, m) == Walk(s.streams, m) + SeqWeight(transit, m) + EarlyWeight(early, m)
  }

  // ---------------------------------------------------------------------------
  // Walks under updates

  lemma WalkUpdate(streams: map<nat, StreamQueue>, k: nat, st: StreamQueue, m: Measure)
    ensures Walk(streams[k := st], m) ==
            Walk(streams, m) + StreamWeight(st.levels, m)
            - (if k in streams then StreamWeight(streams[k].levels, m) else 0)
  {
    assert Weights(streams[k := st], m) == Weights(streams, m)[k := StreamWeight(st.levels, m)];
    SumUpdate(Weights(streams, m), k, StreamWeight(st.levels, m));
  }

  lemma {:induction false} SeqWeightAppend(a: seq<QueuedPacket>, b: seq<QueuedPacket>, m: Measure)
    ensures SeqWeight(a + b, m) == SeqWeight(a, m) + SeqWeight(b, m)
  {
    if a == [] {
      assert a + b == b;
    } else {
      assert (a + b)[1..] == a[1..] + b;
      SeqWeightAppend(a[1..], b, m);
    }
  }

  lemma LevelUpdate(levels: Deques, p: Level, d: seq<QueuedPacket>, m: Measure)
    ensures StreamWeight(levels[p := d], m) == StreamWeight(levels, m) + SeqWeight(d, m) - SeqWeight(levels[p], m)
  {
    var updated: Deques := levels[p := d];
    if p == 0 {
      assert updated[0] == d;
    } else if p == 1 {
      assert updated[1] == d;
    } else if p == 2 {
      assert updated[2] == d;
    } else if p == 3 {
      assert updated[3] == d;
    } else {
      assert updated[4] == d;
    }
  }

  /** Counts and sizes are never negative. */
  lemma {:induction false} SeqWeightNonNegative(qs: seq<QueuedPacket>, m: Measure)
    requires !m.WaitAt?
    ensures SeqWeight(qs, m) >= 0
    ensures m.Packets? ==> SeqWeight(qs, m) == |qs|
  {
    if qs != [] {
      SeqWeightNonNegative(qs[1..], m);
    }
  }

  lemma StreamWeightNonNegative(levels: Deques, m: Measure)
    requires !m.WaitAt?
    ensures StreamWeight(levels, m) >= 0
    ensures forall p: Level :: StreamWeight(levels, m) >= SeqWeight(levels[p], m)
  {
    SeqWeightNonNegative(levels[0], m);
    SeqWeightNonNegative(levels[1], m);
    SeqWeightNonNegative(levels[2], m);
    SeqWeightNonNegative(levels[3], m);
    SeqWeightNonNegative(levels[4], m);
  }

  /** A stream weighs at most as much as the walk. */
  lemma WalkAtLeast(streams: map<nat, StreamQueue>, k: nat, p: Level, m: Measure)
    requires !m.WaitAt?
    ensures Walk(streams, m) >= 0
    ensures k in streams ==> Walk(streams, m) >= SeqWeight(streams[k].levels[p], m)
  {
    forall j | j in streams
      ensures Weights(streams, m)[j] >= 0
    {
      StreamWeightNonNegative(streams[j].levels, m);
    }
    SumAtLeast(Weights(streams, m));
    if k in streams {
      StreamWeightNonNegative(streams[k].levels, m);
      assert Weights(streams, m)[k] == StreamWeight(streams[k].levels, m);
    }
  }

  lemma EmptyStreamWeighsNothing(levels: Deques, m: Measure)
    requires forall p: Level :: levels[p] == []
    ensures StreamWeight(levels, m) == 0
  {
  }

  lemma WalkOfEmpty(streams: map<nat, StreamQueue>, m: Measure)
    requires forall k :: k in streams ==> IsEmpty(streams[k])
    ensures Walk(streams, m) == 0
  {
    SumOfZeros(Weights(streams, m));
  }

  // ---------------------------------------------------------------------------
  // The enqueue-time list

  /** Node identities are handed out in list order, so no node occurs twice. */
  ghost predicate NodesOrdered(nodes: seq<Node>, bound: nat) {
    (forall i :: 0 <= i < |nodes| ==> nodes[i].id < bound) &&
    (forall i, j :: 0 <= i < j < |nodes| ==> nodes[i].id < nodes[j].id)
  }

  lemma {:induction false} EraseCounts(nodes: seq<Node>, n: Node, m: Node)
    ensures CountNode(Erase(nodes, n), m) ==
            CountNode(nodes, m) - (if m == n && CountNode(nodes, n) > 0 then 1 else 0)
    ensures |Erase(nodes, n)| == |nodes| - if CountNode(nodes, n) > 0 then 1 else 0
  {
    if nodes != [] && nodes[0] != n {
      EraseCounts(nodes[1..], n, m);
      assert Erase(nodes, n)[1..] == Erase(nodes[1..], n);
    }
  }

  lemma {:induction false} EraseKeepsOrder(nodes: seq<Node>, n: Node, bound: nat)
    requires NodesOrdered(nodes, bound)
    ensures NodesOrdered(Erase(nodes, n), bound)
    ensures forall i :: 0 <= i < |Erase(nodes, n)| ==> Erase(nodes, n)[i] in nodes
  {
    if nodes != [] && nodes[0] != n {
      assert NodesOrdered(nodes[1..], bound);
      EraseKeepsOrder(nodes[1..], n, bound);
      var rest := Erase(nodes[1..], n);
      forall i | 0 <= i < |rest|
        ensures nodes[0].id < rest[i].id && rest[i] in nodes
      {
        assert rest[i] in nodes[1..];
      }
    }
  }

  lemma {:induction false} CountAppend(nodes: seq<Node>, n: Node, m: Node)
    ensures CountNode(nodes + [n], m) == CountNode(nodes, m) + if m == n then 1 else 0
  {
    if nodes == [] {
      assert nodes + [n] == [n];
    } else {
      assert (nodes + [n])[1..] == nodes[1..] + [n];
      CountAppend(nodes[1..], n, m);
    }
  }

  // ---------------------------------------------------------------------------
  // Small steps

  /** The node a packet holds is in the list: its iterator is valid when it is erased. */
  lemma NodeIsRegistered(s: State, q: QueuedPacket, transit: seq<QueuedPacket>, early: seq<Node>)
    requires Accounts(s, [q] + transit, early)
    ensures CountNode(s.enqueueTimes, q.node) > 0
  {
    var m := HoldersOf(q.node);
    assert ([q] + transit)[1..] == transit;
    WalkAtLeast(s.streams, 0, 0, m);
    SeqWeightNonNegative(transit, m);
    assert Cached(s, m) == Walk(s.streams, m) + SeqWeight([q] + transit, m) + EarlyWeight(early, m);
  }

  /** Counting a packet out takes its weight out of every measure. */
  lemma UnlinkTakes(s: State, q: QueuedPacket, m: Measure)
    requires Global(m) && CountNode(s.enqueueTimes, q.node) > 0
    ensures Cached(Unlink(s, q), m) == Cached(s, m) - Weight(q, m)
  {
    hide CountNode;
    match m
    case Packets =>
    case Payload =>
    case OfMedia(t) =>
    case WaitAt(clock) =>
      var gap := clock - UnpausedClock(s);
      assert s.sizePackets * gap == (s.sizePackets - 1) * gap + gap;
    case HoldersOf(n) =>
      EraseCounts(s.enqueueTimes, q.node, n);
  }

  /** So it balances the packet's leaving the queue. */
  lemma UnlinkAccounts(s: State, q: QueuedPacket, transit: seq<QueuedPacket>, early: seq<Node>)
    requires Accounts(s, [q] + transit, early)
    ensures Accounts(Unlink(s, q), transit, early)
  {
    hide Cached, Walk, Weight, EarlyWeight;
    var r := Unlink(s, q);
    assert ([q] + transit)[1..] == transit;
    NodeIsRegistered(s, q, transit, early);
    EraseCounts(s.enqueueTimes, q.node, q.node);
    forall m: Measure | Global(m)
      ensures Cached(r, m) == Walk(r.streams, m) + SeqWeight(transit, m) + EarlyWeight(early, m)
    {
      assert Cached(s, m) == Walk(s.streams, m) + SeqWeight([q] + transit, m) + EarlyWeight(early, m);
      UnlinkTakes(s, q, m);
    }
  }

  lemma TakeHeadAccounts(s: State, ssrc: nat, p: Level, early: seq<Node>)
    requires Accounts(s, [], early)
    requires Deque(s, ssrc, p) != []
    ensures Accounts(s.(streams := s.streams[ssrc := WithoutHead(s.streams[ssrc], p)]), [Deque(s, ssrc, p)[0]], early)
  {
    var d := Deque(s, ssrc, p);
    var st := s.streams[ssrc];
    var r := s.(streams := s.streams[ssrc := WithoutHead(st, p)]);
    forall m: Measure | Global(m)
      ensures Cached(r, m) == Walk(r.streams, m) + SeqWeight([d[0]], m) + EarlyWeight(early, m)
    {
      assert Cached(s, m) == Walk(s.streams, m) + SeqWeight([], m) + EarlyWeight(early, m);
      assert Cached(r, m) == Cached(s, m);
      WalkUpdate(s.streams, ssrc, WithoutHead(st, p), m);
      LevelUpdate(st.levels, p, d[1..], m);
    }
  }

  lemma DropHeadAccounts(s: State, ssrc: nat, p: Level, early: seq<Node>)
    requires Accounts(s, [], early)
    requires Deque(s, ssrc, p) != []
    ensures Accounts(DropHead(s, ssrc, p), [], early)
  {
    TakeHeadAccounts(s, ssrc, p, early);
    var q := Deque(s, ssrc, p)[0];
    assert [q] + [] == [q];
    UnlinkAccounts(s.(streams := s.streams[ssrc := WithoutHead(s.streams[ssrc], p)]), q, [], early);
  }

  lemma AdvanceAccounts(s: State, now: int, early: seq<Node>)
    requires Accounts(s, [], early)
    ensures Accounts(AdvanceTo(s, now), [], early)
  {
    var r := AdvanceTo(s, now);
    forall m: Measure | Global(m)
      ensures Cached(r, m) == Walk(r.streams, m) + SeqWeight([], m) + EarlyWeight(early, m)
    {
      assert Cached(s, m) == Walk(s.streams, m) + SeqWeight([], m) + EarlyWeight(early, m);
      if m.WaitAt? && !s.paused {
        var delta := now - s.lastUpdateTime;
        var gap := m.unpausedClock - UnpausedClock(s);
        assert s.sizePackets * gap == s.sizePackets * (gap - delta) + s.sizePackets * delta;
      }
    }
  }

  lemma RegisterAccounts(s: State, now: int, ssrc: nat)
    requires Accounts(s, [], [])
    ensures Accounts(Register(s, now, ssrc), [], [Node(s.nextNode, now)])
  {
    var r := Register(s, now, ssrc);
    var node := Node(s.nextNode, now);
    forall m: Measure | Global(m)
      ensures Cached(r, m) == Walk(r.streams, m) + SeqWeight([], m) + EarlyWeight([node], m)
    {
      assert Cached(s, m) == Walk(s.streams, m) + SeqWeight([], m) + EarlyWeight([], m);
      if ssrc !in s.streams {
        WalkUpdate(s.streams, ssrc, StreamQueue(NO_PACKETS, now, 0), m);
        EmptyStreamWeighsNothing(NO_PACKETS, m);
      }
      if m.HoldersOf? {
        CountAppend(s.enqueueTimes, node, m.node);
        assert [node][1..] == [];
      }
    }
  }

  lemma AppendMeasure(s: State, q: QueuedPacket, p: Level, m: Measure)
    requires q.packet.ssrc in s.streams
    ensures Walk(Append(s, q, p).streams, m) == Walk(s.streams, m) + Weight(q, m)
  {
    var ssrc := q.packet.ssrc;
    var st := s.streams[ssrc];
    var st' := Append(s, q, p).streams[ssrc];
    WalkUpdate(s.streams, ssrc, st', m);
    LevelUpdate(st.levels, p, st.levels[p] + [q], m);
    SeqWeightAppend(st.levels[p], [q], m);
    assert SeqWeight([q], m) == Weight(q, m) + SeqWeight([q][1..], m);
  }

  lemma AppendAccounts(s: State, q: QueuedPacket, p: Level)
    requires q.packet.ssrc in s.streams
    requires q.enqueueTime == UnpausedClock(s)
    requires Accounts(s, [], [q.node])
    ensures Accounts(Append(s, q, p), [], [])
  {
    hide Walk, SeqWeight, EarlyWeight, Cached;
    var r := Append(s, q, p);
    forall m: Measure | Global(m)
      ensures Cached(r, m) == Walk(r.streams, m) + SeqWeight([], m) + EarlyWeight([], m)
    {
      assert Cached(s, m) == Walk(s.streams, m) + SeqWeight([], m) + EarlyWeight([q.node], m);
      AppendMeasure(s, q, p, m);
      AppendCached(s, q, p, m);
      NoWeight(m);
    }
  }

  lemma NoWeight(m: Measure)
    ensures SeqWeight([], m) == 0 && EarlyWeight([], m) == 0
  {
  }

  /** The counters move by the weight of the new packet, of which its early node had a part. */
  lemma AppendCached(s: State, q: QueuedPacket, p: Level, m: Measure)
    requires q.packet.ssrc in s.streams && Global(m) && q.enqueueTime == UnpausedClock(s)
    ensures Cached(Append(s, q, p), m) - Weight(q, m) == Cached(s, m) - EarlyWeight([q.node], m)
  {
    NoWeight(m);
    assert [q.node][1..] == [];
    if m.WaitAt? {
      var gap := m.unpausedClock - UnpausedClock(s);
      assert (s.sizePackets + 1) * gap == s.sizePackets * gap + gap;
    }
  }

  lemma CullAccounts(s: State, now: int)
    requires Accounts(s, [], [])
    ensures Accounts(Cull(s, now), [], [])
  {
    hide Walk;
    var r := Cull(s, now);
    forall m: Measure | Global(m)
      ensures Cached(r, m) == Walk(r.streams, m) + SeqWeight([], m) + EarlyWeight([], m)
    {
      assert Cached(s, m) == Walk(s.streams, m) + SeqWeight([], m) + EarlyWeight([], m);
      RestrictionKeepsWalk(s.streams, r.streams, m);
    }
  }

  lemma WalkRemoveEmpty(streams: map<nat, StreamQueue>, k: nat, m: Measure)
    requires k in streams && IsEmpty(streams[k])
    ensures Walk(streams - {k}, m) == Walk(streams, m)
  {
    SumSplit(Weights(streams, m), k);
    assert Weights(streams, m) - {k} == Weights(streams - {k}, m);
    EmptyStreamWeighsNothing(streams[k].levels, m);
  }

  /** Removing empty streams does not change a walk. */
  lemma {:induction false} RestrictionKeepsWalk(streams: map<nat, StreamQueue>, kept: map<nat, StreamQueue>, m: Measure)
    requires kept.Keys <= streams.Keys
    requires forall k :: k in kept ==> kept[k] == streams[k]
    requires forall k :: k in streams && k !in kept ==> IsEmpty(streams[k])
    ensures Walk(kept, m) == Walk(streams, m)
    decreases |streams|
  {
    if kept.Keys == streams.Keys {
      assert kept == streams;
    } else {
      var k :| k in streams && k !in kept;
      RemoveShrinks(streams, k);
      WalkRemoveEmpty(streams, k, m);
      RestrictionKeepsWalk(streams - {k}, kept, m);
    }
  }

  lemma {:induction false} UnlinkAllAccounts(s: State, qs: seq<QueuedPacket>, transit: seq<QueuedPacket>)
    requires Accounts(s, qs + transit, [])
    ensures Accounts(UnlinkAll(s, qs), transit, [])
    decreases |qs|
  {
    if qs == [] {
      assert qs + transit == transit;
    } else {
      assert qs + transit == [qs[0]] + (qs[1..] + transit);
      UnlinkAccounts(s, qs[0], qs[1..] + transit, []);
      UnlinkAllAccounts(Unlink(s, qs[0]), qs[1..], transit);
    }
  }

  /** The removed packets of the levels from `i` on. */
  function Flat(levels: Deques, i: nat): seq<QueuedPacket>
    requires i <= NUM_LEVELS
    decreases NUM_LEVELS - i
  {
    if i == NUM_LEVELS then [] else levels[i] + Flat(levels, i + 1)
  }

  lemma FlatWeight(levels: Deques, m: Measure)
    ensures SeqWeight(Flat(levels, 0), m) == StreamWeight(levels, m)
  {
    assert Flat(levels, 5) == [];
    assert Flat(levels, 4) == levels[4] + Flat(levels, 5);
    assert Flat(levels, 3) == levels[3] + Flat(levels, 4);
    assert Flat(levels, 2) == levels[2] + Flat(levels, 3);
    assert Flat(levels, 1) == levels[1] + Flat(levels, 2);
    assert Flat(levels, 0) == levels[0] + Flat(levels, 1);
    SeqWeightAppend(levels[4], Flat(levels, 5), m);
    SeqWeightAppend(levels[3], Flat(levels, 4), m);
    SeqWeightAppend(levels[2], Flat(levels, 3), m);
    SeqWeightAppend(levels[1], Flat(levels, 2), m);
    SeqWeightAppend(levels[0], Flat(levels, 1), m);
  }

  lemma DequeueAllAccounts(s: State, ssrc: nat)
    requires Accounts(s, [], [])
    requires ssrc in s.streams
    ensures Accounts(s.(streams := s.streams[ssrc := s.streams[ssrc].(levels := NO_PACKETS, keyFramePackets := 0)]),
                     Flat(s.streams[ssrc].levels, 0), [])
  {
    var emptied := s.streams[ssrc].(levels := NO_PACKETS, keyFramePackets := 0);
    var r := s.(streams := s.streams[ssrc := emptied]);
    forall m: Measure | Global(m)
      ensures Cached(r, m) == Walk(r.streams, m) + SeqWeight(Flat(s.streams[ssrc].levels, 0), m) + EarlyWeight([], m)
    {
      assert Cached(s, m) == Walk(s.streams, m) + SeqWeight([], m) + EarlyWeight([], m);
      assert Cached(r, m) == Cached(s, m);
      WalkUpdate(s.streams, ssrc, emptied, m);
      FlatWeight(s.streams[ssrc].levels, m);
    }
  }
}
