/**
 What the pacer's queue promises its users: strict priority between levels, FIFO
 within a stream, round robin between streams, exact un-paused waiting times, and
 the oldest enqueue time; over single operations and over whole runs.
 */
module QueueService {
  import opened Options
  import opened QueueModel
  import opened QueueAccounting
  import opened QueueInvariant
  import opened MapSums

  // ---------------------------------------------------------------------------
  // Reading the invariant

  /** Every cached total equals the total of a walk over all deques. */
  lemma CachesAreWalks(s: State)
    requires Inv(s)
    ensures s.sizePackets == Walk(s.streams, Packets)
    ensures s.sizePayload == Walk(s.streams, Payload)
    ensures forall t: MediaType :: s.sizePerMedia[MediaIndex(t)] == Walk(s.streams, OfMedia(t))
    ensures |s.enqueueTimes| == s.sizePackets
    ensures forall n: Node :: CountNode(s.enqueueTimes, n) == Walk(s.streams, HoldersOf(n))
    ensures forall k :: k in s.streams ==>
              s.streams[k].keyFramePackets == StreamWeight(s.streams[k].levels, KeyFrames)
  {
    assert forall m: Measure :: Global(m) ==>
        Cached(s, m) == Walk(s.streams, m) + SeqWeight([], m) + EarlyWeight([], m);
    forall t: MediaType
      ensures s.sizePerMedia[MediaIndex(t)] == Walk(s.streams, OfMedia(t))
    {
      assert Cached(s, OfMedia(t)) == s.sizePerMedia[MediaIndex(t)];
    }
    forall n: Node
      ensures CountNode(s.enqueueTimes, n) == Walk(s.streams, HoldersOf(n))
    {
      assert Cached(s, HoldersOf(n)) == CountNode(s.enqueueTimes, n);
    }
    assert Cached(s, Packets) == s.sizePackets && Cached(s, Payload) == s.sizePayload;
  }

  /** Queue-time conservation: the cached sum is the sum, over the queued packets, of the
      un-paused time each has waited up to the last update. */
  lemma QueueTimeSumIsSumOfWaits(s: State)
    requires Inv(s)
    ensures s.queueTimeSum == Walk(s.streams, WaitAt(UnpausedClock(s)))
    ensures forall q: QueuedPacket :: Weight(q, WaitAt(UnpausedClock(s))) == UnpausedWait(s, q)
  {
    var m := WaitAt(UnpausedClock(s));
    assert Cached(s, m) == Walk(s.streams, m) + SeqWeight([], m) + EarlyWeight([], m);
  }

  ghost predicate TimesSorted(nodes: seq<Node>) {
    forall i, j :: 0 <= i < j < |nodes| ==> nodes[i].time <= nodes[j].time
  }

  lemma {:induction false} HolderWeighs(qs: seq<QueuedPacket>, i: nat)
    requires i < |qs|
    ensures SeqWeight(qs, HoldersOf(qs[i].node)) > 0
  {
    SeqWeightNonNegative(qs[1..], HoldersOf(qs[i].node));
    if i > 0 {
      HolderWeighs(qs[1..], i - 1);
    }
  }

  /** A queued packet's node is in the list. */
  lemma QueuedNodeIsListed(s: State, k: nat, p: Level, i: nat)
    requires Inv(s) && i < |Deque(s, k, p)|
    ensures Deque(s, k, p)[i].node in s.enqueueTimes
  {
    var d := Deque(s, k, p);
    var m := HoldersOf(d[i].node);
    CachesAreWalks(s);
    WalkAtLeast(s.streams, k, p, m);
    HolderWeighs(d, i);
    CountedIsIn(s.enqueueTimes, d[i].node);
  }

  lemma {:induction false} CountedIsIn(nodes: seq<Node>, n: Node)
    ensures CountNode(nodes, n) > 0 <==> n in nodes
  {
    if nodes != [] {
      CountedIsIn(nodes[1..], n);
    }
  }

  /** A stream that weighs something has a packet that does. */
  lemma {:induction false} HolderInSeq(qs: seq<QueuedPacket>, n: Node) returns (i: nat)
    requires SeqWeight(qs, HoldersOf(n)) > 0
    ensures i < |qs| && qs[i].node == n
  {
    if qs[0].node == n {
      i := 0;
    } else {
      i := HolderInSeq(qs[1..], n);
      i := i + 1;
    }
  }

  /** A listed node is held by a queued packet. */
  lemma ListedNodeIsHeld(s: State, n: Node) returns (k: nat, p: Level, i: nat)
    requires Inv(s) && n in s.enqueueTimes
    ensures i < |Deque(s, k, p)| && Deque(s, k, p)[i].node == n
  {
    CachesAreWalks(s);
    CountedIsIn(s.enqueueTimes, n);
    var m := HoldersOf(n);
    k := PositiveSumHasKey(Weights(s.streams, m));
    var levels := s.streams[k].levels;
    assert StreamWeight(levels, m) > 0;
    if SeqWeight(levels[0], m) > 0 {
      p := 0;
    } else if SeqWeight(levels[1], m) > 0 {
      p := 1;
    } else if SeqWeight(levels[2], m) > 0 {
      p := 2;
    } else if SeqWeight(levels[3], m) > 0 {
      p := 3;
    } else {
      p := 4;
    }
    i := HolderInSeq(levels[p], n);
  }

  /** `OldestEnqueueTime`: as long as pushes come in time order, the front of the list is
      the least enqueue time of all queued packets, and one of them has it. */
  lemma OldestIsFront(s: State)
    requires Inv(s) && s.sizePackets > 0 && TimesSorted(s.enqueueTimes)
    ensures |s.enqueueTimes| > 0
    ensures exists k: nat, p: Level, i: nat ::
              i < |Deque(s, k, p)| && Deque(s, k, p)[i].node == s.enqueueTimes[0]
    ensures forall k: nat, p: Level, i: nat :: i < |Deque(s, k, p)| ==>
              s.enqueueTimes[0].time <= Deque(s, k, p)[i].node.time
  {
    CachesAreWalks(s);
    var k, p, i := ListedNodeIsHeld(s, s.enqueueTimes[0]);
    forall k: nat, p: Level, i: nat | i < |Deque(s, k, p)|
      ensures s.enqueueTimes[0].time <= Deque(s, k, p)[i].node.time
    {
      QueuedNodeIsListed(s, k, p, i);
    }
  }

  // ---------------------------------------------------------------------------
  // Pop

  /** `Pop` refines the simple specification: it hands out the head of a stream's deque at
      the least level where any stream has a packet, stamped with its un-paused wait, and
      removes just that packet, except that expired packets of other levels may go when
      the level runs empty. */
  lemma PopRefinesSpec(s: State)
    requires Inv(s)
    ensures s.sizePackets == 0 || CanServe(s)
    ensures s.sizePackets == 0 ==> Pop(s) == (s, None) && forall k: nat, o: Level :: Deque(s, k, o) == []
    ensures s.sizePackets > 0 ==>
              var p, ssrc, (r, popped) := s.top, s.rings[s.top][0], Pop(s);
              var d := Deque(s, ssrc, p);
              && popped == Some(Popped(d[0].packet, UnpausedWait(s, d[0])))
              && d[0].packet.ssrc == ssrc && LevelOf(s.prioritizeAudioRetransmission, d[0].packet) == p
              && (forall k: nat, o: Level :: o < p ==> Deque(s, k, o) == [])
              && Deque(r, ssrc, p) == d[1..]
              && OnlyExpiredLost(PopCore(s), r)
              && (PopCore(s).rings[p] != [] ==> r == PopCore(s))
  {
    hide Accounts, NodesOrdered, UpdateTop, StreamWeight, Kept;
    InvCanServe(s);
    SizeZeroIffNoRings(s);
    if s.sizePackets == 0 {
      forall k: nat, o: Level
        ensures Deque(s, k, o) == []
      {
        assert RingOk(s, o);
      }
    } else {
      var p, ssrc := s.top, s.rings[s.top][0];
      PopCoreCore(s);
      PopCoreEffect(s);
      assert StreamFiled(s.prioritizeAudioRetransmission, ssrc, s.streams[ssrc]);
      forall k: nat, o: Level | o < p
        ensures Deque(s, k, o) == []
      {
        assert RingOk(s, o);
      }
      PopIsCoreThenTop(s);
      UpdateTopEffect(PopCore(s));
      if Deque(s, ssrc, p)[1..] == [] {
        KeptOfNone(p, p, s.lastUpdateTime, s.timeToLive[p]);
      }
    }
  }

  lemma KeptOfNone(o: Level, p: Level, now: int, ttl: Option<int>)
    ensures Kept([], o, p, now, ttl) == []
  {
  }

  lemma PopIsCoreThenTop(s: State)
    requires Inv(s) && s.sizePackets != 0
    requires CanServe(s)
    ensures Pop(s).0 == UpdateTop(PopCore(s))
  {
    var s1 := DropHead(s, s.rings[s.top][0], s.top);
    if Deque(s1, s.rings[s.top][0], s.top) != [] {
      assert Pop(s).0 == PopCore(s);
    }
  }

  // ---------------------------------------------------------------------------
  // Round robin

  /** The state after `n` calls of `Pop`. */
  ghost function Pops(s: State, n: nat): (r: State)
    requires Inv(s)
    ensures Inv(r)
    decreases n
  {
    PopInv(s);
    if n == 0 then s else Pops(Pop(s).0, n - 1)
  }

  /** One turn: the served stream goes to the back of the table if it has more packets and
      leaves it otherwise; as long as the table is not empty the level stays on top. */
  lemma Turn(s: State)
    requires Inv(s) && s.top != -1
    ensures CanServe(s) && s.sizePackets != 0
    ensures var ring, x := s.rings[s.top], s.rings[s.top][0];
            var ring' := ring[1..] + if |Deque(s, x, s.top)| > 1 then [x] else [];
            ring' != [] ==> Pop(s).0.top == s.top && Pop(s).0.rings[s.top] == ring' &&
                            forall k: nat :: Deque(Pop(s).0, k, s.top) ==
                              if k == x then Deque(s, k, s.top)[1..] else Deque(s, k, s.top)
  {
    SizeZeroIffNoRings(s);
    InvCanServe(s);
    PopRefinesSpec(s);
    PopCoreEffect(s);
    var x := s.rings[s.top][0];
    DropHeadDeque(s, x, s.top, x, s.top);
  }

  /** Without a push or removal in between, the streams pending at the top level are served
      in table order: the n-th of the next pops serves the n-th stream of the table. */
  lemma {:induction false} TurnOrder(s: State, n: nat)
    requires Inv(s) && s.top != -1 && n < |s.rings[s.top]|
    ensures var r := Pops(s, n);
            r.top == s.top && |r.rings[s.top]| >= |s.rings[s.top]| - n &&
            r.rings[s.top][..|s.rings[s.top]| - n] == s.rings[s.top][n..]
    decreases n
  {
    hide Core, RingsOk;
    var ring := s.rings[s.top];
    if n == 0 {
      assert ring[..|ring|] == ring;
    } else {
      Turn(s);
      PopInv(s);
      var s1 := Pop(s).0;
      assert s1.top == s.top && ring[1..] <= s1.rings[s.top];
      TurnOrder(s1, n - 1);
      assert Pops(s, n) == Pops(s1, n - 1);
      OrderCarriesOver(ring, s1.rings[s.top], Pops(s1, n - 1).rings[s.top], n);
    }
  }

  lemma OrderCarriesOver(ring: seq<nat>, ring1: seq<nat>, last: seq<nat>, n: nat)
    requires 0 < n < |ring| && ring[1..] <= ring1
    requires |last| >= |ring1| - (n - 1) && last[..|ring1| - (n - 1)] == ring1[n - 1..]
    ensures |last| >= |ring| - n && last[..|ring| - n] == ring[n..]
  {
    assert last[..|ring| - n] == last[..|ring1| - (n - 1)][..|ring| - n];
    assert ring1[n - 1..][..|ring| - n] == ring[n..];
  }

  /** The stream the next `Pop` serves. */
  ghost function Served(s: State): nat
    requires Inv(s) && s.top != -1
  {
    s.rings[s.top][0]
  }

  /** Round-robin fairness: after a stream with more packets has been served, every other
      stream pending at the level is served once, in order, and then the stream itself
      again. */
  lemma FairTurns(s: State)
    requires Inv(s) && s.top != -1
    requires |Deque(s, s.rings[s.top][0], s.top)| > 1
    ensures s.sizePackets == 0 || CanServe(s)
    ensures Inv(Pop(s).0)
    ensures Distinct(s.rings[s.top])
    ensures forall j: nat :: j < |s.rings[s.top]| ==>
              Pops(Pop(s).0, j).top == s.top &&
              Served(Pops(Pop(s).0, j)) ==
                if j == |s.rings[s.top]| - 1 then s.rings[s.top][0] else s.rings[s.top][1 + j]
  {
    PopInv(s);
    Turn(s);
    assert RingOk(s, s.top);
    var ring, s1 := s.rings[s.top], Pop(s).0;
    forall j: nat | j < |ring|
      ensures Pops(s1, j).top == s.top &&
              Served(Pops(s1, j)) == if j == |ring| - 1 then ring[0] else ring[1 + j]
    {
      TurnOrder(s1, j);
      var r := Pops(s1, j);
      assert r.rings[s.top][0] == s1.rings[s.top][j..][0];
    }
  }

  // ---------------------------------------------------------------------------
  // RemovePacketsForSsrc

  lemma {:induction false} WithoutEffect(ring: seq<nat>, ssrc: nat)
    ensures forall k :: k in Without(ring, ssrc) <==> k in ring && k != ssrc
    ensures Distinct(ring) ==> Distinct(Without(ring, ssrc))
  {
    if ring != [] {
      WithoutEffect(ring[1..], ssrc);
      var rest := Without(ring[1..], ssrc);
      if Distinct(ring) {
        assert Distinct(ring[1..]) && ring[0] !in rest;
        assert Without(ring, ssrc) == rest || Without(ring, ssrc) == [ring[0]] + rest;
      }
    }
  }

  lemma DeregisterEffect(ring: seq<nat>, ssrc: nat)
    requires Distinct(ring) && ssrc in ring
    ensures Distinct(Deregister(ring, ssrc))
    ensures forall k :: k in Deregister(ring, ssrc) <==> k in ring && k != ssrc
  {
    WithoutEffect(ring, ssrc);
    if |ring| == 1 {
      assert ring[0] == ssrc;
    }
  }

  lemma {:induction false} UnlinkAllFrame(s: State, qs: seq<QueuedPacket>)
    ensures var r := UnlinkAll(s, qs);
            SameSettings(s, r) && r.streams == s.streams && r.rings == s.rings
    ensures NodesOrdered(s.enqueueTimes, s.nextNode) ==> NodesOrdered(UnlinkAll(s, qs).enqueueTimes, s.nextNode)
    decreases |qs|
  {
    if qs != [] {
      if NodesOrdered(s.enqueueTimes, s.nextNode) {
        EraseKeepsOrder(s.enqueueTimes, qs[0].node, s.nextNode);
      }
      UnlinkAllFrame(Unlink(s, qs[0]), qs[1..]);
    }
  }

  lemma RingsDoNotCount(s: State, t: State, transit: seq<QueuedPacket>)
    requires t == s.(rings := t.rings) && Accounts(s, transit, [])
    ensures Accounts(t, transit, [])
  {
    hide Walk, SeqWeight, EarlyWeight;
    forall m: Measure | Global(m)
      ensures Cached(t, m) == Cached(s, m)
    {
    }
  }

  lemma {:induction false} RemoveLevelsCounts(s: State, ssrc: nat, removed: Deques, i: nat)
    requires i <= NUM_LEVELS && Accounts(s, Flat(removed, i), []) && NodesOrdered(s.enqueueTimes, s.nextNode)
    ensures Accounts(RemoveLevels(s, ssrc, removed, i), [], [])
    ensures NodesOrdered(RemoveLevels(s, ssrc, removed, i).enqueueTimes, s.nextNode)
    decreases NUM_LEVELS - i
  {
    hide Accounts, NodesOrdered, UnlinkAll, Deregister;
    if i < NUM_LEVELS {
      assert Flat(removed, i) == removed[i] + Flat(removed, i + 1);
      if removed[i] == [] {
        assert Flat(removed, i) == Flat(removed, i + 1);
        RemoveLevelsCounts(s, ssrc, removed, i + 1);
      } else {
        UnlinkAllAccounts(s, removed[i], Flat(removed, i + 1));
        UnlinkAllFrame(s, removed[i]);
        var s1 := UnlinkAll(s, removed[i]);
        var s2 := s1.(rings := s1.rings[i := Deregister(s1.rings[i], ssrc)]);
        RingsDoNotCount(s1, s2, Flat(removed, i + 1));
        RemoveLevelsCounts(s2, ssrc, removed, i + 1);
        assert RemoveLevels(s, ssrc, removed, i) == RemoveLevels(s2, ssrc, removed, i + 1);
      }
    }
  }

  lemma {:induction false} RemoveLevelsFrame(s: State, ssrc: nat, removed: Deques, i: nat)
    requires i <= NUM_LEVELS
    ensures var r := RemoveLevels(s, ssrc, removed, i);
            SameSettings(s, r) && r.streams == s.streams &&
            forall o: Level :: r.rings[o] ==
              if i <= o && removed[o] != [] then Deregister(s.rings[o], ssrc) else s.rings[o]
    decreases NUM_LEVELS - i
  {
    hide UnlinkAll, Deregister, NodesOrdered;
    if i < NUM_LEVELS {
      if removed[i] == [] {
        RemoveLevelsFrame(s, ssrc, removed, i + 1);
      } else {
        UnlinkAllFrame(s, removed[i]);
        var s1 := UnlinkAll(s, removed[i]);
        RemoveLevelsFrame(s1.(rings := s1.rings[i := Deregister(s1.rings[i], ssrc)]), ssrc, removed, i + 1);
      }
    }
  }

  /** The queue with every packet of one stream taken out and counted out. */
  function Cleared(s: State, ssrc: nat): State
    requires ssrc in s.streams
  {
    RemoveLevels(s.(streams := s.streams[ssrc := s.streams[ssrc].(levels := NO_PACKETS, keyFramePackets := 0)]),
                 ssrc, s.streams[ssrc].levels, 0)
  }

  lemma EmptiedFiled(s: State, ssrc: nat)
    requires Filed(s) && ssrc in s.streams
    ensures Filed(s.(streams := s.streams[ssrc := s.streams[ssrc].(levels := NO_PACKETS, keyFramePackets := 0)]))
  {
    EmptyStreamWeighsNothing(NO_PACKETS, KeyFrames);
  }

  lemma ClearedCore(s: State, ssrc: nat)
    requires Inv(s) && ssrc in s.streams
    ensures Core(Cleared(s, ssrc), []) && SameSettings(s, Cleared(s, ssrc))
  {
    var removed := s.streams[ssrc].levels;
    var s0 := s.(streams := s.streams[ssrc := s.streams[ssrc].(levels := NO_PACKETS, keyFramePackets := 0)]);
    hide Accounts, RingsOk, RemoveLevels, Flat;
    DequeueAllAccounts(s, ssrc);
    RemoveLevelsCounts(s0, ssrc, removed, 0);
    RemoveLevelsFrame(s0, ssrc, removed, 0);
    EmptiedFiled(s, ssrc);
  }

  lemma ClearedRings(s: State, ssrc: nat)
    requires RingsOk(s) && ssrc in s.streams
    ensures var r := Cleared(s, ssrc);
            RingsOk(r) &&
            (forall o: Level :: s.rings[o] == [] ==> r.rings[o] == []) &&
            forall k: nat, o: Level :: Deque(r, k, o) == if k == ssrc then [] else Deque(s, k, o)
  {
    var removed := s.streams[ssrc].levels;
    var s0 := s.(streams := s.streams[ssrc := s.streams[ssrc].(levels := NO_PACKETS, keyFramePackets := 0)]);
    var r := Cleared(s, ssrc);
    RemoveLevelsFrame(s0, ssrc, removed, 0);
    assert forall k: nat, o: Level :: Deque(r, k, o) == if k == ssrc then [] else Deque(s, k, o);
    forall o: Level
      ensures RingOk(r, o) && (s.rings[o] == [] ==> r.rings[o] == [])
    {
      assert RingOk(s, o);
      assert removed[o] == Deque(s, ssrc, o);
      if removed[o] != [] {
        DeregisterEffect(s.rings[o], ssrc);
      }
    }
  }

  /** Removing a stream's packets removes all of them and, apart from packets that have
      expired, no others. */
  lemma RemoveSsrcEffect(s: State, ssrc: nat)
    requires Inv(s)
    ensures Inv(RemoveSsrc(s, ssrc))
    ensures var r := RemoveSsrc(s, ssrc);
            r.lastUpdateTime == s.lastUpdateTime && r.pauseTimeSum == s.pauseTimeSum && r.paused == s.paused &&
            (forall o: Level :: Deque(r, ssrc, o) == []) &&
            forall k: nat, o: Level :: k != ssrc ==>
              Deque(r, k, o) == Deque(s, k, o) ||
              Deque(r, k, o) == Kept(Deque(s, k, o), o, o, s.lastUpdateTime, s.timeToLive[o])
  {
    if ssrc in s.streams {
      ClearedCore(s, ssrc);
      ClearedRings(s, ssrc);
      UpdateTopEffect(Cleared(s, ssrc));
      assert RemoveSsrc(s, ssrc) == UpdateTop(Cleared(s, ssrc));
      assert forall o: Level :: Deque(Cleared(s, ssrc), ssrc, o) == [];
      assert forall o: Level :: Kept([], o, o, s.lastUpdateTime, s.timeToLive[o]) == [];
    } else {
      UpdateTopEffect(s);
      assert forall o: Level :: Deque(s, ssrc, o) == [];
      assert forall o: Level :: Kept([], o, o, s.lastUpdateTime, s.timeToLive[o]) == [];
    }
  }
}
