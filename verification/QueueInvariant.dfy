/**
 The invariant of the pacer's queue and its preservation by every operation, hence
 in every reachable state; and what purging by time to live removes.
 */
module QueueInvariant {
  import opened Options
  import opened QueueModel
  import opened QueueAccounting

  /** Every packet is filed under its own SSRC and level, and each stream's key-frame
      count is the number of key-frame packets in it. */
  ghost predicate StreamFiled(prioritizeAudio: bool, ssrc: nat, st: StreamQueue) {
    st.keyFramePackets == StreamWeight(st.levels, KeyFrames) &&
    forall p: Level, i :: 0 <= i < |st.levels[p]| ==>
      st.levels[p][i].packet.ssrc == ssrc && LevelOf(prioritizeAudio, st.levels[p][i].packet) == p
  }

  ghost predicate Filed(s: State) {
    forall k :: k in s.streams ==> StreamFiled(s.prioritizeAudioRetransmission, k, s.streams[k])
  }

  predicate Distinct(ring: seq<nat>) {
    forall i, j :: 0 <= i < j < |ring| ==> ring[i] != ring[j]
  }

  /** The round-robin table of a level lists exactly once each stream with packets there.
      In particular every entry is a live stream. */
  ghost predicate RingOk(s: State, p: Level) {
    Distinct(s.rings[p]) &&
    forall k: nat :: k in s.rings[p] <==> Deque(s, k, p) != []
  }

  ghost predicate RingsOk(s: State) {
    forall p: Level :: RingOk(s, p)
  }

  /** The cached top level is the least level with packets, or -1 if there is none. */
  ghost predicate TopOk(s: State) {
    if s.top == -1 then forall p: Level :: s.rings[p] == []
    else 0 <= s.top < NUM_LEVELS && s.rings[s.top] != [] && forall p: Level :: p < s.top ==> s.rings[p] == []
  }

  /** The part that also holds in the middle of an operation. */
  ghost predicate Core(s: State, early: seq<Node>) {
    Accounts(s, [], early) && Filed(s) && NodesOrdered(s.enqueueTimes, s.nextNode)
  }

  ghost predicate Inv(s: State) {
    Core(s, []) && RingsOk(s) && TopOk(s)
  }

  lemma InvRings(s: State)
    requires Inv(s)
    ensures RingsOk(s)
  {
  }

  // ---------------------------------------------------------------------------
  // Dropping packets

  /** What is left of a deque when its leading packets that are too old are gone. */
  function DropOld(d: seq<QueuedPacket>, now: int, ttl: int): seq<QueuedPacket> {
    if d == [] || now - d[0].enqueueTime <= ttl then d else DropOld(d[1..], now, ttl)
  }

  lemma WithoutHeadFiled(prioritizeAudio: bool, ssrc: nat, st: StreamQueue, p: Level)
    requires StreamFiled(prioritizeAudio, ssrc, st) && st.levels[p] != []
    ensures StreamFiled(prioritizeAudio, ssrc, WithoutHead(st, p))
  {
    LevelUpdate(st.levels, p, st.levels[p][1..], KeyFrames);
    var st' := WithoutHead(st, p);
    assert forall o: Level, i :: 0 <= i < |st'.levels[o]| ==>
        st'.levels[o][i] == if o == p then st.levels[o][i + 1] else st.levels[o][i];
  }

  lemma DropHeadCore(s: State, ssrc: nat, p: Level, early: seq<Node>)
    requires Core(s, early) && Deque(s, ssrc, p) != []
    ensures Core(DropHead(s, ssrc, p), early)
  {
    DropHeadAccounts(s, ssrc, p, early);
    WithoutHeadFiled(s.prioritizeAudioRetransmission, ssrc, s.streams[ssrc], p);
    EraseKeepsOrder(s.enqueueTimes, Deque(s, ssrc, p)[0].node, s.nextNode);
  }

  lemma DropHeadDeque(s: State, ssrc: nat, p: Level, k: nat, o: Level)
    requires Deque(s, ssrc, p) != []
    ensures Deque(DropHead(s, ssrc, p), k, o) ==
            if k == ssrc && o == p then Deque(s, ssrc, p)[1..] else Deque(s, k, o)
  {
  }

  lemma {:induction false} DropExpiredCore(s: State, ssrc: nat, p: Level, now: int, ttl: int, early: seq<Node>)
    requires Core(s, early)
    ensures Core(DropExpired(s, ssrc, p, now, ttl), early)
    decreases |Deque(s, ssrc, p)|
  {
    var d := Deque(s, ssrc, p);
    if d != [] && now - d[0].enqueueTime > ttl {
      DropHeadCore(s, ssrc, p, early);
      DropHeadDeque(s, ssrc, p, ssrc, p);
      DropExpiredCore(DropHead(s, ssrc, p), ssrc, p, now, ttl, early);
    }
  }

  lemma {:induction false} DropExpiredDeque(s: State, ssrc: nat, p: Level, now: int, ttl: int, k: nat, o: Level)
    ensures Deque(DropExpired(s, ssrc, p, now, ttl), k, o) ==
            if k == ssrc && o == p then DropOld(Deque(s, k, o), now, ttl) else Deque(s, k, o)
    decreases |Deque(s, ssrc, p)|
  {
    var d := Deque(s, ssrc, p);
    if d != [] && now - d[0].enqueueTime > ttl {
      DropHeadDeque(s, ssrc, p, ssrc, p);
      DropHeadDeque(s, ssrc, p, k, o);
      DropExpiredDeque(DropHead(s, ssrc, p), ssrc, p, now, ttl, k, o);
    }
  }

  /** What a deque of level `o` keeps when level `p` is purged. */
  function Kept(d: seq<QueuedPacket>, o: Level, p: Level, now: int, ttl: Option<int>): seq<QueuedPacket> {
    if o == p && ttl.Some? then DropOld(d, now, ttl.value) else d
  }

  /** The streams of a table that still have packets once the old ones are dropped. */
  ghost function StillPending(s: State, ring: seq<nat>, p: Level, now: int, ttl: int): seq<nat> {
    if ring == [] then []
    else (if DropOld(Deque(s, ring[0], p), now, ttl) == [] then [] else [ring[0]])
         + StillPending(s, ring[1..], p, now, ttl)
  }

  lemma {:induction false} StillPendingFrame(s: State, t: State, ring: seq<nat>, p: Level, now: int, ttl: int)
    requires forall k :: k in ring ==> Deque(s, k, p) == Deque(t, k, p)
    ensures StillPending(s, ring, p, now, ttl) == StillPending(t, ring, p, now, ttl)
  {
    if ring != [] {
      StillPendingFrame(s, t, ring[1..], p, now, ttl);
    }
  }

  lemma {:induction false} StillPendingMembers(s: State, ring: seq<nat>, p: Level, now: int, ttl: int)
    ensures forall k :: k in StillPending(s, ring, p, now, ttl) <==>
              k in ring && DropOld(Deque(s, k, p), now, ttl) != []
    ensures Distinct(ring) ==> Distinct(StillPending(s, ring, p, now, ttl))
  {
    if ring != [] {
      StillPendingMembers(s, ring[1..], p, now, ttl);
    }
  }

  /** Taking a stream out of a table disturbs no counter. */
  lemma DelistCore(s: State, rings: Rings, early: seq<Node>)
    requires Core(s, early)
    ensures Core(s.(rings := rings), early)
  {
    var r := s.(rings := rings);
    forall m: Measure | Global(m)
      ensures Cached(r, m) == Cached(s, m)
    {
    }
  }

  lemma {:induction false} PurgeFromCore(s: State, p: Level, i: nat, now: int, ttl: int, early: seq<Node>)
    requires Core(s, early) && i <= |s.rings[p]|
    ensures Core(PurgeFrom(s, p, i, now, ttl), early)
    decreases |s.rings[p]| - i
  {
    if i < |s.rings[p]| {
      var s1 := DropExpired(s, s.rings[p][i], p, now, ttl);
      DropExpiredCore(s, s.rings[p][i], p, now, ttl, early);
      if Deque(s1, s.rings[p][i], p) == [] {
        var rings: Rings := s1.rings[p := RemoveAt(s1.rings[p], i)];
        DelistCore(s1, rings, early);
        PurgeFromCore(s1.(rings := rings), p, i, now, ttl, early);
        assert PurgeFrom(s, p, i, now, ttl) == PurgeFrom(s1.(rings := rings), p, i, now, ttl);
      } else {
        PurgeFromCore(s1, p, i + 1, now, ttl, early);
        assert PurgeFrom(s, p, i, now, ttl) == PurgeFrom(s1, p, i + 1, now, ttl);
      }
    }
  }

  lemma RemoveAtParts(ring: seq<nat>, i: nat)
    requires i < |ring|
    ensures |RemoveAt(ring, i)| == |ring| - 1
    ensures RemoveAt(ring, i)[..i] == ring[..i] && RemoveAt(ring, i)[i..] == ring[i + 1..]
    ensures ring[i..] == [ring[i]] + ring[i + 1..] && ring[..i + 1] == ring[..i] + [ring[i]]
    ensures Distinct(ring) ==> Distinct(RemoveAt(ring, i)) && ring[i] !in ring[i + 1..]
  {
  }

  /** The purge loop: from position `i` on, every listed stream loses exactly its expired
      prefix, .. */
  lemma {:induction false} PurgeFromDeque(s: State, p: Level, i: nat, now: int, ttl: int, k: nat, o: Level)
    requires i <= |s.rings[p]| && Distinct(s.rings[p])
    ensures Deque(PurgeFrom(s, p, i, now, ttl), k, o) ==
            if o == p && k in s.rings[p][i..] then DropOld(Deque(s, k, o), now, ttl) else Deque(s, k, o)
    decreases |s.rings[p]| - i
  {
    hide DropOld, DropExpired, RemoveAt, PurgeFrom;
    var ring := s.rings[p];
    PurgeStep(s, p, i, now, ttl);
    if i < |ring| {
      var s1 := DropExpired(s, ring[i], p, now, ttl);
      DropExpiredDeque(s, ring[i], p, now, ttl, k, o);
      RemoveAtParts(ring, i);
      if Deque(s1, ring[i], p) == [] {
        PurgeFromDeque(s1.(rings := s1.rings[p := RemoveAt(ring, i)]), p, i, now, ttl, k, o);
      } else {
        PurgeFromDeque(s1, p, i + 1, now, ttl, k, o);
      }
    }
  }

  /** .. and the streams left empty leave the table, the others keeping their order. */
  lemma {:induction false} PurgeFromRings(s: State, p: Level, i: nat, now: int, ttl: int, o: Level)
    requires i <= |s.rings[p]| && Distinct(s.rings[p])
    ensures PurgeFrom(s, p, i, now, ttl).rings[o] ==
            if o == p then s.rings[p][..i] + StillPending(s, s.rings[p][i..], p, now, ttl) else s.rings[o]
    decreases |s.rings[p]| - i
  {
    hide DropOld, DropExpired, RemoveAt, StillPending, PurgeFrom;
    var ring := s.rings[p];
    PurgeStep(s, p, i, now, ttl);
    if i < |ring| {
      var s1 := DropExpired(s, ring[i], p, now, ttl);
      var rest := StillPending(s, ring[i + 1..], p, now, ttl);
      RemoveAtParts(ring, i);
      DropSparesRest(s, p, i, now, ttl);
      if Deque(s1, ring[i], p) == [] {
        var s2 := s1.(rings := s1.rings[p := RemoveAt(ring, i)]);
        assert forall k :: Deque(s2, k, p) == Deque(s1, k, p);
        StillPendingFrame(s1, s2, ring[i + 1..], p, now, ttl);
        PurgeFromRings(s2, p, i, now, ttl, o);
        assert [] + rest == rest;
      } else {
        PurgeFromRings(s1, p, i + 1, now, ttl, o);
        assert ring[..i] + [ring[i]] + rest == ring[..i] + ([ring[i]] + rest);
      }
    }
  }

  /** One round of the purge loop. */
  lemma PurgeStep(s: State, p: Level, i: nat, now: int, ttl: int)
    requires i <= |s.rings[p]|
    ensures i == |s.rings[p]| ==>
              PurgeFrom(s, p, i, now, ttl) == s &&
              s.rings[p] == s.rings[p][..i] + StillPending(s, s.rings[p][i..], p, now, ttl)
    ensures i < |s.rings[p]| ==>
              var ring := s.rings[p];
              var s1 := DropExpired(s, ring[i], p, now, ttl);
              s1.rings == s.rings &&
              PurgeFrom(s, p, i, now, ttl) ==
                if Deque(s1, ring[i], p) == [] then
                  PurgeFrom(s1.(rings := s1.rings[p := RemoveAt(ring, i)]), p, i, now, ttl)
                else PurgeFrom(s1, p, i + 1, now, ttl)
  {
    hide DropOld, RemoveAt;
    if i == |s.rings[p]| {
      assert s.rings[p][i..] == [];
      assert s.rings[p] == s.rings[p][..i] + [];
    }
  }

  /** Dropping the expired packets of the stream at `i` does not touch the streams behind it. */
  lemma DropSparesRest(s: State, p: Level, i: nat, now: int, ttl: int)
    requires i < |s.rings[p]| && Distinct(s.rings[p])
    ensures var ring := s.rings[p];
            var s1 := DropExpired(s, ring[i], p, now, ttl);
            StillPending(s1, ring[i + 1..], p, now, ttl) == StillPending(s, ring[i + 1..], p, now, ttl) &&
            StillPending(s, ring[i..], p, now, ttl) ==
              (if Deque(s1, ring[i], p) == [] then [] else [ring[i]]) + StillPending(s, ring[i + 1..], p, now, ttl)
  {
    hide DropOld, DropExpired, RemoveAt;
    var ring := s.rings[p];
    var s1 := DropExpired(s, ring[i], p, now, ttl);
    RemoveAtParts(ring, i);
    forall k | k in ring[i + 1..]
      ensures Deque(s1, k, p) == Deque(s, k, p)
    {
      DropExpiredDeque(s, ring[i], p, now, ttl, k, p);
    }
    StillPendingFrame(s, s1, ring[i + 1..], p, now, ttl);
    DropExpiredDeque(s, ring[i], p, now, ttl, ring[i], p);
    assert ring[i..][1..] == ring[i + 1..];
  }

  lemma PurgeCore(s: State, p: Level, now: int, early: seq<Node>)
    requires Core(s, early)
    ensures Core(Purge(s, p, now), early)
  {
    if s.timeToLive[p].Some? {
      PurgeFromCore(s, p, 0, now, s.timeToLive[p].value, early);
    }
  }

  /** Purging a level removes exactly the expired prefix of every stream's deque at that
      level, keeps the round-robin order of the streams that remain, and changes no other
      level. */
  lemma PurgeEffect(s: State, p: Level, now: int)
    requires RingsOk(s)
    ensures var r := Purge(s, p, now);
            RingsOk(r) && SameSettings(s, r) &&
            (forall o: Level :: o != p ==> r.rings[o] == s.rings[o]) &&
            (s.timeToLive[p].None? ==> r == s) &&
            (s.timeToLive[p].Some? ==> r.rings[p] == StillPending(s, s.rings[p], p, now, s.timeToLive[p].value)) &&
            forall k: nat, o: Level :: Deque(r, k, o) == Kept(Deque(s, k, o), o, p, now, s.timeToLive[p])
  {
    if s.timeToLive[p].Some? {
      var ttl := s.timeToLive[p].value;
      var ring, r := s.rings[p], Purge(s, p, now);
      PurgeFromKeepsSettings(s, p, 0, now, ttl);
      assert RingOk(s, p);
      assert ring[0..] == ring && ring[..0] == [];
      forall k: nat, o: Level
        ensures Deque(r, k, o) == Kept(Deque(s, k, o), o, p, now, s.timeToLive[p])
      {
        PurgeFromDeque(s, p, 0, now, ttl, k, o);
      }
      StillPendingMembers(s, ring, p, now, ttl);
      forall o: Level
        ensures RingOk(r, o)
        ensures r.rings[o] == if o == p then StillPending(s, ring, p, now, ttl) else s.rings[o]
      {
        PurgeFromRings(s, p, 0, now, ttl, o);
        assert RingOk(s, o);
      }
    }
  }

  /** What purging leaves alone. */
  ghost predicate SameSettings(s: State, t: State) {
    t.prioritizeAudioRetransmission == s.prioritizeAudioRetransmission && t.timeToLive == s.timeToLive &&
    t.top == s.top && t.nextNode == s.nextNode && t.paused == s.paused &&
    t.lastUpdateTime == s.lastUpdateTime && t.pauseTimeSum == s.pauseTimeSum &&
    t.lastCullingTime == s.lastCullingTime
  }

  lemma {:induction false} DropExpiredKeepsSettings(s: State, ssrc: nat, p: Level, now: int, ttl: int)
    ensures SameSettings(s, DropExpired(s, ssrc, p, now, ttl))
    decreases |Deque(s, ssrc, p)|
  {
    var d := Deque(s, ssrc, p);
    if d != [] && now - d[0].enqueueTime > ttl {
      DropExpiredKeepsSettings(DropHead(s, ssrc, p), ssrc, p, now, ttl);
    }
  }

  lemma {:induction false} PurgeFromKeepsSettings(s: State, p: Level, i: nat, now: int, ttl: int)
    requires i <= |s.rings[p]|
    ensures SameSettings(s, PurgeFrom(s, p, i, now, ttl))
    decreases |s.rings[p]| - i
  {
    if i < |s.rings[p]| {
      var s1 := DropExpired(s, s.rings[p][i], p, now, ttl);
      DropExpiredKeepsSettings(s, s.rings[p][i], p, now, ttl);
      if Deque(s1, s.rings[p][i], p) == [] {
        PurgeFromKeepsSettings(s1.(rings := s1.rings[p := RemoveAt(s1.rings[p], i)]), p, i, now, ttl);
      } else {
        PurgeFromKeepsSettings(s1, p, i + 1, now, ttl);
      }
    }
  }

  // ---------------------------------------------------------------------------
  // The top level

  /** The queue is empty exactly when no table has an entry. */
  lemma SizeZeroIffNoRings(s: State)
    requires Core(s, []) && RingsOk(s)
    ensures s.sizePackets >= 0
    ensures s.sizePackets == 0 <==> forall p: Level :: s.rings[p] == []
  {
    assert Cached(s, Packets) == Walk(s.streams, Packets) + SeqWeight([], Packets) + EarlyWeight([], Packets);
    WalkAtLeast(s.streams, 0, 0, Packets);
    if s.sizePackets == 0 {
      forall p: Level
        ensures s.rings[p] == []
      {
        assert RingOk(s, p);
        if s.rings[p] != [] {
          var k := s.rings[p][0];
          assert Deque(s, k, p) != [];
          WalkAtLeast(s.streams, k, p, Packets);
          SeqWeightNonNegative(s.streams[k].levels[p], Packets);
        }
      }
    } else if forall p: Level :: s.rings[p] == [] {
      forall k | k in s.streams
        ensures IsEmpty(s.streams[k])
      {
        forall p: Level
          ensures s.streams[k].levels[p] == []
        {
          assert RingOk(s, p) && s.streams[k].levels[p] == Deque(s, k, p);
        }
      }
      WalkOfEmpty(s.streams, Packets);
    }
  }

  /** The cached top level is not one of the audited counters. */
  lemma SameButTop(s: State, top: int)
    requires Core(s, []) && RingsOk(s)
    ensures Core(s.(top := top), []) && RingsOk(s.(top := top))
  {
    var r := s.(top := top);
    forall m: Measure | Global(m)
      ensures Cached(r, m) == Cached(s, m)
    {
    }
    SameDeques(s, r);
  }

  lemma SameDeques(s: State, r: State)
    requires RingsOk(s) && r.rings == s.rings && r.streams == s.streams
    ensures RingsOk(r)
    ensures forall k: nat, o: Level :: Deque(r, k, o) == Deque(s, k, o)
  {
    assert forall k: nat, o: Level :: Deque(r, k, o) == Deque(s, k, o);
    forall p: Level
      ensures RingOk(r, p)
    {
      assert RingOk(s, p);
    }
  }

  /** Nothing but the expired prefixes of some levels has gone from `s` to `t`. */
  ghost predicate OnlyExpiredLost(s: State, t: State) {
    forall k: nat, o: Level ::
      Deque(t, k, o) == Deque(s, k, o) ||
      Deque(t, k, o) == Kept(Deque(s, k, o), o, o, s.lastUpdateTime, s.timeToLive[o])
  }

  lemma {:induction false} FindTopCore(s: State, i: nat)
    requires Core(s, []) && RingsOk(s) && i <= NUM_LEVELS
    ensures Core(FindTop(s, i), [])
    decreases NUM_LEVELS - i
  {
    if i < NUM_LEVELS {
      var s1 := Purge(s, i, s.lastUpdateTime);
      PurgeCore(s, i, s.lastUpdateTime, []);
      PurgeEffect(s, i, s.lastUpdateTime);
      if s1.rings[i] != [] {
        SameButTop(s1, i);
        assert FindTop(s, i) == s1.(top := i);
      } else {
        FindTopCore(s1, i + 1);
        assert FindTop(s, i) == FindTop(s1, i + 1);
      }
    }
  }

  lemma FindTopStep(s: State, i: nat)
    requires i < NUM_LEVELS
    ensures var s1 := Purge(s, i, s.lastUpdateTime);
            FindTop(s, i) == if s1.rings[i] != [] then s1.(top := i) else FindTop(s1, i + 1)
  {
    hide Purge;
  }

  lemma {:induction false} FindTopRings(s: State, i: nat)
    requires RingsOk(s) && i <= NUM_LEVELS
    ensures RingsOk(FindTop(s, i)) && SameSettings(s.(top := FindTop(s, i).top), FindTop(s, i))
    decreases NUM_LEVELS - i
  {
    if i < NUM_LEVELS {
      var s1 := Purge(s, i, s.lastUpdateTime);
      PurgeEffect(s, i, s.lastUpdateTime);
      FindTopStep(s, i);
      hide FindTop, Purge, RingsOk, StillPending, Kept;
      if s1.rings[i] != [] {
        SameDeques(s1, s1.(top := i));
        assert FindTop(s, i) == s1.(top := i);
      } else {
        FindTopRings(s1, i + 1);
        assert FindTop(s, i) == FindTop(s1, i + 1);
      }
    }
  }

  /** The search finds the least level still pending once its expired packets are dropped. */
  lemma {:induction false} FindTopFinds(s: State, i: nat)
    requires RingsOk(s) && i <= NUM_LEVELS
    requires forall p: Level :: p < i ==> s.rings[p] == []
    ensures (forall p: Level :: FindTop(s, i).rings[p] == []) ||
            (FindTop(s, i).top != -1 && TopOk(FindTop(s, i)))
    decreases NUM_LEVELS - i
  {
    if i < NUM_LEVELS {
      var s1 := Purge(s, i, s.lastUpdateTime);
      PurgeEffect(s, i, s.lastUpdateTime);
      if s1.rings[i] != [] {
        assert FindTop(s, i) == s1.(top := i);
      } else {
        FindTopFinds(s1, i + 1);
        assert FindTop(s, i) == FindTop(s1, i + 1);
      }
    }
  }

  lemma {:induction false} FindTopDeque(s: State, i: nat, k: nat, o: Level)
    requires RingsOk(s) && i <= NUM_LEVELS
    ensures var d := Deque(FindTop(s, i), k, o);
            d == Deque(s, k, o) ||
            (i <= o && d == Kept(Deque(s, k, o), o, o, s.lastUpdateTime, s.timeToLive[o]))
    decreases NUM_LEVELS - i
  {
    if i < NUM_LEVELS {
      var s1 := Purge(s, i, s.lastUpdateTime);
      PurgeEffect(s, i, s.lastUpdateTime);
      assert Deque(s1, k, o) == Kept(Deque(s, k, o), o, i, s.lastUpdateTime, s.timeToLive[i]);
      if s1.rings[i] != [] {
        assert FindTop(s, i) == s1.(top := i);
        SameDeques(s1, s1.(top := i));
      } else {
        FindTopDeque(s1, i + 1, k, o);
        assert FindTop(s, i) == FindTop(s1, i + 1);
      }
    }
  }

  /** `MaybeUpdateTopPrioLevel` restores the cached top level, provided nothing above it
      became pending, and drops nothing but expired packets. */
  lemma UpdateTopEffect(s: State)
    requires Core(s, []) && RingsOk(s)
    requires -1 <= s.top < NUM_LEVELS
    requires forall p: Level :: p < s.top ==> s.rings[p] == []
    ensures var r := UpdateTop(s);
            Inv(r) && r.lastUpdateTime == s.lastUpdateTime && r.pauseTimeSum == s.pauseTimeSum &&
            r.paused == s.paused && r.timeToLive == s.timeToLive &&
            r.prioritizeAudioRetransmission == s.prioritizeAudioRetransmission && OnlyExpiredLost(s, r)
    ensures s.top >= 0 && s.rings[s.top] != [] ==> UpdateTop(s) == s
  {
    if !(0 <= s.top < NUM_LEVELS && s.rings[s.top] != []) {
      FindTopRings(s, 0);
      FindTopFinds(s, 0);
      FindTopCore(s, 0);
      var s1 := FindTop(s, 0);
      forall k: nat, o: Level
        ensures Deque(s1, k, o) == Deque(s, k, o) ||
                Deque(s1, k, o) == Kept(Deque(s, k, o), o, o, s.lastUpdateTime, s.timeToLive[o])
      {
        FindTopDeque(s, 0, k, o);
      }
      SizeZeroIffNoRings(s1);
      if s1.sizePackets == 0 {
        SameButTop(s1, -1);
        SameDeques(s1, s1.(top := -1));
      }
    }
  }

  // ---------------------------------------------------------------------------
  // Operations

  lemma InitialInv(creationTime: int, prioritizeAudio: bool, ttls: Ttls)
    ensures Inv(Initial(creationTime, prioritizeAudio, ttls))
  {
    var s := Initial(creationTime, prioritizeAudio, ttls);
    forall m: Measure | Global(m)
      ensures Cached(s, m) == Walk(s.streams, m) + SeqWeight([], m) + EarlyWeight([], m)
    {
      WalkOfEmpty(s.streams, m);
    }
    forall p: Level
      ensures RingOk(s, p)
    {
      assert forall k: nat :: Deque(s, k, p) == [];
    }
  }

  lemma AdvanceCore(s: State, now: int, early: seq<Node>)
    requires Core(s, early) && RingsOk(s)
    ensures var r := AdvanceTo(s, now);
            Core(r, early) && RingsOk(r) && r.rings == s.rings && r.streams == s.streams && r.top == s.top &&
            r.prioritizeAudioRetransmission == s.prioritizeAudioRetransmission && r.lastUpdateTime == now &&
            r.paused == s.paused &&
            r.pauseTimeSum == s.pauseTimeSum + (if s.paused then now - s.lastUpdateTime else 0)
    ensures forall k: nat, o: Level :: Deque(AdvanceTo(s, now), k, o) == Deque(s, k, o)
  {
    AdvanceAccounts(s, now, early);
    SameDeques(s, AdvanceTo(s, now));
  }

  lemma SetPauseInv(s: State, paused: bool, now: int)
    requires Inv(s)
    ensures Inv(SetPause(s, paused, now))
    ensures var r := SetPause(s, paused, now);
            r.lastUpdateTime == now && r.paused == paused &&
            r.pauseTimeSum == s.pauseTimeSum + (if s.paused then now - s.lastUpdateTime else 0)
    ensures forall k: nat, o: Level :: Deque(SetPause(s, paused, now), k, o) == Deque(s, k, o)
  {
    AdvanceCore(s, now, []);
    var a := AdvanceTo(s, now);
    var r := SetPause(s, paused, now);
    forall m: Measure | Global(m)
      ensures Cached(r, m) == Cached(a, m)
    {
    }
    SameDeques(a, r);
  }

  lemma RegisterCore(s: State, now: int, ssrc: nat)
    requires Inv(s)
    ensures Core(Register(s, now, ssrc), [Node(s.nextNode, now)]) && RingsOk(Register(s, now, ssrc))
    ensures forall k: nat, o: Level :: Deque(Register(s, now, ssrc), k, o) == Deque(s, k, o)
  {
    hide Accounts, StreamWeight;
    RegisterAccounts(s, now, ssrc);
    EmptyStreamWeighsNothing(NO_PACKETS, KeyFrames);
    var r := Register(s, now, ssrc);
    forall p: Level
      ensures RingOk(r, p)
    {
      assert RingOk(s, p);
      assert forall k: nat :: Deque(r, k, p) == Deque(s, k, p);
    }
  }

  /** Everything `Push` has done before it appends the packet. */
  lemma BeforeAppendEffect(s: State, now: int, packet: Packet)
    requires Inv(s)
    ensures var p := LevelOf(s.prioritizeAudioRetransmission, packet);
            var (s1, q) := BeforeAppend(s, now, packet);
            Core(s1, [q.node]) && RingsOk(s1) && q.packet == packet && q.enqueueTime == UnpausedClock(s1) &&
            packet.ssrc in s1.streams && s1.top == s.top &&
            s1.prioritizeAudioRetransmission == s.prioritizeAudioRetransmission &&
            s1.lastUpdateTime == now && s1.paused == s.paused &&
            s1.pauseTimeSum == s.pauseTimeSum + (if s.paused then now - s.lastUpdateTime else 0) &&
            (forall o: Level :: o != p ==> s1.rings[o] == s.rings[o]) &&
            forall k: nat, o: Level :: Deque(s1, k, o) == Kept(Deque(s, k, o), o, p, now, s.timeToLive[p])
  {
    hide Core, Purge, TopOk, Kept;
    var p := LevelOf(s.prioritizeAudioRetransmission, packet);
    var r := Register(s, now, packet.ssrc);
    var node := Node(s.nextNode, now);
    RegisterCore(s, now, packet.ssrc);
    PurgeCore(r, p, now, [node]);
    PurgeEffect(r, p, now);
    PurgeKeepsStreams(r, p, now);
    AdvanceCore(Purge(r, p, now), now, [node]);
  }

  lemma AppendFiled(s: State, q: QueuedPacket, p: Level)
    requires q.packet.ssrc in s.streams && Filed(s)
    requires LevelOf(s.prioritizeAudioRetransmission, q.packet) == p
    ensures Filed(Append(s, q, p))
  {
    var ssrc := q.packet.ssrc;
    var st := s.streams[ssrc];
    var st' := Append(s, q, p).streams[ssrc];
    LevelUpdate(st.levels, p, st.levels[p] + [q], KeyFrames);
    SeqWeightAppend(st.levels[p], [q], KeyFrames);
    assert SeqWeight([q], KeyFrames) == Weight(q, KeyFrames) + SeqWeight([q][1..], KeyFrames);
    assert StreamFiled(s.prioritizeAudioRetransmission, ssrc, st);
    assert StreamFiled(s.prioritizeAudioRetransmission, ssrc, st');
  }

  lemma AppendInv(s: State, q: QueuedPacket, p: Level)
    requires Core(s, [q.node]) && RingsOk(s)
    requires q.packet.ssrc in s.streams
    requires LevelOf(s.prioritizeAudioRetransmission, q.packet) == p
    requires q.enqueueTime == UnpausedClock(s)
    requires s.top == -1 || (0 <= s.top < NUM_LEVELS && (s.top == p || s.rings[s.top] != []))
    requires forall o: Level :: (o < s.top || s.top == -1) && o != p ==> s.rings[o] == []
    ensures Inv(Append(s, q, p))
    ensures forall k: nat, o: Level :: Deque(Append(s, q, p), k, o) ==
              if k == q.packet.ssrc && o == p then Deque(s, k, o) + [q] else Deque(s, k, o)
  {
    hide Accounts, Filed;
    AppendAccounts(s, q, p);
    AppendFiled(s, q, p);
    AppendDeques(s, q, p);
    forall o: Level
      ensures RingOk(Append(s, q, p), o)
    {
      AppendRing(s, q, p, o);
    }
    AppendTop(s, q, p);
  }

  lemma AppendDeques(s: State, q: QueuedPacket, p: Level)
    requires q.packet.ssrc in s.streams
    ensures forall k: nat, o: Level :: Deque(Append(s, q, p), k, o) ==
              if k == q.packet.ssrc && o == p then Deque(s, k, o) + [q] else Deque(s, k, o)
  {
  }

  lemma AppendRing(s: State, q: QueuedPacket, p: Level, o: Level)
    requires RingOk(s, o) && q.packet.ssrc in s.streams
    ensures RingOk(Append(s, q, p), o)
  {
    AppendDeques(s, q, p);
    var ssrc := q.packet.ssrc;
    assert Deque(s, ssrc, p) == s.streams[ssrc].levels[p];
  }

  lemma AppendTop(s: State, q: QueuedPacket, p: Level)
    requires q.packet.ssrc in s.streams && RingOk(s, p)
    requires s.top == -1 || (0 <= s.top < NUM_LEVELS && (s.top == p || s.rings[s.top] != []))
    requires forall o: Level :: (o < s.top || s.top == -1) && o != p ==> s.rings[o] == []
    ensures TopOk(Append(s, q, p))
  {
    var r := Append(s, q, p);
    assert r.rings[p] != [] by {
      AppendRing(s, q, p, p);
      AppendDeques(s, q, p);
      assert Deque(r, q.packet.ssrc, p) != [];
    }
  }

  lemma CullInv(s: State, now: int)
    requires Inv(s)
    ensures Inv(Cull(s, now))
    ensures forall k: nat, o: Level :: Deque(Cull(s, now), k, o) == Deque(s, k, o)
  {
    CullAccounts(s, now);
    var r := Cull(s, now);
    forall k: nat, o: Level
      ensures Deque(r, k, o) == Deque(s, k, o)
    {
      if k in s.streams && k !in r.streams {
        assert IsEmpty(s.streams[k]);
      }
    }
    forall o: Level
      ensures RingOk(r, o)
    {
      assert RingOk(s, o);
    }
  }

  /** `Push` appends the packet to the deque of its stream and level; apart from that only
      expired packets of that level leave the queue. */
  lemma PushEffect(s: State, now: int, packet: Packet)
    requires Inv(s)
    ensures var p := LevelOf(s.prioritizeAudioRetransmission, packet);
            var r := Push(s, now, packet);
            var q := BeforeAppend(s, now, packet).1;
            Inv(r) && q.packet == packet && q.enqueueTime == UnpausedClock(r) &&
            r.lastUpdateTime == now && r.paused == s.paused &&
            r.pauseTimeSum == s.pauseTimeSum + (if s.paused then now - s.lastUpdateTime else 0) &&
            forall k: nat, o: Level :: Deque(r, k, o) ==
              Kept(Deque(s, k, o), o, p, now, s.timeToLive[p]) + if k == packet.ssrc && o == p then [q] else []
  {
    hide Core, RingsOk, TopOk, Kept, BeforeAppend, Append, Cull;
    var p := LevelOf(s.prioritizeAudioRetransmission, packet);
    BeforeAppendEffect(s, now, packet);
    var (s1, q) := BeforeAppend(s, now, packet);
    TopKnown(s, s1, p);
    AppendInv(s1, q, p);
    CullInv(Append(s1, q, p), now);
    ClocksKept(s1, q, p, now);
  }

  lemma TopKnown(s: State, s1: State, p: Level)
    requires TopOk(s) && s1.top == s.top && forall o: Level :: o != p ==> s1.rings[o] == s.rings[o]
    ensures s1.top == -1 || (0 <= s1.top < NUM_LEVELS && (s1.top == p || s1.rings[s1.top] != []))
    ensures forall o: Level :: (o < s1.top || s1.top == -1) && o != p ==> s1.rings[o] == []
  {
  }

  lemma ClocksKept(s: State, q: QueuedPacket, p: Level, now: int)
    requires q.packet.ssrc in s.streams
    ensures var r := Cull(Append(s, q, p), now);
            r.lastUpdateTime == s.lastUpdateTime && r.paused == s.paused && r.pauseTimeSum == s.pauseTimeSum
  {
  }

  /** Under the invariant a non-empty queue has a packet to serve. */
  lemma InvCanServe(s: State)
    requires Inv(s)
    ensures s.sizePackets >= 0
    ensures s.sizePackets == 0 || CanServe(s)
  {
    SizeZeroIffNoRings(s);
    if s.sizePackets != 0 {
      assert s.top != -1;
      assert RingOk(s, s.top);
      assert s.rings[s.top][0] in s.rings[s.top];
    }
  }

  /** The state of `Pop` before it may look for another level. */
  function PopCore(s: State): State
    requires CanServe(s)
  {
    var s1 := DropHead(s, s.rings[s.top][0], s.top);
    var rest := s1.rings[s.top][1..];
    s1.(rings := s1.rings[s.top :=
          if Deque(s1, s.rings[s.top][0], s.top) != [] then rest + [s.rings[s.top][0]] else rest])
  }

  lemma PopCoreCore(s: State)
    requires Inv(s) && CanServe(s)
    ensures Core(PopCore(s), [])
  {
    hide Core, RingsOk, TopOk;
    DropHeadCore(s, s.rings[s.top][0], s.top, []);
    DelistCore(DropHead(s, s.rings[s.top][0], s.top), PopCore(s).rings, []);
  }

  lemma PopCoreEffect(s: State)
    requires RingsOk(s) && CanServe(s)
    ensures var r := PopCore(s);
            RingsOk(r) && r.top == s.top &&
            r.lastUpdateTime == s.lastUpdateTime && r.pauseTimeSum == s.pauseTimeSum && r.paused == s.paused &&
            r.timeToLive == s.timeToLive &&
            (forall o: Level :: o != s.top ==> r.rings[o] == s.rings[o]) &&
            forall k: nat, o: Level :: Deque(r, k, o) ==
              if k == s.rings[s.top][0] && o == s.top then Deque(s, k, o)[1..] else Deque(s, k, o)
  {
    var p, ssrc := s.top, s.rings[s.top][0];
    var r := PopCore(s);
    assert RingOk(s, p);
    forall k: nat, o: Level
      ensures Deque(r, k, o) == if k == ssrc && o == p then Deque(s, k, o)[1..] else Deque(s, k, o)
    {
      DropHeadDeque(s, ssrc, p, k, o);
    }
    forall o: Level
      ensures RingOk(r, o)
    {
      assert RingOk(s, o);
      if o == p {
        var ring, rest := s.rings[p], s.rings[p][1..];
        assert ring == [ssrc] + rest;
        assert ssrc !in rest;
        assert forall k :: k in ring <==> k == ssrc || k in rest;
      }
    }
  }

  lemma PopInv(s: State)
    requires Inv(s)
    ensures s.sizePackets == 0 || CanServe(s)
    ensures Inv(Pop(s).0)
    ensures Pop(s).0.lastUpdateTime == s.lastUpdateTime && Pop(s).0.pauseTimeSum == s.pauseTimeSum &&
            Pop(s).0.paused == s.paused
  {
    InvCanServe(s);
    if s.sizePackets != 0 {
      PopCoreCore(s);
      PopCoreEffect(s);
      var s1 := DropHead(s, s.rings[s.top][0], s.top);
      if Deque(s1, s.rings[s.top][0], s.top) != [] {
        assert Pop(s).0 == PopCore(s);
      } else {
        UpdateTopEffect(PopCore(s));
      }
    }
  }
}
