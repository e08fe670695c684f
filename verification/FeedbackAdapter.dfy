/**
 TransportFeedbackAdapter as an object. Each method makes exactly the state change of
 its function in AdapterModel; the balance of bytes in flight is part of the object's
 validity wherever the program keeps it.
 */
module FeedbackAdapter {
  import opened Options
  import opened SeqNum
  import opened MapSums
  import opened AdapterModel
  import opened InFlight

  class TransportFeedbackAdapter {
    var unwrapper: Unwrapper
    var lastAckSeqNum: int
    var inFlight: map<Route, int>
    var networkRoute: Route
    var keyToSeq: map<Key, int>
    var history: map<int, PacketFeedback>
    var recent: map<Key, nat>
    var recentInOrder: seq<Acknowledged>
    var generation: nat
    var pendingUntrackedSize: int

    function Snapshot(): State
      reads this
    {
      State(unwrapper, lastAckSeqNum, inFlight, networkRoute, keyToSeq, history, recent, recentInOrder,
            generation, pendingUntrackedSize)
    }

    ghost predicate Valid()
      reads this
    {
      Balanced(Snapshot())
    }

    constructor (route: Route)
      ensures Valid() && Snapshot() == Initial(route)
    {
      unwrapper, lastAckSeqNum, inFlight, networkRoute := Fresh, -1, map[], route;
      keyToSeq, history, recent, recentInOrder, generation := map[], map[], map[], [], 0;
      pendingUntrackedSize := 0;
      new;
      InitialBalanced(route);
    }

    method PruneRecentlyAcknowledgedPackets(now: int)
      modifies this`recent, this`recentInOrder
      ensures Snapshot() == PruneRecent(old(Snapshot()), now)
    {
      while recentInOrder != [] && now - recentInOrder[0].time > SEND_TIME_HISTORY_WINDOW
        invariant PruneRecent(Snapshot(), now) == PruneRecent(old(Snapshot()), now)
        decreases |recentInOrder|
      {
        var a := recentInOrder[0];
        if a.key in recent && recent[a.key] == a.generation {
          recent := recent - {a.key};
        }
        recentInOrder := recentInOrder[1..];
      }
    }

    /** The removal loop of `AddPacket`. */
    method RemoveOldHistory(now: int)
      modifies this`inFlight, this`keyToSeq, this`history
      ensures Snapshot() == PruneHistory(old(Snapshot()), now)
    {
      var done := history == map[];
      while !done
        invariant done ==> Snapshot() == PruneHistory(old(Snapshot()), now)
        invariant !done ==> history != map[] && PruneHistory(Snapshot(), now) == PruneHistory(old(Snapshot()), now)
        decreases |history|, !done
      {
        HasFirst(history);
        var k :| k in history && forall j :: j in history ==> k <= j;
        assert IsFirst(history, k) && k == First(history);
        if now - history[k].creationTime > SEND_TIME_HISTORY_WINDOW {
          RemoveShrinks(history, k);
          if history[k].sequenceNumber > lastAckSeqNum {
            inFlight := RemoveInFlight(inFlight, history[k]);
          }
          keyToSeq := keyToSeq - {history[k].key};
          history := history - {k};
          done := history == map[];
        } else {
          done := true;
        }
      }
    }

    method AddPacketToHistory(transportSeq: Option<int>, key: Key, size: nat, creationTime: int)
      requires Valid()
      modifies this
      ensures Valid()
      ensures Snapshot() == AddPacket(old(Snapshot()), transportSeq, key, size, creationTime)
    {
      hide Balanced, PruneHistory, PruneRecent;
      AddPacketBalanced(Snapshot(), transportSeq, key, size, creationTime);
      if transportSeq.None? {
        return;
      }
      PruneRecentlyAcknowledgedPackets(creationTime);
      var (next, n) := Unwrap(unwrapper, Wrap(transportSeq.value));
      unwrapper := next;
      var feedback := PacketFeedback(creationTime, n, size, None, 0, 0, networkRoute, key);
      RemoveOldHistory(creationTime);
      recent := recent - {key};
      if key !in keyToSeq {
        keyToSeq := keyToSeq[key := n];
      }
      if n !in history {
        history := history[n := feedback];
      }
    }

    /** The object stays balanced exactly when the packet removed is not one that has been sent
        and is covered by feedback. */
    method RemovePacketFromHistory(key: Key) returns (removed: bool)
      requires Valid()
      modifies this
      ensures (Snapshot(), removed) == RemovePacket(old(Snapshot()), key)
      ensures Valid() <==> !RemovesAcknowledged(old(Snapshot()), key)
    {
      RemoveBalancedIff(Snapshot(), key);
      hide Balanced, RemovesAcknowledged;
      if key !in keyToSeq {
        return false;
      }
      var n := keyToSeq[key];
      if n in history {
        if history[n].sendTime.Some? {
          inFlight := RemoveInFlight(inFlight, history[n]);
        }
        history := history - {n};
      }
      keyToSeq := keyToSeq - {key};
      removed := true;
    }

    method ProcessSentPacket(packetId: int, includedInFeedback: bool, includedInAllocation: bool, size: nat,
                             sendTime: int) returns (sent: Option<PacketFeedback>)
      requires Valid()
      modifies this
      ensures Valid()
      ensures (Snapshot(), sent) ==
              SentPacket(old(Snapshot()), packetId, includedInFeedback, includedInAllocation, size, sendTime)
    {
      hide Balanced, AddInFlight, Outstanding, Unwrap, Wrap;
      SentBalanced(Snapshot(), packetId, includedInFeedback, includedInAllocation, size, sendTime);
      sent := None;
      if includedInFeedback || packetId != -1 {
        var (next, n) := Unwrap(unwrapper, Wrap(packetId));
        unwrapper := next;
        if n in history {
          var packetRetransmit := history[n].sendTime.Some?;
          var p := history[n].(sendTime := Some(sendTime));
          if pendingUntrackedSize != 0 {
            p := p.(priorUnackedData := p.priorUnackedData + pendingUntrackedSize);
            pendingUntrackedSize := 0;
          }
          if !packetRetransmit {
            if p.sequenceNumber > lastAckSeqNum {
              inFlight := AddInFlight(inFlight, p);
            }
            p := p.(dataInFlight := Outstanding(inFlight, networkRoute));
            sent := Some(p);
          }
          history := history[n := p];
        }
      } else if includedInAllocation {
        pendingUntrackedSize := pendingUntrackedSize + size;
      }
    }

    /** Take the packets from behind the last acknowledged number up to `n` out of flight, in
        the order of the history. */
    method ReleaseUpTo(n: int)
      requires n > lastAckSeqNum
      modifies this`inFlight, this`lastAckSeqNum
      ensures inFlight == Release(old(inFlight), history, old(lastAckSeqNum), n) && lastAckSeqNum == n
    {
      hide Release, RemoveInFlight, IsNext;
      ghost var first := lastAckSeqNum;
      var position := lastAckSeqNum;
      while exists k :: k in history && position < k <= n
        invariant first <= position <= n
        invariant Release(inFlight, history, position, n) == Release(old(inFlight), history, first, n)
        decreases n - position
      {
        ghost var some :| some in history && position < some <= n;
        ghost var next := NextExists(history, position, some);
        var k :| k in history && position < k <= n && IsNext(history, position, k);
        ReleaseNext(inFlight, history, position, k, n);
        inFlight := RemoveInFlight(inFlight, history[k]);
        position := k;
      }
      NothingToRelease(inFlight, history, position, n);
      lastAckSeqNum := n;
    }

    method RetrievePacketFeedback(key: Key, received: bool) returns (p: Option<PacketFeedback>)
      modifies this
      ensures (Snapshot(), p) == Retrieve(old(Snapshot()), key, received)
    {
      if key !in keyToSeq {
        return None;
      }
      var n := keyToSeq[key];
      if n > lastAckSeqNum {
        ReleaseUpTo(n);
      }
      if n !in history || history[n].sendTime.None? {
        return None;
      }
      p := Some(history[n]);
      if received {
        keyToSeq := keyToSeq - {history[n].key};
        history := history - {n};
      }
    }

    method RememberAcknowledgedPacket(key: Key, now: int)
      modifies this`generation, this`recent, this`recentInOrder
      ensures Snapshot() == Remember(old(Snapshot()), key, now)
    {
      generation := generation + 1;
      recent := recent[key := generation];
      recentInOrder := recentInOrder + [Acknowledged(key, now, generation)];
    }

    /** The results are in message order; the program sorts them by sequence number. */
    method ProcessCongestionControlFeedback(packets: seq<Reported>, now: int) returns (results: seq<Result>)
      requires Valid()
      modifies this
      ensures Valid()
      ensures packets == [] ==> Snapshot() == PruneRecent(old(Snapshot()), now) && results == []
      ensures packets != [] ==> (Snapshot(), results) == Feedback(old(Snapshot()), packets, now)
    {
      FeedbackBalanced(Snapshot(), packets, now);
      PruneRecentFrame(Snapshot(), now);
      SameFlightBalanced(Snapshot(), PruneRecent(Snapshot(), now));
      hide Balanced, FeedbackOne;
      PruneRecentlyAcknowledgedPackets(now);
      results := [];
      if packets == [] {
        return;
      }
      ghost var s1 := Snapshot();
      ghost var rest := packets;
      assert [] + FeedbackLoop(s1, rest, now).1 == FeedbackLoop(s1, rest, now).1;
      var i := 0;
      while i < |packets|
        invariant 0 <= i <= |packets| && rest == packets[i..]
        invariant FeedbackLoop(s1, packets, now).0 == FeedbackLoop(Snapshot(), rest, now).0
        invariant FeedbackLoop(s1, packets, now).1 == results + FeedbackLoop(Snapshot(), rest, now).1
      {
        ghost var before, soFar := Snapshot(), results;
        assert rest[0] == packets[i] && rest[1..] == packets[i + 1..];
        var r := ProcessPacketInfo(packets[i], now);
        if r.Some? {
          results := results + [r.value];
        }
        LoopStep(before, rest, now, soFar);
        assert results == soFar + if r.Some? then [r.value] else [];
        rest := rest[1..];
        i := i + 1;
      }
      assert rest == [] && results + [] == results;
    }

    method ProcessPacketInfo(f: Reported, now: int) returns (r: Option<Result>)
      modifies this
      ensures (Snapshot(), r) == FeedbackOne(old(Snapshot()), f, now)
    {
      hide Retrieve;
      var p := RetrievePacketFeedback(f.key, f.received);
      r := None;
      if p.Some? {
        if f.received {
          RememberAcknowledgedPacket(f.key, now);
        }
        if p.value.route == networkRoute {
          r := Some(Result(p.value, f.received));
        }
      }
    }

    method SetNetworkRoute(route: Route)
      requires Valid()
      modifies this`networkRoute
      ensures Valid() && Snapshot() == old(Snapshot()).(route := route)
    {
      networkRoute := route;
    }

    /** The outstanding data of the current route, in terms of the history. */
    method GetOutstandingData() returns (bytes: int)
      requires Valid()
      ensures bytes == Flight(history, lastAckSeqNum, networkRoute) && bytes >= 0
    {
      bytes := Outstanding(inFlight, networkRoute);
      assert bytes == Flight(history, lastAckSeqNum, networkRoute);
      FlightNonNegative(history, lastAckSeqNum, networkRoute);
    }
  }

  lemma FlightNonNegative(h: map<int, PacketFeedback>, lastAck: int, r: Route)
    ensures Flight(h, lastAck, r) >= 0
  {
    assert forall j :: j in h ==> Weights(h, lastAck, r)[j] == Weight(h[j], lastAck, r);
    SumAtLeast(Weights(h, lastAck, r));
  }

  lemma LoopStep(s: State, packets: seq<Reported>, now: int, soFar: seq<Result>)
    requires packets != []
    ensures var (s1, r) := FeedbackOne(s, packets[0], now);
            var one := if r.Some? then [r.value] else [];
            FeedbackLoop(s, packets, now).0 == FeedbackLoop(s1, packets[1..], now).0 &&
            soFar + FeedbackLoop(s, packets, now).1 == (soFar + one) + FeedbackLoop(s1, packets[1..], now).1
  {
    hide FeedbackOne;
  }

  /** No entry lies between. */
  predicate IsNext(h: map<int, PacketFeedback>, lo: int, k: int) {
    forall j :: j in h && lo < j ==> k <= j
  }

  lemma ReleaseNext(m: map<Route, int>, h: map<int, PacketFeedback>, lo: int, k: int, hi: int)
    requires k in h && lo < k <= hi && IsNext(h, lo, k)
    ensures Release(m, h, lo, hi) == Release(RemoveInFlight(m, h[k]), h, k, hi)
  {
    hide RemoveInFlight;
    NothingToRelease(m, h, lo, k - 1);
    ReleaseSplit(m, h, lo, k - 1, hi);
  }

  /** Behind `lo` there is a first entry, if there is one up to `some`. */
  lemma {:induction false} NextExists(h: map<int, PacketFeedback>, lo: int, some: int) returns (k: int)
    requires some in h && lo < some
    ensures k in h && lo < k <= some && IsNext(h, lo, k)
    decreases some - lo
  {
    if j :| j in h && lo < j < some {
      k := NextExists(h, lo, j);
    } else {
      k := some;
    }
  }
}
