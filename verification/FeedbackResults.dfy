/**
 What a feedback message makes of the sender's history: exactly which results are handed to
 congestion control, which entries leave the history, and how far the acknowledgement gets.
 */
module FeedbackResults {
  import opened Options
  import opened SeqNum
  import opened MapSums
  import opened AdapterModel
  import opened InFlight
  import opened FeedbackOnce

  // ---------------------------------------------------------------------------
  // Results

  /** The key is mapped to an entry that was reported sent. */
  predicate Known(s: State, key: Key) {
    key in s.keyToSeq && s.keyToSeq[key] in s.history && s.history[s.keyToSeq[key]].sendTime.Some?
  }

  function EntryOf(s: State, key: Key): PacketFeedback
    requires Known(s, key)
  {
    s.history[s.keyToSeq[key]]
  }

  /** The keys a message takes out: those known and reported received. */
  function Taken(s: State, packets: seq<Reported>): set<Key> {
    set i | 0 <= i < |packets| && packets[i].received && Known(s, packets[i].key) :: packets[i].key
  }

  /** The results of a message, judged by the state before it: for each reported packet of the
      current route that was sent, and not reported received before, its entry and the reported
      flag, in the order of the message. */
  function Expected(s: State, packets: seq<Reported>, taken: set<Key>): seq<Result> {
    if packets == [] then []
    else
      var f := packets[0];
      (if Known(s, f.key) && f.key !in taken && EntryOf(s, f.key).route == s.route
       then [Result(EntryOf(s, f.key), f.received)] else []) +
      Expected(s, packets[1..], taken + Taken(s, packets[..1]))
  }

  /** What is left of the history and the mappings when the entries of these keys are taken out. */
  ghost predicate Left(s: State, r: State, taken: set<Key>) {
    r.route == s.route &&
    (forall key :: key in r.keyToSeq <==> key in s.keyToSeq && key !in taken) &&
    (forall key :: key in r.keyToSeq ==> r.keyToSeq[key] == s.keyToSeq[key]) &&
    (forall n :: n in r.history <==> n in s.history && !IsTaken(s, taken, n)) &&
    (forall n :: n in r.history ==> r.history[n] == s.history[n])
  }

  predicate IsTaken(s: State, taken: set<Key>, n: int) {
    n in s.history && s.history[n].key in taken && s.history[n].key in s.keyToSeq && s.keyToSeq[s.history[n].key] == n
  }

  /** Looking up a reported packet: found if known, and taken out if received. */
  lemma OneRetrieved(t: State, f: Reported, now: int)
    ensures var (t1, r) := FeedbackOne(t, f, now);
            t1.route == t.route &&
            (r.Some? <==> Known(t, f.key) && EntryOf(t, f.key).route == t.route) &&
            (r.Some? ==> r.value == Result(EntryOf(t, f.key), f.received)) &&
            (if Known(t, f.key) && f.received
             then t1.history == t.history - {t.keyToSeq[f.key]} && t1.keyToSeq == t.keyToSeq - {EntryOf(t, f.key).key}
             else t1.history == t.history && t1.keyToSeq == t.keyToSeq)
  {
    hide Release;
  }

  lemma KnownLeft(s: State, t: State, taken: set<Key>, key: Key)
    requires Mapped(s) && Left(s, t, taken)
    ensures Known(t, key) <==> Known(s, key) && key !in taken
    ensures Known(t, key) ==> EntryOf(t, key) == EntryOf(s, key) && t.keyToSeq[key] == s.keyToSeq[key] &&
                              EntryOf(s, key).key == key
  {
  }

  lemma TakeOne(s: State, t: State, t1: State, taken: set<Key>, key: Key)
    requires Mapped(s) && Left(s, t, taken) && Known(s, key) && key !in taken && t1.route == t.route
    requires key in t.keyToSeq && t1.history == t.history - {t.keyToSeq[key]} && t1.keyToSeq == t.keyToSeq - {key}
    ensures Left(s, t1, taken + {key})
  {
    hide Known;
    forall n
      ensures n in t1.history <==> n in s.history && !IsTaken(s, taken + {key}, n)
    {
      assert n in t.history <==> n in s.history && !IsTaken(s, taken, n);
    }
  }

  lemma TakeNone(s: State, t: State, t1: State, taken: set<Key>)
    requires Left(s, t, taken) && t1.route == t.route && t1.history == t.history && t1.keyToSeq == t.keyToSeq
    ensures Left(s, t1, taken)
  {
  }

  /** One reported packet, in a state in which `taken` is out already. */
  lemma OneReported(s: State, t: State, f: Reported, now: int, taken: set<Key>)
    requires Mapped(s) && Left(s, t, taken) && forall key :: key in taken ==> Known(s, key)
    ensures var (t1, r) := FeedbackOne(t, f, now);
            Left(s, t1, taken + Taken(s, [f])) &&
            r == if Known(s, f.key) && f.key !in taken && EntryOf(s, f.key).route == s.route
                 then Some(Result(EntryOf(s, f.key), f.received)) else None
  {
    hide FeedbackOne, Mapped, Left;
    TakenOne(s, f);
    OneRetrieved(t, f, now);
    KnownLeft(s, t, taken, f.key);
    LeftRoute(s, t, taken);
    var t1 := FeedbackOne(t, f, now).0;
    if Known(t, f.key) && f.received {
      TakeOne(s, t, t1, taken, f.key);
    } else {
      TakeNone(s, t, t1, taken);
      assert taken + Taken(s, [f]) == taken;
    }
  }

  lemma LeftRoute(s: State, t: State, taken: set<Key>)
    requires Left(s, t, taken)
    ensures t.route == s.route
  {
  }

  lemma TakenOne(s: State, f: Reported)
    ensures Taken(s, [f]) == if f.received && Known(s, f.key) then {f.key} else {}
  {
    hide Known;
    assert [f][0] == f;
  }

  lemma {:induction false} LoopReports(s: State, t: State, packets: seq<Reported>, now: int, taken: set<Key>)
    requires Mapped(s) && Left(s, t, taken) && forall key :: key in taken ==> Known(s, key)
    ensures var (r, results) := FeedbackLoop(t, packets, now);
            results == Expected(s, packets, taken) && Left(s, r, taken + Taken(s, packets))
    decreases |packets|
  {
    hide Left, Mapped, FeedbackOne, Known;
    if packets == [] {
      assert taken + Taken(s, packets) == taken;
    } else {
      var f := packets[0];
      assert packets[..1] == [f];
      OneReported(s, t, f, now, taken);
      TakenKnown(s, [f]);
      LoopReports(s, FeedbackOne(t, f, now).0, packets[1..], now, taken + Taken(s, [f]));
      TakenSplits(s, packets);
      assert taken + Taken(s, [f]) + Taken(s, packets[1..]) == taken + Taken(s, packets);
    }
  }

  lemma TakenKnown(s: State, packets: seq<Reported>)
    ensures forall key :: key in Taken(s, packets) ==> Known(s, key)
  {
  }

  lemma TakenSplits(s: State, packets: seq<Reported>)
    requires packets != []
    ensures Taken(s, packets) == Taken(s, [packets[0]]) + Taken(s, packets[1..])
  {
    hide Known;
    assert [packets[0]][0] == packets[0];
    forall key | key in Taken(s, packets)
      ensures key in Taken(s, [packets[0]]) || key in Taken(s, packets[1..])
    {
      var i :| 0 <= i < |packets| && packets[i].received && Known(s, packets[i].key) && packets[i].key == key;
      if i > 0 {
        assert packets[1..][i - 1] == packets[i];
      }
    }
    forall key | key in Taken(s, packets[1..])
      ensures key in Taken(s, packets)
    {
      var i :| 0 <= i < |packets[1..]| && packets[1..][i].received && Known(s, packets[1..][i].key) &&
               packets[1..][i].key == key;
      assert packets[i + 1] == packets[1..][i];
    }
  }

  /** With right mappings, a message yields exactly these results, and takes exactly the entries of
      the known keys reported received out of the history; so a packet reported lost stays and
      yields a second result when it is reported received later. */
  lemma ResultsAreExact(s: State, packets: seq<Reported>, now: int)
    requires Mapped(s)
    ensures var (r, results) := Feedback(s, packets, now);
            results == Expected(s, packets, {}) && Left(s, r, Taken(s, packets))
  {
    hide PruneRecent, Left, Expected;
    PruneRecentFrame(s, now);
    var t := PruneRecent(s, now);
    SameExpected(s, t, packets, {});
    AllLeft(t);
    LoopReports(t, t, packets, now, {});
    assert {} + Taken(t, packets) == Taken(t, packets);
    SameLeft(s, t, FeedbackLoop(t, packets, now).0, packets);
  }

  lemma AllLeft(s: State)
    requires Mapped(s)
    ensures Left(s, s, {})
  {
  }

  lemma SameLeft(s: State, t: State, r: State, packets: seq<Reported>)
    requires t.keyToSeq == s.keyToSeq && t.history == s.history && t.route == s.route
    requires Left(t, r, Taken(t, packets))
    ensures Left(s, r, Taken(s, packets))
  {
    assert Taken(s, packets) == Taken(t, packets);
  }

  lemma {:induction false} SameExpected(s: State, t: State, packets: seq<Reported>, taken: set<Key>)
    requires t.keyToSeq == s.keyToSeq && t.history == s.history && t.route == s.route
    ensures Expected(s, packets, taken) == Expected(t, packets, taken)
    decreases |packets|
  {
    if packets != [] {
      assert Taken(s, packets[..1]) == Taken(t, packets[..1]);
      SameExpected(s, t, packets[1..], taken + Taken(s, packets[..1]));
    }
  }

  /** With distinct keys that is one result for each reported key of a sent packet of this route. */
  lemma {:induction false} ResultPerKey(s: State, packets: seq<Reported>, taken: set<Key>, f: Reported)
    requires forall i, j :: 0 <= i < j < |packets| ==> packets[i].key != packets[j].key
    requires forall i :: 0 <= i < |packets| ==> packets[i].key !in taken
    requires f in packets && Known(s, f.key)
    ensures EntryOf(s, f.key).route == s.route ==> Result(EntryOf(s, f.key), f.received) in Expected(s, packets, taken)
    decreases |packets|
  {
    hide Known;
    var head := packets[..1];
    if f != packets[0] {
      assert f in packets[1..];
      forall i | 0 <= i < |packets[1..]|
        ensures packets[1..][i].key !in taken + Taken(s, head)
      {
        assert packets[1..][i] == packets[i + 1];
      }
      ResultPerKey(s, packets[1..], taken + Taken(s, head), f);
    }
  }

  // ---------------------------------------------------------------------------
  // Acknowledgement

  /** How far a message acknowledges: to the highest number a reported key is mapped to. */
  lemma {:induction false} LoopAcknowledges(s: State, t: State, packets: seq<Reported>, now: int, taken: set<Key>)
    requires Mapped(s) && Left(s, t, taken) && forall key :: key in taken ==> Known(s, key)
    requires forall key :: key in taken ==> key in s.keyToSeq && s.keyToSeq[key] <= t.lastAck
    ensures var r := FeedbackLoop(t, packets, now).0;
            r.lastAck >= t.lastAck &&
            (forall i :: 0 <= i < |packets| && packets[i].key in s.keyToSeq ==> s.keyToSeq[packets[i].key] <= r.lastAck) &&
            (r.lastAck == t.lastAck ||
             exists i :: 0 <= i < |packets| && packets[i].key in s.keyToSeq && s.keyToSeq[packets[i].key] == r.lastAck)
    decreases |packets|
  {
    hide Release, Taken, Left, FeedbackOne, Mapped;
    if packets != [] {
      var f := packets[0];
      var t1 := FeedbackOne(t, f, now).0;
      OneReported(s, t, f, now, taken);
      OneAcknowledges(s, t, f, now, taken);
      OnlyItsKey(s, f);
      TakenKnown(s, [f]);
      LoopAcknowledges(s, t1, packets[1..], now, taken + Taken(s, [f]));
      var r := FeedbackLoop(t, packets, now).0;
      forall i | 0 <= i < |packets| && packets[i].key in s.keyToSeq
        ensures s.keyToSeq[packets[i].key] <= r.lastAck
      {
        assert i > 0 ==> packets[1..][i - 1] == packets[i];
      }
      if r.lastAck != t.lastAck && r.lastAck != t1.lastAck {
        var i :| 0 <= i < |packets[1..]| && packets[1..][i].key in s.keyToSeq && s.keyToSeq[packets[1..][i].key] == r.lastAck;
        assert packets[i + 1] == packets[1..][i];
      }
    }
  }

  lemma OnlyItsKey(s: State, f: Reported)
    ensures forall key :: key in Taken(s, [f]) ==> key == f.key
  {
  }

  lemma OneAcknowledges(s: State, t: State, f: Reported, now: int, taken: set<Key>)
    requires Left(s, t, taken) && forall key :: key in taken ==> key in s.keyToSeq && s.keyToSeq[key] <= t.lastAck
    ensures var t1 := FeedbackOne(t, f, now).0;
            t1.lastAck == if f.key in s.keyToSeq && s.keyToSeq[f.key] > t.lastAck then s.keyToSeq[f.key] else t.lastAck
  {
    hide Release;
  }

  /** A message acknowledges exactly up to the highest number it reports on, received or not. */
  lemma AcknowledgesHighest(s: State, packets: seq<Reported>, now: int)
    requires Mapped(s)
    ensures var r := Feedback(s, packets, now).0;
            r.lastAck >= s.lastAck &&
            (forall i :: 0 <= i < |packets| && packets[i].key in s.keyToSeq ==> s.keyToSeq[packets[i].key] <= r.lastAck) &&
            (r.lastAck == s.lastAck ||
             exists i :: 0 <= i < |packets| && packets[i].key in s.keyToSeq && s.keyToSeq[packets[i].key] == r.lastAck)
  {
    PruneRecentFrame(s, now);
    var t := PruneRecent(s, now);
    AllLeft(t);
    LoopAcknowledges(t, t, packets, now, {});
  }

  // ---------------------------------------------------------------------------
  // Entries leave by age after 60 s

  /** Adding a packet drops entries from the front as long as they were made more than 60 s ago. */
  lemma {:induction false} PruneDropsOld(s: State, now: int)
    ensures var r := PruneHistory(s, now);
            (forall n :: n in r.history <==> n in s.history && r.history != map[] && First(r.history) <= n) &&
            (forall n :: n in s.history && n !in r.history ==> now - s.history[n].creationTime > 60_000_000) &&
            (forall n :: n in r.history ==> r.history[n] == s.history[n]) &&
            (r.history != map[] ==> now - r.history[First(r.history)].creationTime <= 60_000_000)
    decreases |s.history|
  {
    if s.history != map[] && now - s.history[First(s.history)].creationTime > SEND_TIME_HISTORY_WINDOW {
      RemoveShrinks(s.history, First(s.history));
      PruneDropsOld(DropFirst(s), now);
    }
  }

  // ---------------------------------------------------------------------------
  // Reports of sending

  /** Data sent outside feedback that is waiting to be attributed, or has been. */
  ghost function Untracked(s: State): int {
    s.pendingUntracked + Sum(PriorUnacked(s.history))
  }

  ghost function PriorUnacked(h: map<int, PacketFeedback>): map<int, int> {
    map n | n in h :: h[n].priorUnackedData
  }

  /** A report of sending neither loses nor doubles such data: it is held until the next tracked
      packet is reported, and then counted there, once. */
  lemma SendingKeepsUntracked(s: State, id: int, includedInFeedback: bool, includedInAllocation: bool, size: nat,
                              sendTime: int)
    ensures var r := SentPacket(s, id, includedInFeedback, includedInAllocation, size, sendTime).0;
            Untracked(r) == Untracked(s) +
              if !includedInFeedback && id == -1 && includedInAllocation then size else 0
  {
    hide Unwrap;
    var r := SentPacket(s, id, includedInFeedback, includedInAllocation, size, sendTime).0;
    var n := Unwrap(s.unwrapper, Wrap(id)).1;
    if n in s.history && n in r.history {
      assert PriorUnacked(s.history[n := r.history[n]]) == PriorUnacked(s.history)[n := r.history[n].priorUnackedData];
      SumUpdate(PriorUnacked(s.history), n, r.history[n].priorUnackedData);
    }
  }

  /** A packet is handed on exactly at its first report of sending, with the time of it and with
      what is then in flight on the current route; later reports only note the time. */
  lemma SentOnce(s: State, id: int, includedInAllocation: bool, size: nat, sendTime: int)
    ensures var (r, p) := SentPacket(s, id, true, includedInAllocation, size, sendTime);
            var n := Unwrap(s.unwrapper, Wrap(id)).1;
            (p.Some? <==> n in s.history && s.history[n].sendTime.None?) &&
            (n in s.history ==> n in r.history && r.history[n].sendTime == Some(sendTime)) &&
            (p.Some? ==> p.value == r.history[n] && p.value.sendTime == Some(sendTime) &&
                         p.value.size == s.history[n].size && p.value.key == s.history[n].key &&
                         p.value.dataInFlight == Outstanding(r.inFlight, s.route)) &&
            forall k :: k != n && k in s.history ==> k in r.history && r.history[k] == s.history[k]
  {
    hide Unwrap, AddInFlight;
  }
}
