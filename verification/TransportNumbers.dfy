/**
 The adapter over whole runs: exactly when its key mappings stay right, that fresh
 transport numbers are enough for that and for one report per packet, and a run in which
 feedback for one packet is credited to another.
 */
module TransportNumbers {
  import opened Options
  import opened SeqNum
  import opened MapSums
  import opened AdapterModel
  import opened InFlight
  import opened FeedbackOnce

  // ---------------------------------------------------------------------------
  // Exactly when mappings stay right

  predicate IsAdd(e: Event) {
    e.PacketAdded? && e.transportSeq.Some?
  }

  /** A packet that is added does not take the transport number of another key, or its own
      key is mapped already. */
  ghost predicate AddsCleanly(s: State, e: Event) {
    IsAdd(e) ==>
      var (t, n) := BeforeRegister(s, e.transportSeq.value, e.now);
      e.key in t.keyToSeq || n !in t.history || t.history[n].key == e.key
  }

  ghost predicate AllAddCleanly(s: State, events: seq<Event>) {
    forall i :: 0 <= i < |events| ==> AddsCleanly(Run(s, events[..i]), events[i])
  }

  ghost predicate AlwaysMapped(s: State, events: seq<Event>) {
    forall i :: 0 <= i <= |events| ==> Mapped(Run(s, events[..i]))
  }

  lemma StepMappedIff(s: State, e: Event)
    requires Mapped(s)
    ensures Mapped(Step(s, e)) <==> AddsCleanly(s, e)
  {
    hide Mapped, PruneHistory, PruneRecent;
    if IsAdd(e) {
      AddMappedIff(s, e.transportSeq.value, e.key, e.size, e.now);
    } else if !e.PacketAdded? {
      OthersMapped(s, e);
    }
  }

  lemma FrontMapped(s: State, events: seq<Event>)
    requires events != []
    ensures var front := events[..|events| - 1];
            (AlwaysMapped(s, events) <==> AlwaysMapped(s, front) && Mapped(Run(s, events))) &&
            (AllAddCleanly(s, events) <==>
             AllAddCleanly(s, front) && AddsCleanly(Run(s, front), events[|events| - 1]))
  {
    hide Mapped, AddsCleanly, Run;
    var n := |events| - 1;
    var front := events[..n];
    assert forall i :: 0 <= i <= n ==> front[..i] == events[..i];
    assert events[..n + 1] == events;
    if AlwaysMapped(s, front) && Mapped(Run(s, events)) {
      forall i | 0 <= i <= |events|
        ensures Mapped(Run(s, events[..i]))
      {
        assert i == n + 1 || Mapped(Run(s, front[..i]));
      }
    }
    if AlwaysMapped(s, events) {
      forall i | 0 <= i <= n
        ensures Mapped(Run(s, front[..i]))
      {
        assert Mapped(Run(s, events[..i]));
      }
    }
    if AllAddCleanly(s, front) && AddsCleanly(Run(s, front), events[n]) {
      forall i | 0 <= i < |events|
        ensures AddsCleanly(Run(s, events[..i]), events[i])
      {
        assert i == n || AddsCleanly(Run(s, front[..i]), front[i]);
      }
    }
    if AllAddCleanly(s, events) {
      forall i | 0 <= i < n
        ensures AddsCleanly(Run(s, front[..i]), front[i])
      {
        assert AddsCleanly(Run(s, events[..i]), events[i]);
      }
    }
  }

  /** On every run, all key mappings are right at all times exactly when every packet is
      added cleanly. */
  lemma {:induction false} MappedThroughoutIff(s: State, events: seq<Event>)
    requires Mapped(s)
    ensures AlwaysMapped(s, events) <==> AllAddCleanly(s, events)
    decreases |events|
  {
    hide Mapped, AddsCleanly, Step;
    if events == [] {
      assert Run(s, []) == s;
    } else {
      hide AlwaysMapped, AllAddCleanly;
      var n := |events| - 1;
      MappedThroughoutIff(s, events[..n]);
      FrontMapped(s, events);
      if AlwaysMapped(s, events[..n]) {
        LastMapped(s, events[..n]);
        StepMappedIff(Run(s, events[..n]), events[n]);
      }
    }
  }

  lemma LastMapped(s: State, events: seq<Event>)
    requires AlwaysMapped(s, events)
    ensures Mapped(Run(s, events))
  {
    assert events[..|events|] == events;
  }

  // ---------------------------------------------------------------------------
  // Fresh transport numbers

  /** The sender's counter in an event, before it is cut to 16 bits. */
  function NumberOf(e: Event): Option<int> {
    match e
    case PacketAdded(transportSeq, _, _, _) => transportSeq
    case PacketSent(id, feedback, _, _, _) => if feedback || id != -1 then Some(id) else None
    case _ => None
  }

  function LastNumber(events: seq<Event>): Option<int>
    decreases |events|
  {
    if events == [] then None
    else if NumberOf(events[|events| - 1]).Some? then NumberOf(events[|events| - 1])
    else LastNumber(events[..|events| - 1])
  }

  /** How far unwrapped numbers are from the sender's counters: the error of the first. */
  function Shift(events: seq<Event>): int
    decreases |events|
  {
    if events == [] then 0
    else
      var front, n := events[..|events| - 1], NumberOf(events[|events| - 1]);
      if LastNumber(front).None? && n.Some? then Wrap(n.value) - n.value else Shift(front)
  }

  /** Consecutive numbers are less than half the number space apart. */
  predicate SmallNumberSteps(events: seq<Event>) {
    forall i :: 0 <= i < |events| && NumberOf(events[i]).Some? && LastNumber(events[..i]).Some? ==>
      -HALF < NumberOf(events[i]).value - LastNumber(events[..i]).value < HALF
  }

  /** No two packets are added under the same number. */
  predicate DistinctNumbers(events: seq<Event>) {
    forall i, j :: 0 <= i < j < |events| && IsAdd(events[i]) && IsAdd(events[j]) ==>
      events[i].transportSeq.value != events[j].transportSeq.value
  }

  /** Some packet was added under a counter that unwraps to `n`. */
  predicate Used(events: seq<Event>, n: int) {
    exists i :: 0 <= i < |events| && IsAdd(events[i]) && events[i].transportSeq.value + Shift(events) == n
  }

  /** The unwrapper stands at the last number, and only used numbers are in the history. */
  ghost predicate InStep(s: State, events: seq<Event>) {
    (match LastNumber(events)
     case None => s.unwrapper == Fresh
     case Some(last) => s.unwrapper == Started(Wrap(last), last + Shift(events))) &&
    forall n :: n in s.history ==> Used(events, n)
  }

  lemma {:induction false} PruneHistoryUnwrapper(s: State, now: int)
    ensures PruneHistory(s, now).unwrapper == s.unwrapper
    decreases |s.history|
  {
    if s.history != map[] && now - s.history[First(s.history)].creationTime > SEND_TIME_HISTORY_WINDOW {
      RemoveShrinks(s.history, First(s.history));
      PruneHistoryUnwrapper(DropFirst(s), now);
    }
  }

  lemma {:induction false} FeedbackLoopKeeps(s: State, packets: seq<Reported>, now: int)
    ensures var t := FeedbackLoop(s, packets, now).0;
            t.unwrapper == s.unwrapper && t.history.Keys <= s.history.Keys
    decreases |packets|
  {
    if packets != [] {
      FeedbackLoopKeeps(FeedbackOne(s, packets[0], now).0, packets[1..], now);
    }
  }

  /** What one event does to the unwrapper and to the numbers in the history. */
  lemma StepNumbers(s: State, e: Event)
    ensures Step(s, e).unwrapper ==
            if NumberOf(e).Some? then Unwrap(s.unwrapper, Wrap(NumberOf(e).value)).0 else s.unwrapper
    ensures forall n :: n in Step(s, e).history ==>
              n in s.history || (IsAdd(e) && n == Unwrap(s.unwrapper, Wrap(e.transportSeq.value)).1)
  {
    hide Wrap, Unwrap, PruneHistory;
    match e
    case PacketAdded(transportSeq, key, size, now) =>
      if transportSeq.Some? {
        PruneRecentFrame(s, now);
        var s1 := PruneRecent(s, now).(unwrapper := Unwrap(s.unwrapper, Wrap(transportSeq.value)).0);
        PruneHistoryUnwrapper(s1, now);
        PruneHistoryShrinks(s1, now);
      }
    case PacketSent(id, feedback, allocation, size, sendTime) =>
    case FeedbackReceived(packets, now) =>
      PruneRecentFrame(s, now);
      FeedbackLoopKeeps(PruneRecent(s, now), packets, now);
    case PacketRemoved(key) =>
    case RouteSet(route) =>
  }

  /** The next number unwraps to the sender's counter plus the shift. */
  lemma UnwrapsShifted(s: State, events: seq<Event>)
    requires events != [] && InStep(s, events[..|events| - 1]) && SmallNumberSteps(events)
    requires NumberOf(events[|events| - 1]).Some?
    ensures var v := NumberOf(events[|events| - 1]).value;
            Unwrap(s.unwrapper, Wrap(v)) == (Started(Wrap(v), v + Shift(events)), v + Shift(events))
  {
    hide Wrap, Unwrap, Used;
    var front, v := events[..|events| - 1], NumberOf(events[|events| - 1]).value;
    UnwrapFirst(v);
    if LastNumber(front).Some? {
      UnwrapNext(LastNumber(front).value, Shift(front), v);
    }
  }

  lemma UnwrapFirst(v: int)
    ensures Unwrap(Fresh, Wrap(v)) == (Started(Wrap(v), Wrap(v)), Wrap(v))
  {
  }

  lemma UnwrapNext(last: int, shift: int, v: int)
    requires -HALF < v - last < HALF
    ensures Unwrap(Started(Wrap(last), last + shift), Wrap(v)) == (Started(Wrap(v), v + shift), v + shift)
  {
    hide Wrap, Delta;
    DeltaIsStep(last, v);
  }

  lemma {:induction false} AddedMeansNumbered(events: seq<Event>, i: nat)
    requires i < |events| && IsAdd(events[i])
    ensures LastNumber(events).Some?
    decreases |events|
  {
    if i < |events| - 1 {
      AddedMeansNumbered(events[..|events| - 1], i);
    }
  }

  /** Used numbers stay used, and an addition uses its own, which was not used before. */
  lemma UsedGrows(events: seq<Event>, n: int)
    requires events != []
    ensures var e, front := events[|events| - 1], events[..|events| - 1];
            (Used(front, n) ==> Used(events, n)) &&
            (IsAdd(e) && n == e.transportSeq.value + Shift(events) ==>
               Used(events, n) && (DistinctNumbers(events) ==> !Used(front, n)))
  {
    hide Shift;
    var m := |events| - 1;
    var front := events[..m];
    if Used(front, n) {
      var i :| 0 <= i < m && IsAdd(front[i]) && front[i].transportSeq.value + Shift(front) == n;
      AddedMeansNumbered(front, i);
      ShiftKept(events);
      assert events[i] == front[i];
    }
  }

  lemma ShiftKept(events: seq<Event>)
    requires events != [] && LastNumber(events[..|events| - 1]).Some?
    ensures Shift(events) == Shift(events[..|events| - 1])
  {
  }

  lemma StepInStep(s: State, events: seq<Event>)
    requires events != [] && InStep(s, events[..|events| - 1]) && SmallNumberSteps(events)
    ensures InStep(Step(s, events[|events| - 1]), events)
  {
    var m := |events| - 1;
    var e, front := events[m], events[..m];
    StepNumbers(s, e);
    if NumberOf(e).Some? {
      UnwrapsShifted(s, events);
    } else if LastNumber(front).Some? {
      ShiftKept(events);
    }
    hide Wrap, Unwrap, Step, Shift, Used;
    forall n | n in Step(s, e).history
      ensures Used(events, n)
    {
      UsedGrows(events, n);
    }
  }

  lemma {:induction false} RunInStep(route: Route, events: seq<Event>)
    requires SmallNumberSteps(events)
    ensures InStep(Run(Initial(route), events), events)
    decreases |events|
  {
    hide Step, Shift, Used;
    if events != [] {
      hide InStep;
      ShorterSteps(events);
      RunInStep(route, events[..|events| - 1]);
      StepInStep(Run(Initial(route), events[..|events| - 1]), events);
    }
  }

  lemma ShorterSteps(events: seq<Event>)
    requires events != []
    ensures SmallNumberSteps(events) ==> SmallNumberSteps(events[..|events| - 1])
    ensures DistinctNumbers(events) ==> DistinctNumbers(events[..|events| - 1])
  {
    hide NumberOf, LastNumber;
    var front := events[..|events| - 1];
    assert forall i :: 0 <= i < |front| ==> front[..i] == events[..i] && front[i] == events[i];
  }

  /** A fresh number is not in the history. */
  lemma FreshIsClean(s: State, events: seq<Event>)
    requires events != [] && InStep(s, events[..|events| - 1])
    requires SmallNumberSteps(events) && DistinctNumbers(events)
    ensures AddsCleanly(s, events[|events| - 1])
  {
    hide Wrap, Unwrap, PruneHistory, Shift, Used, LastNumber, SmallNumberSteps, DistinctNumbers;
    var e := events[|events| - 1];
    if IsAdd(e) {
      UnwrapsShifted(s, events);
      UsedGrows(events, e.transportSeq.value + Shift(events));
      PruneRecentFrame(s, e.now);
      PruneHistoryShrinks(PruneRecent(s, e.now).(unwrapper := Unwrap(s.unwrapper, Wrap(e.transportSeq.value)).0), e.now);
    }
  }

  /** With fresh transport numbers every mapping is right throughout every run. */
  lemma {:induction false} FreshNumbersStayMapped(route: Route, events: seq<Event>)
    requires SmallNumberSteps(events) && DistinctNumbers(events)
    ensures AlwaysMapped(Initial(route), events)
    decreases |events|
  {
    hide Step, AddsCleanly, InStep, SmallNumberSteps, DistinctNumbers;
    var s := Initial(route);
    if events == [] {
      assert Run(s, []) == s;
    } else {
      hide AlwaysMapped, Mapped;
      var front := events[..|events| - 1];
      ShorterSteps(events);
      FreshNumbersStayMapped(route, front);
      RunInStep(route, front);
      FreshIsClean(Run(s, front), events);
      LastMapped(s, front);
      StepMappedIff(Run(s, front), events[|events| - 1]);
      FrontMapped(s, events);
    }
  }

  /** With fresh transport numbers no packet is reported received twice. */
  lemma FreshNumbersReportOnce(route: Route, events: seq<Event>, n: int)
    requires SmallNumberSteps(events) && DistinctNumbers(events)
    ensures AllReports(Initial(route), events, n) <= 1
  {
    hide AllReports, AllInsertions, Run;
    assert Filed(Initial(route).history);
    ReceivedAtMostOncePerInsertion(Initial(route), events, n);
    InsertedOnce(route, events, n);
  }

  lemma {:induction false} InsertedOnce(route: Route, events: seq<Event>, n: int)
    requires SmallNumberSteps(events) && DistinctNumbers(events)
    ensures AllInsertions(Initial(route), events, n) <= One(Used(events, n))
    decreases |events|
  {
    hide Insertions, Used, Run, InStep, SmallNumberSteps, DistinctNumbers;
    if events != [] {
      var front := events[..|events| - 1];
      ShorterSteps(events);
      InsertedOnce(route, front, n);
      RunInStep(route, front);
      UsedGrows(events, n);
      InsertionUses(Run(Initial(route), front), events, n);
    }
  }

  lemma InsertionUses(s: State, events: seq<Event>, n: int)
    requires events != [] && InStep(s, events[..|events| - 1]) && SmallNumberSteps(events)
    ensures var e := events[|events| - 1];
            Insertions(s, e, n) <= 1 &&
            (Insertions(s, e, n) == 1 ==> IsAdd(e) && n == e.transportSeq.value + Shift(events))
  {
    hide Wrap, Unwrap, PruneHistory, Shift, Used, LastNumber, SmallNumberSteps;
    var e := events[|events| - 1];
    if IsAdd(e) {
      UnwrapsShifted(s, events);
      PruneRecentFrame(s, e.now);
    }
  }

  // ---------------------------------------------------------------------------
  // A number used twice

  const FIRST := Key(1, 7)
  const SECOND := Key(2, 7)

  /** Two packets under the same transport number, of which one is sent. */
  const CLASH: seq<Event> :=
    [PacketAdded(Some(5), FIRST, 100, 0), PacketAdded(Some(5), SECOND, 100, 0), PacketSent(5, true, true, 100, 0)]

  const AFTER_ONE: State :=
    State(Started(5, 5), -1, map[], 0, map[FIRST := 5], map[5 := Entry(5, false, 0, FIRST)], map[], [], 0, 0)

  const AFTER_CLASH: State :=
    State(Started(5, 5), -1, map[0 := 100], 0, map[FIRST := 5, SECOND := 5], map[5 := Entry(5, true, 100, FIRST)],
          map[], [], 0, 0)

  lemma ClashNumbers()
    ensures SmallNumberSteps(CLASH) && !DistinctNumbers(CLASH)
  {
    assert CLASH[0].transportSeq == CLASH[1].transportSeq;
    forall i | 0 <= i < |CLASH| && LastNumber(CLASH[..i]).Some?
      ensures LastNumber(CLASH[..i]).value == 5
    {
      LastIsFive(CLASH[..i]);
    }
  }

  lemma {:induction false} LastIsFive(events: seq<Event>)
    requires forall i :: 0 <= i < |events| ==> NumberOf(events[i]) == Some(5)
    ensures LastNumber(events).Some? ==> LastNumber(events).value == 5
  {
  }

  lemma UnwrapFive()
    ensures Unwrap(Started(5, 5), Wrap(5)) == (Started(5, 5), 5) && Unwrap(Fresh, Wrap(5)) == (Started(5, 5), 5)
  {
    hide Wrap, Delta, Unwrap;
    assert Wrap(5) == 5 by {
      WrapFive();
    }
    UnwrapNext(5, 0, 5);
    UnwrapFirst(5);
  }

  lemma WrapFive()
    ensures Wrap(5) == 5
  {
  }

  lemma ClashRun()
    ensures Run(Initial(0), CLASH) == AFTER_CLASH
  {
    hide Step, Run;
    ClashSteps();
    RunOfThree(Initial(0), CLASH[0], CLASH[1], CLASH[2]);
  }

  lemma RunOfThree(s: State, e1: Event, e2: Event, e3: Event)
    ensures Run(s, [e1, e2, e3]) == Step(Step(Step(s, e1), e2), e3)
  {
    hide Step, Run;
    assert [e1, e2, e3] == ([] + [e1] + [e2]) + [e3];
    RunOfNone(s);
    RunAppend(s, [], e1);
    RunAppend(s, [] + [e1], e2);
    RunAppend(s, [] + [e1] + [e2], e3);
  }

  lemma ClashSteps()
    ensures Step(Step(Step(Initial(0), CLASH[0]), CLASH[1]), CLASH[2]) == AFTER_CLASH
  {
    hide Wrap, Unwrap, PruneHistory;
    UnwrapFive();
    NothingToPrune(Initial(0).(unwrapper := Started(5, 5)));
    assert Step(Initial(0), CLASH[0]) == AFTER_ONE;
    NothingToPrune(AFTER_ONE);
    var s2 := Step(AFTER_ONE, CLASH[1]);
    assert s2 == AFTER_ONE.(keyToSeq := map[FIRST := 5, SECOND := 5]);
    assert Step(s2, CLASH[2]) == AFTER_CLASH;
  }

  lemma ClashFeedback()
    ensures Feedback(AFTER_CLASH, [Reported(SECOND, true)], 0).1 == [Result(Entry(5, true, 100, FIRST), true)]
  {
    var f := Reported(SECOND, true);
    assert [f][1..] == [];
    assert PruneRecent(AFTER_CLASH, 0) == AFTER_CLASH;
    var (s1, r) := FeedbackOne(AFTER_CLASH, f, 0);
    assert r == Some(Result(Entry(5, true, 100, FIRST), true));
    assert FeedbackLoop(s1, [], 0) == (s1, []);
    assert FeedbackLoop(AFTER_CLASH, [f], 0).1 == [r.value] + [];
  }

  /** The second packet is mapped to the entry of the first, and feedback that the second
      one arrived is handed on as the arrival of the first. */
  lemma ClashCreditsTheWrongPacket()
    ensures SmallNumberSteps(CLASH) && !DistinctNumbers(CLASH)
    ensures !AlwaysMapped(Initial(0), CLASH)
    ensures var results := Feedback(Run(Initial(0), CLASH), [Reported(SECOND, true)], 0).1;
            |results| == 1 && results[0].received && results[0].sent.key == FIRST
  {
    hide SmallNumberSteps, DistinctNumbers, AlwaysMapped;
    ClashNumbers();
    ClashRun();
    ClashFeedback();
    if AlwaysMapped(Initial(0), CLASH) {
      LastMapped(Initial(0), CLASH);
      assert false;
    }
  }
}
