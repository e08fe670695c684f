/**
 What it costs that the pacer rounds the drained debt to the nearest byte at every
 update: called often enough, it sends at twice the configured rate for as long as it runs.
 */
module PacerRounding {
  import opened Options
  import opened QueueModel
  import opened QueueInvariant
  import opened QueueService
  import QueueRuns
  import opened PacerModel
  import opened PacerBound
  import opened Units

  /** A single update pays more than its elapsed time is worth exactly when the fraction of
      a byte is at least one half and there is debt left to pay it on; and that is counted. */
  lemma OverpaysIff(s: Pacer, elapsed: int)
    requires s.rate > 0 && elapsed >= 0 && s.mediaDebt >= 0
    ensures MICROBITS_PER_BYTE * (Pay(s, elapsed).ledger.paid - s.ledger.paid) > s.rate * elapsed <==>
            (s.rate * elapsed) % MICROBITS_PER_BYTE >= 4_000_000 &&
            MICROBITS_PER_BYTE * s.mediaDebt > s.rate * elapsed
    ensures MICROBITS_PER_BYTE * (Pay(s, elapsed).ledger.paid - s.ledger.paid) > s.rate * elapsed <==>
            Pay(s, elapsed).ledger.overpaid == s.ledger.overpaid + 1
  {
  }

  /** Before the next send time a call only pays. */
  lemma EarlyCall(s: Pacer, now: int)
    requires s.rate > 0 && Inv(s.queue) && !s.paused && s.lastTimestamp <= now
    requires now < s.lastSendTime + CONGESTED_PACKET_INTERVAL && now < NextSendTime(s)
    ensures Process(s, now, 0) == PayUpTo(Clock(s, now), now)
  {
    hide Inv, SendLoop, PayUpTo;
  }

  // ---------------------------------------------------------------------------
  // A packet through a quiet pacer

  const VIDEO_LEVEL: Level := 3

  function VideoOf(size: nat): Packet {
    Packet(1, 0, Video, Some(VideoOriginal), size, 0, false)
  }

  /** Nothing queued, nothing owed, and the last call was the latest event. */
  ghost predicate Quiet(s: Pacer, origin: int) {
    PacerInv(s, origin) && !s.paused && !s.congested && s.queue.sizePackets == 0 && s.mediaDebt == 0 &&
    s.lastTimestamp == s.lastProcessTime && s.lastTimestamp < s.lastSendTime + CONGESTED_PACKET_INTERVAL
  }

  lemma {:induction false} RunConcat(s: Pacer, a: seq<Event>, b: seq<Event>, origin: int)
    requires PacerInv(s, origin)
    ensures Run(s, a + b, origin) == Run(Run(s, a, origin), b, origin)
    decreases |a|
  {
    hide PacerInv, Step, Inv;
    if a == [] {
      assert [] + b == b;
    } else {
      assert (a + b)[0] == a[0] && (a + b)[1..] == a[1..] + b;
      StepInv(s, a[0], origin);
      PositiveRate(s, origin);
      RunConcat(Step(s, a[0]), a[1..], b, origin);
    }
  }

  /** An empty queue has no head that would be sent un-paced. */
  lemma EmptyQueue(q: State)
    requires Inv(q) && q.sizePackets == 0
    ensures UnpacedTime(q).None? && forall k: nat, o: Level :: Deque(q, k, o) == []
  {
    hide Inv;
    PopRefinesSpec(q);
  }

  lemma RunNothing(s: Pacer, origin: int)
    requires PacerInv(s, origin)
    ensures Run(s, [], origin) == s
  {
  }

  lemma ProcessStep(s: Pacer, e: Event, origin: int)
    requires PacerInv(s, origin)
    ensures s.rate > 0 && Inv(s.queue) && PacerInv(Step(s, e), origin)
    ensures e.Processed? ==> Step(s, e) == Process(s, e.clock, e.keepAliveBytes)
    ensures e.PacketEnqueued? ==> Step(s, e) == Enqueue(s, e.clock, e.packet)
  {
    hide Inv, Books, Bounded, Process, Enqueue;
    StepInv(s, e, origin);
  }

  lemma RunFirst(s: Pacer, e: Event, events: seq<Event>, origin: int)
    requires PacerInv(s, origin) && s.rate > 0 && Inv(s.queue) && PacerInv(Step(s, e), origin)
    ensures Run(s, [e] + events, origin) == Run(Step(s, e), events, origin)
  {
    hide Inv, PacerInv, Step;
    assert ([e] + events)[1..] == events;
  }

  /** The packet is the only one queued, behind nothing that is un-paced. */
  lemma OnlyPacket(q: State, now: int, size: nat)
    requires Inv(q) && q.sizePackets == 0
    ensures var r := Push(q, now, VideoOf(size));
            Inv(r) && r.sizePackets != 0 && UnpacedTime(r).None? && CanServe(r) &&
            Pop(r).1.Some? && Pop(r).1.value.packet == VideoOf(size) && Inv(Pop(r).0) && Pop(r).0.sizePackets == 0 &&
            UnpacedTime(Pop(r).0).None?
  {
    hide Inv, Push, Pop;
    EmptyQueue(q);
    PushEffect(q, now, VideoOf(size));
    var r := Push(q, now, VideoOf(size));
    var d := BeforeAppend(q, now, VideoOf(size)).1;
    assert Deque(r, 1, VIDEO_LEVEL) == [d];
    assert forall k: nat, o: Level :: Deque(r, k, o) == if k == 1 && o == VIDEO_LEVEL then [d] else [];
    InvCanServe(r);
    PopRefinesSpec(r);
    PopInv(r);
    PacedIsMedia(r);
    var r1 := Pop(r).0;
    forall k: nat, o: Level
      ensures Deque(r1, k, o) == []
    {
      if Deque(r1, k, o) != [] {
        QueueRuns.PopProvenance(r, k, o, Deque(r1, k, o)[0]);
        assert false;
      }
    }
    InvCanServe(r1);
    PopRefinesSpec(r1);
    EmptyQueue(r1);
  }

  /** A quiet pacer takes the packet in, */
  lemma Offered(s: Pacer, size: nat, origin: int)
    requires Quiet(s, origin)
    ensures s.rate > 0
    ensures var t := s.lastTimestamp;
            Enqueue(s, t, VideoOf(size)) == s.(queue := Push(s.queue, t, VideoOf(size)), seenFirstPacket := true)
  {
    hide Inv, Push, Books, Bounded;
    EmptyQueue(s.queue);
  }

  /** Quiet but for the one packet. */
  ghost predicate Loaded(s: Pacer, size: nat) {
    s.rate > 0 && 0 < size <= DebtCap(s.rate) && s.burstInterval >= 0 && Inv(s.queue) && s.queue.sizePackets != 0 &&
    !s.paused && !s.congested && s.seenFirstPacket && s.mediaDebt == 0 && s.lastTimestamp == s.lastProcessTime &&
    s.lastTimestamp < s.lastSendTime + CONGESTED_PACKET_INTERVAL && UnpacedTime(s.queue).None? && CanServe(s.queue) &&
    Pop(s.queue).1.Some? && Pop(s.queue).1.value.packet == VideoOf(size) &&
    Pop(s.queue).0.sizePackets == 0 && UnpacedTime(Pop(s.queue).0).None?
  }

  /** What is left when the packet is sent. */
  ghost function Unloaded(s: Pacer, size: nat): Pacer
    requires Loaded(s, size)
  {
    s.(queue := Pop(s.queue).0, mediaDebt := size, lastSendTime := s.lastTimestamp,
       ledger := s.ledger.(paced := s.ledger.paced + size, largest := Max(s.ledger.largest, size),
                           sent := s.ledger.sent + [VideoOf(size)]))
  }

  /** and sends it at once. */
  lemma SentAtOnce(s: Pacer, size: nat)
    requires Loaded(s, size)
    ensures Process(s, s.lastTimestamp, 0) == Unloaded(s, size)
  {
    hide Inv, Pop, CanServe, SendLoop, UnpacedTime;
    var t := s.lastTimestamp;
    assert NextSendTime(s) == t;
    assert PayUpTo(s, t) == s;
    OneRound(s, size, CIRCUIT_BREAKER_THRESHOLD);
  }

  lemma OneRound(s: Pacer, size: nat, fuel: nat)
    requires fuel > 0 && Loaded(s, size)
    ensures SendLoop(s, s.lastTimestamp, s.lastTimestamp, fuel) == Unloaded(s, size)
  {
    hide Inv, Pop, UnpacedTime, CanServe;
  }

  /** The packet arrives and the pacer is called. */
  function PacketEvents(t: int, size: nat): seq<Event> {
    [PacketEnqueued(t, VideoOf(size)), Processed(t, 0)]
  }

  predicate SameLimits(s: Pacer, t: Pacer) {
    t.rate == s.rate && t.burstInterval == s.burstInterval
  }

  /** A quiet pacer lets a packet within the debt cap straight through. */
  lemma PacketThrough(s: Pacer, size: nat, origin: int)
    requires Quiet(s, origin) && 0 < size <= DebtCap(s.rate)
    ensures var t, r := s.lastTimestamp, Run(s, PacketEvents(s.lastTimestamp, size), origin);
            PacerInv(r, origin) && r.queue.sizePackets == 0 && UnpacedTime(r.queue).None? &&
            r == s.(queue := r.queue, seenFirstPacket := true, mediaDebt := size, lastSendTime := t,
                    ledger := s.ledger.(paced := s.ledger.paced + size, largest := Max(s.ledger.largest, size),
                                        sent := s.ledger.sent + [VideoOf(size)]))
  {
    hide Inv, Push, Pop, Books, Bounded, Run, Step, Process, Enqueue, UnpacedTime, CanServe, DebtCap;
    var t := s.lastTimestamp;
    var e1, e2 := PacketEnqueued(t, VideoOf(size)), Processed(t, 0);
    ProcessStep(s, e1, origin);
    Offered(s, size, origin);
    OnlyPacket(s.queue, t, size);
    var s1 := Enqueue(s, t, VideoOf(size));
    SentAtOnce(s1, size);
    ProcessStep(s1, e2, origin);
    assert PacketEvents(t, size) == [e1] + ([e2] + []);
    RunFirst(s, e1, [e2] + [], origin);
    RunFirst(s1, e2, [], origin);
    RunNothing(Process(s1, t, 0), origin);
  }

  // ---------------------------------------------------------------------------
  // A run at twice the rate

  const RATE := 4_000_000

  /** Calls at every microsecond after `t`. */
  function TickEvents(t: int, n: nat): seq<Event>
    decreases n
  {
    if n == 0 then [] else [Processed(t + 1, 0)] + TickEvents(t + 1, n - 1)
  }

  /** A video packet of 1000 bytes arrives and is sent; then a millisecond passes. */
  function CycleEvents(t: int): seq<Event> {
    PacketEvents(t, 1000) + TickEvents(t, 1000)
  }

  function Cycles(t: int, n: nat): seq<Event>
    decreases n
  {
    if n == 0 then [] else CycleEvents(t) + Cycles(t + 1000, n - 1)
  }

  /** Half a byte is earned and a byte is paid each microsecond. */
  function Drained(s: Pacer, n: nat): Pacer {
    s.(mediaDebt := s.mediaDebt - n, lastTimestamp := s.lastTimestamp + n, lastProcessTime := s.lastProcessTime + n,
       ledger := s.ledger.(paid := s.ledger.paid + n, credit := s.ledger.credit + s.rate * n,
                           overpaid := s.ledger.overpaid + n))
  }

  /** The half byte per update is not slack of the proof. At 4 Mbit/s a pacer called every
      microsecond, with nothing queued or waiting for its debt to drain to the default burst
      of 40 ms, pays a whole byte for each half byte earned. */
  lemma {:induction false} FastTicksDoubleTheRate(s: Pacer, n: nat, origin: int)
    requires PacerInv(s, origin) && s.rate == RATE && !s.paused && !s.congested && s.seenFirstPacket
    requires s.mediaDebt >= n && s.lastTimestamp == s.lastProcessTime
    requires s.queue.sizePackets == 0 || (s.burstInterval == 40_000 && s.mediaDebt >= 20_000 + n)
    requires UnpacedTime(s.queue).None?
    requires s.lastTimestamp + n < s.lastSendTime + CONGESTED_PACKET_INTERVAL
    ensures Run(s, TickEvents(s.lastTimestamp, n), origin) == Drained(s, n)
    decreases n
  {
    hide Inv, Books, Bounded, SendLoop, Run, Step, UnpacedTime;
    if n == 0 {
      RunNothing(s, origin);
    } else {
      var now := s.lastTimestamp + 1;
      assert DrainTime(s.mediaDebt, RATE) == 2 * s.mediaDebt;
      EarlyCall(s, now);
      var e := Processed(now, 0);
      ProcessStep(s, e, origin);
      assert Process(s, now, 0) == Drained(s, 1);
      assert TickEvents(s.lastTimestamp, n) == [e] + TickEvents(now, n - 1);
      RunFirst(s, e, TickEvents(now, n - 1), origin);
      FastTicksDoubleTheRate(Drained(s, 1), n - 1, origin);
    }
  }

  /** A millisecond later it owes nothing. */
  lemma OneCycle(s: Pacer, origin: int)
    requires Quiet(s, origin) && s.rate == RATE
    ensures var r := Run(s, CycleEvents(s.lastTimestamp), origin);
            Quiet(r, origin) && r.lastTimestamp == s.lastTimestamp + 1000 && SameLimits(s, r) &&
            r.ledger.paced == s.ledger.paced + 1000 && r.ledger.largest == Max(s.ledger.largest, 1000) &&
            r.ledger.forgiven == s.ledger.forgiven
  {
    hide Inv, Books, Bounded, Run, TickEvents, UnpacedTime;
    var t := s.lastTimestamp;
    PacketThrough(s, 1000, origin);
    var sent := Run(s, PacketEvents(t, 1000), origin);
    RunConcat(s, PacketEvents(t, 1000), TickEvents(t, 1000), origin);
    FastTicksDoubleTheRate(sent, 1000, origin);
  }

  lemma {:induction false} ManyCycles(s: Pacer, n: nat, origin: int)
    requires Quiet(s, origin) && s.rate == RATE
    ensures var r := Run(s, Cycles(s.lastTimestamp, n), origin);
            Quiet(r, origin) && r.lastTimestamp == s.lastTimestamp + 1000 * n && SameLimits(s, r) &&
            r.ledger.paced == s.ledger.paced + 1000 * n &&
            r.ledger.largest == (if n == 0 then s.ledger.largest else Max(s.ledger.largest, 1000)) &&
            r.ledger.forgiven == s.ledger.forgiven
    decreases n
  {
    hide Quiet, PacerInv, Run, CycleEvents;
    QuietInv(s, origin);
    if n == 0 {
      RunNothing(s, origin);
    } else {
      OneCycle(s, origin);
      var t := s.lastTimestamp;
      RunConcat(s, CycleEvents(t), Cycles(t + 1000, n - 1), origin);
      ManyCycles(Run(s, CycleEvents(t), origin), n - 1, origin);
    }
  }

  lemma QuietInv(s: Pacer, origin: int)
    requires Quiet(s, origin)
    ensures PacerInv(s, origin)
  {
  }

  /** From a new pacer at 4 Mbit/s, whatever its burst interval, there are runs of any length
      in which it sends paced packets at exactly twice its rate. */
  lemma DoubleRateRun(now: int, prioritizeAudio: bool, ttls: Ttls, burst: nat, account: bool, n: nat)
    ensures PacerInv(Start(now, Initial(now, prioritizeAudio, ttls), RATE, burst, account), now)
    ensures var r := Run(Start(now, Initial(now, prioritizeAudio, ttls), RATE, burst, account), Cycles(now, n), now);
            r.rate == RATE && r.burstInterval == burst && r.lastProcessTime == now + 1000 * n &&
            r.ledger.paced == 1000 * n && (n > 0 ==> r.ledger.largest == 1000) && r.ledger.forgiven == 0 &&
            MICROBITS_PER_BYTE * r.ledger.paced == 2 * (r.rate * (r.lastProcessTime - now))
  {
    hide Books, Bounded, Inv, Run, Initial;
    StartInv(now, now, prioritizeAudio, ttls, RATE, burst, account);
    var s := Start(now, Initial(now, prioritizeAudio, ttls), RATE, burst, account);
    ManyCycles(s, n, now);
  }

  /** So the bound fails without its rounding term: at the default burst interval of 40 ms,
      the excess over the rate, the burst and one packet is 500 bytes for each millisecond
      after the 42nd. */
  lemma BoundNeedsRounding(now: int, prioritizeAudio: bool, ttls: Ttls, account: bool, n: nat)
    requires n > 0
    ensures PacerInv(Start(now, Initial(now, prioritizeAudio, ttls), RATE, 40_000, account), now)
    ensures var r := Run(Start(now, Initial(now, prioritizeAudio, ttls), RATE, 40_000, account), Cycles(now, n), now);
            MICROBITS_PER_BYTE * r.ledger.paced -
            (r.rate * (r.lastProcessTime - now) + Allowance(r) + MICROBITS_PER_BYTE * r.ledger.largest) ==
            MICROBITS_PER_BYTE * 500 * (n - 42)
  {
    hide PacerInv, Run, Initial;
    DoubleRateRun(now, prioritizeAudio, ttls, 40_000, account, n);
  }
}
