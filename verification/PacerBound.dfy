/**
 The leaky-bucket bound of the pacer over whole runs, with half a byte per budget
 update that rounds the drained debt up, and without it if none does.
 */
module PacerBound {
  import opened QueueModel
  import opened QueueInvariant
  import opened QueueService
  import QueueRuns
  import opened PacerModel
  import opened Units

  // ---------------------------------------------------------------------------
  // Rounding

  /** A payment is within half a byte of the exact amount. */
  lemma BytesAtRounds(rate: int, elapsed: int)
    ensures rate * elapsed - 4_000_000 < MICROBITS_PER_BYTE * BytesAt(rate, elapsed) <= rate * elapsed + 4_000_000
    ensures elapsed == 0 ==> BytesAt(rate, elapsed) == 0
  {
  }

  /** Draining for `DrainTime` leaves less than one microsecond at the rate, plus half a
      byte, of the debt. */
  lemma DrainLeaves(debt: int, rate: int)
    requires rate > 0 && debt >= 0
    ensures DrainTime(debt, rate) >= 0
    ensures MICROBITS_PER_BYTE * (debt - BytesAt(rate, DrainTime(debt, rate))) < rate + 4_000_000
  {
    var x, t := debt * MICROBITS_PER_BYTE, DrainTime(debt, rate);
    QuotientNonNegative(x, rate);
    assert x == rate * t + x % rate;
    BytesAtRounds(rate, t);
  }

  lemma QuotientNonNegative(x: int, d: int)
    requires x >= 0 && d > 0
    ensures x / d >= 0
  {
  }

  /** A drain time below `t` microseconds means a debt below what `t` can send. */
  lemma DrainBelow(debt: int, rate: int, t: int)
    requires rate > 0
    ensures DrainTime(debt, rate) < t <==> debt * MICROBITS_PER_BYTE < rate * t
  {
    var x, d := debt * MICROBITS_PER_BYTE, DrainTime(debt, rate);
    assert x == rate * d + x % rate;
    if d < t {
      assert rate * (d + 1) <= rate * t;
    } else {
      assert rate * t <= rate * d;
    }
  }

  // ---------------------------------------------------------------------------
  // The ledger

  /** The debt, in microbits, with which a paced packet may still be sent: what the burst
      interval can send (but no more than 63000 bytes), or the residue of draining. */
  function Allowance(s: Pacer): int
    requires s.rate > 0
  {
    Max(s.rate * BurstInterval(s), s.rate + 4_000_000)
  }

  /** At such a rate, within a hair of whole bytes per microsecond, no debt within the cap is
      ever overpaid. */
  predicate ExactRate(rate: int) {
    rate % MICROBITS_PER_BYTE < 8
  }

  lemma ExactRateNeverOverpays(s: Pacer, elapsed: int)
    requires s.rate > 0 && elapsed >= 0 && ExactRate(s.rate) && 0 <= s.mediaDebt <= DebtCap(s.rate)
    ensures !Overpays(s, elapsed)
  {
    hide BytesAt, DebtCap;
    var j, f := s.rate / MICROBITS_PER_BYTE, s.rate % MICROBITS_PER_BYTE;
    assert s.rate * elapsed == MICROBITS_PER_BYTE * (j * elapsed) + f * elapsed;
    ExactCap(s.rate);
    ProductNonNegative(f, elapsed);
    if MICROBITS_PER_BYTE * s.mediaDebt > s.rate * elapsed {
      Cancel(j, elapsed, MAX_DEBT_IN_TIME);
      FractionStaysBelow(f, elapsed);
      FractionOf(j * elapsed, f * elapsed);
    }
  }

  lemma ExactCap(rate: int)
    requires rate > 0 && ExactRate(rate)
    ensures DebtCap(rate) == MAX_DEBT_IN_TIME * (rate / MICROBITS_PER_BYTE)
  {
  }

  lemma FractionStaysBelow(f: nat, elapsed: nat)
    requires f < 8 && elapsed < MAX_DEBT_IN_TIME
    ensures f * elapsed < 4_000_000
  {
  }

  lemma FractionOf(bytes: int, part: nat)
    requires part < MICROBITS_PER_BYTE
    ensures (MICROBITS_PER_BYTE * bytes + part) % MICROBITS_PER_BYTE == part
  {
  }

  lemma Cancel(j: nat, x: nat, y: nat)
    requires j * x < y * j
    ensures x < y
  {
  }

  /** The debt is what was sent and charged, less what was paid and written off; payments
      are covered by elapsed time up to half a byte per update that overpays, of which there
      are none at an exact rate; elapsed time is covered by the advance of the process time
      since `origin`. */
  predicate Books(s: Pacer, origin: int) {
    var l := s.ledger;
    0 <= s.mediaDebt <= DebtCap(s.rate) &&
    s.mediaDebt == l.paced + l.unpaced - l.paid - l.forgiven &&
    MICROBITS_PER_BYTE * l.paid <= l.credit + 4_000_000 * l.overpaid &&
    (ExactRate(s.rate) ==> l.overpaid == 0) &&
    l.credit <= s.rate * (s.lastProcessTime - origin) &&
    l.unpaced >= 0 && l.forgiven >= 0 && l.paid >= 0 && l.largest >= 0 && l.overpaid >= 0
  }

  /** Paced bytes never exceed payments by more than the allowance and one packet. */
  predicate Bounded(s: Pacer)
    requires s.rate > 0
  {
    var l := s.ledger;
    MICROBITS_PER_BYTE * (l.paced - l.paid - l.forgiven) <= Allowance(s) + MICROBITS_PER_BYTE * l.largest
  }

  ghost predicate PacerInv(s: Pacer, origin: int) {
    s.rate > 0 && s.burstInterval >= 0 && Inv(s.queue) && Books(s, origin) && Bounded(s) &&
    s.lastProcessTime <= s.lastTimestamp && s.lastSendTime <= s.lastTimestamp &&
    (s.queue.sizePackets != 0 ==> s.seenFirstPacket)
  }

  /** What paying and charging leave alone. */
  predicate SameButBudget(s: Pacer, t: Pacer) {
    t == s.(mediaDebt := t.mediaDebt, lastProcessTime := t.lastProcessTime, ledger := t.ledger)
  }

  /** A payment exceeds what the time is worth only in an update that overpays. */
  lemma PaymentWorth(s: Pacer, elapsed: int)
    requires s.rate > 0 && elapsed >= 0 && s.mediaDebt >= 0
    ensures var payment := Min(s.mediaDebt, BytesAt(s.rate, elapsed));
            0 <= payment <= s.mediaDebt &&
            MICROBITS_PER_BYTE * payment <= s.rate * elapsed + if Overpays(s, elapsed) then 4_000_000 else 0
  {
    ProductNonNegative(s.rate, elapsed);
    BytesAtOf(s.rate * elapsed);
  }

  lemma ProductNonNegative(a: nat, b: nat)
    ensures a * b >= 0
  {
  }

  /** Rounding to the nearest byte. */
  lemma BytesAtOf(x: nat)
    ensures var bytes, part := (x + 4_000_000) / MICROBITS_PER_BYTE, x % MICROBITS_PER_BYTE;
            bytes >= 0 &&
            MICROBITS_PER_BYTE * bytes == x - part + if part >= 4_000_000 then MICROBITS_PER_BYTE else 0
  {
  }

  lemma PayBooks(s: Pacer, elapsed: int, origin: int)
    requires Books(s, origin) && elapsed >= 0 && s.rate > 0
    requires s.ledger.credit + s.rate * elapsed <= s.rate * (s.lastProcessTime - origin)
    ensures Books(Pay(s, elapsed), origin)
    ensures Bounded(s) ==> Bounded(Pay(s, elapsed))
  {
    hide ExactRate, BytesAt, Overpays, DebtCap;
    PaymentWorth(s, elapsed);
    if ExactRate(s.rate) {
      ExactRateNeverOverpays(s, elapsed);
    }
  }

  lemma PayUpToInv(s: Pacer, now: int, origin: int)
    requires PacerInv(s, origin) && now <= s.lastTimestamp
    ensures PacerInv(PayUpTo(s, now), origin)
    ensures SameButBudget(s, PayUpTo(s, now))
  {
    hide Inv, Bounded;
    if now >= s.lastProcessTime {
      var (s1, elapsed) := Elapse(s, now);
      ProductMonotone(s.rate, elapsed, now - s.lastProcessTime);
      assert s.rate * (now - origin) == s.rate * (s.lastProcessTime - origin) + s.rate * (now - s.lastProcessTime);
      AdvanceBounded(s, now);
      assert Books(s1, origin);
      PayBooks(s1, elapsed, origin);
    } else {
      assert s.rate * 0 == 0;
      PayBooks(s, 0, origin);
    }
  }

  lemma ProductMonotone(a: int, x: int, y: int)
    requires a > 0 && 0 <= x <= y
    ensures 0 <= a * x <= a * y
  {
  }

  /** The bound does not look at the clocks. */
  lemma AdvanceBounded(s: Pacer, t: int)
    requires s.rate > 0
    ensures Bounded(s) ==> Bounded(s.(lastProcessTime := t))
  {
  }

  lemma ChargeBooks(s: Pacer, size: int, origin: int, now: int)
    requires s.rate > 0 && size >= 0 && Books(s, origin)
    ensures var r := Sent(s, true, size, now);
            SameButBudget(s.(lastSendTime := now), r) && r.lastProcessTime == s.lastProcessTime &&
            0 <= r.mediaDebt <= DebtCap(r.rate) &&
            r.ledger == s.ledger.(forgiven := r.ledger.forgiven) &&
            r.ledger.forgiven >= s.ledger.forgiven &&
            r.mediaDebt == s.mediaDebt + size - (r.ledger.forgiven - s.ledger.forgiven)
  {
  }

  /** When a packet leaves the queue while nothing un-paced is waiting, it is video,
      redundancy or padding; when something is, it is audio or a retransmission. */
  lemma PacedIsMedia(q: State)
    requires Inv(q) && q.sizePackets != 0
    ensures CanServe(q)
    ensures Pop(q).1.Some?
    ensures UnpacedTime(q).None? <==> Pop(q).1.value.packet.mediaType in {Video, ForwardErrorCorrection, Padding}
  {
    hide Core, UpdateTop;
    PopRefinesSpec(q);
    InvCanServe(q);
    var p := q.top;
    var head := Deque(q, q.rings[p][0], p)[0].packet;
    assert LevelOf(q.prioritizeAudioRetransmission, head) == p;
    assert RingOk(q, 0) && RingOk(q, 1) && RingOk(q, 2);
    assert forall o: Level :: q.rings[o] != [] && RingOk(q, o) ==> q.rings[o][0] in q.rings[o];
  }

  // ---------------------------------------------------------------------------
  // Sending

  /** Whatever is released next, if it is paced the debt is within the allowance. */
  predicate Ready(s: Pacer, target: int, now: int)
    requires s.rate > 0
  {
    !s.paused &&
    (!Withheld(s, target, now) && UnpacedTime(s.queue).None? ==>
       MICROBITS_PER_BYTE * s.mediaDebt <= Allowance(s))
  }

  /** Waiting for `NextSendTime` and paying makes the pacer ready. */
  lemma WaitingMakesReady(s: Pacer, now: int, origin: int)
    requires PacerInv(s, origin) && !s.paused && now == s.lastTimestamp
    requires now < s.lastSendTime + PAUSED_PROCESS_INTERVAL
    requires NextSendTime(s) <= now
    ensures Ready(PayUpTo(s, NextSendTime(s)), NextSendTime(s), now)
  {
    hide Inv, Bounded;
    var target := NextSendTime(s);
    PayUpToInv(s, target, origin);
    var r := PayUpTo(s, target);
    if !Withheld(r, target, now) && UnpacedTime(r.queue).None? {
      assert target == PacedSendTime(s);
      var drain := DrainTime(s.mediaDebt, s.rate);
      DrainBelow(s.mediaDebt, s.rate, BurstInterval(s));
      DrainLeaves(s.mediaDebt, s.rate);
      if BurstInterval(s) <= drain {
        CappedDebtDrainsInTime(s.mediaDebt, s.rate);
        assert r == Pay(s.(lastProcessTime := target), drain);
      }
    }
  }

  /** A debt within the cap drains within the longest elapsed time that is paid for. */
  lemma CappedDebtDrainsInTime(debt: int, rate: int)
    requires rate > 0 && 0 <= debt <= DebtCap(rate)
    ensures 0 <= DrainTime(debt, rate) <= MAX_ELAPSED_TIME
  {
    DrainLeaves(debt, rate);
    BytesAtRounds(rate, MAX_DEBT_IN_TIME);
    DrainBelow(debt, rate, MAX_ELAPSED_TIME + 1);
  }

  lemma ReleasedInv(s: Pacer, target: int, now: int, origin: int)
    requires PacerInv(s, origin) && now == s.lastTimestamp
    requires Ready(s, target, now) && !Withheld(s, target, now)
    ensures var r := Released(s, now);
            PacerInv(r, origin) && !r.paused && r.lastTimestamp == now && r.lastSendTime == now
  {
    hide Inv;
    PacedIsMedia(s.queue);
    PopInv(s.queue);
    var s0 := s.(queue := Pop(s.queue).0);
    var packet := Pop(s.queue).1.value.packet;
    var size := PacketSize(packet);
    ChargeBooks(s0, size, origin, now);
    assert Allowance(Released(s, now)) == Allowance(s);
  }

  lemma {:induction false} SendLoopInv(s: Pacer, target: int, now: int, fuel: nat, origin: int)
    requires PacerInv(s, origin) && now == s.lastTimestamp && Ready(s, target, now)
    ensures PacerInv(SendLoop(s, target, now, fuel), origin)
    decreases fuel
  {
    hide Inv, Bounded, Released;
    if fuel == 0 {
      LaterProcessTime(s, now, origin);
      AdvanceBounded(s, now);
      assert Bounded(s.(lastSendTime := now, lastProcessTime := now)) by {
        SameLedgerBounded(s, s.(lastSendTime := now, lastProcessTime := now));
      }
    } else if Withheld(s, target, now) {
      var t := Max(s.lastProcessTime, now - MAX_PADDING_REPLAY);
      LaterProcessTime(s, t, origin);
      AdvanceBounded(s, t);
    } else {
      ReleasedInv(s, target, now, origin);
      var s1 := Released(s, now);
      var next := NextSendTime(s1);
      if next <= now {
        WaitingMakesReady(s1, now, origin);
        PayUpToInv(s1, next, origin);
        SendLoopInv(PayUpTo(s1, next), next, now, fuel - 1, origin);
      }
    }
  }

  lemma SameLedgerBounded(s: Pacer, t: Pacer)
    requires s.rate > 0 && t.rate == s.rate && t.burstInterval == s.burstInterval && t.ledger == s.ledger
    ensures Bounded(s) ==> Bounded(t)
  {
  }

  /** A later process time can only cover more elapsed time. */
  lemma LaterProcessTime(s: Pacer, t: int, origin: int)
    requires Books(s, origin) && s.rate > 0 && s.lastProcessTime <= t
    ensures Books(s.(lastProcessTime := t), origin)
  {
    assert s.rate * (t - origin) == s.rate * (s.lastProcessTime - origin) + s.rate * (t - s.lastProcessTime);
    ProductMonotone(s.rate, 0, t - s.lastProcessTime);
  }

  lemma KeepAliveInv(s: Pacer, bytes: nat, now: int, origin: int)
    requires PacerInv(s, origin) && now == s.lastTimestamp
    ensures var r := KeepAlive(s, bytes, now);
            PacerInv(r, origin) && r.lastTimestamp == now && r.paused == s.paused &&
            now < r.lastSendTime + PAUSED_PROCESS_INTERVAL
  {
    hide Inv;
    ChargeBooks(s, if s.seenFirstPacket then bytes else 0, origin, now);
    assert Allowance(KeepAlive(s, bytes, now)) == Allowance(s);
  }

  lemma ClockInv(s: Pacer, clock: int, origin: int)
    requires PacerInv(s, origin)
    ensures PacerInv(Clock(s, clock), origin)
  {
    hide Inv;
  }

  lemma ProcessInv(s: Pacer, clock: int, keepAliveBytes: nat, origin: int)
    requires PacerInv(s, origin)
    ensures PacerInv(Process(s, clock, keepAliveBytes), origin)
  {
    hide Inv, Books, Bounded, SendLoop;
    ClockInv(s, clock, origin);
    var s0 := Clock(s, clock);
    var now := s0.lastTimestamp;
    KeepAliveInv(s0, keepAliveBytes, now, origin);
    var s1 := KeepAlive(s0, keepAliveBytes, now);
    if !s1.paused {
      var target := NextSendTime(s1);
      if now < target {
        PayUpToInv(s1, now, origin);
      } else {
        PayUpToInv(s1, target, origin);
        WaitingMakesReady(s1, now, origin);
        SendLoopInv(PayUpTo(s1, target), target, now, CIRCUIT_BREAKER_THRESHOLD, origin);
      }
    }
  }

  lemma EnqueueInv(s: Pacer, clock: int, packet: Packet, origin: int)
    requires PacerInv(s, origin)
    ensures PacerInv(Enqueue(s, clock, packet), origin)
  {
    hide Inv, Push, Books;
    ClockInv(s, clock, origin);
    var s0 := Clock(s, clock);
    var now := s0.lastTimestamp;
    PayUpToInv(s0, Min(now, NextSendTime(s0)), origin);
    var s1 := if s0.queue.sizePackets == 0 then PayUpTo(s0, Min(now, NextSendTime(s0))) else s0;
    PushEffect(s1.queue, now, packet);
    var r := Enqueue(s, clock, packet);
    assert r.ledger == s1.ledger && r.mediaDebt == s1.mediaDebt;
    assert Books(r, origin) by {
      SameBooks(s1, r, origin);
    }
  }

  lemma SameBooks(s: Pacer, t: Pacer, origin: int)
    requires t.ledger == s.ledger && t.mediaDebt == s.mediaDebt && t.rate == s.rate &&
             t.lastProcessTime == s.lastProcessTime
    ensures Books(s, origin) ==> Books(t, origin)
  {
  }

  // ---------------------------------------------------------------------------
  // Runs

  datatype Event =
    | PacketEnqueued(clock: int, packet: Packet)
    | Processed(clock: int, keepAliveBytes: nat)
    | Paused(clock: int)
    | Resumed(clock: int)
    | CongestionSet(clock: int, congested: bool)
    | StreamRemoved(ssrc: nat)

  ghost function Step(s: Pacer, e: Event): Pacer
    requires s.rate > 0 && Inv(s.queue)
  {
    match e
    case PacketEnqueued(clock, packet) => Enqueue(s, clock, packet)
    case Processed(clock, keepAliveBytes) => Process(s, clock, keepAliveBytes)
    case Paused(clock) => Pause(s, clock)
    case Resumed(clock) => Resume(s, clock)
    case CongestionSet(clock, congested) => SetCongested(s, clock, congested)
    case StreamRemoved(ssrc) => RemovePackets(s, ssrc)
  }

  lemma StepInv(s: Pacer, e: Event, origin: int)
    requires PacerInv(s, origin)
    ensures PacerInv(Step(s, e), origin)
  {
    hide Inv, Process, Enqueue, SetPause, RemoveSsrc;
    match e
    case PacketEnqueued(clock, packet) => EnqueueInv(s, clock, packet, origin);
    case Processed(clock, keepAliveBytes) => ProcessInv(s, clock, keepAliveBytes, origin);
    case Paused(clock) =>
      SetPauseInv(s.queue, true, Clock(s, clock).lastTimestamp);
      SetPauseKeepsSize(s.queue, true, Clock(s, clock).lastTimestamp);
    case Resumed(clock) =>
      var now := Clock(s, clock).lastTimestamp;
      SetPauseInv(s.queue, false, now);
      SetPauseKeepsSize(s.queue, false, now);
      LaterProcessTime(s, now, origin);
    case CongestionSet(clock, congested) =>
      ClockInv(s, clock, origin);
      PayUpToInv(Clock(s, clock), Clock(s, clock).lastTimestamp, origin);
    case StreamRemoved(ssrc) =>
      RemoveSsrcEffect(s.queue, ssrc);
      EmptyStaysEmpty(s.queue, ssrc);
  }

  lemma SetPauseKeepsSize(q: State, paused: bool, now: int)
    ensures SetPause(q, paused, now).sizePackets == q.sizePackets
  {
  }

  lemma EmptyStaysEmpty(q: State, ssrc: nat)
    requires Inv(q)
    ensures q.sizePackets == 0 ==> RemoveSsrc(q, ssrc).sizePackets == 0
  {
    hide Core, TopOk, RingsOk, RemoveSsrc;
    if q.sizePackets == 0 {
      RemoveSsrcEffect(q, ssrc);
      PopRefinesSpec(q);
      var r := RemoveSsrc(q, ssrc);
      PopRefinesSpec(r);
      InvCanServe(r);
      forall k: nat, o: Level
        ensures Deque(r, k, o) == []
      {
        assert Deque(q, k, o) == [];
      }
    }
  }

  /** The state after a run. */
  ghost function Run(s: Pacer, events: seq<Event>, origin: int): (r: Pacer)
    requires PacerInv(s, origin)
    ensures PacerInv(r, origin)
    decreases |events|
  {
    if events == [] then s
    else
      StepInv(s, events[0], origin);
      Run(Step(s, events[0]), events[1..], origin)
  }

  lemma StartInv(now: int, creationTime: int, prioritizeAudio: bool, ttls: Ttls, rate: int, burst: int, account: bool)
    requires rate > 0 && burst >= 0
    ensures PacerInv(Start(now, Initial(creationTime, prioritizeAudio, ttls), rate, burst, account), now)
  {
    hide Inv;
    InitialInv(creationTime, prioritizeAudio, ttls);
    var s := Start(now, Initial(creationTime, prioritizeAudio, ttls), rate, burst, account);
    assert rate * 0 == 0;
    ProductMonotone(rate, 0, MAX_DEBT_IN_TIME);
    BytesAtRounds(rate, MAX_DEBT_IN_TIME);
    DrainLeaves(MAX_BURST_BYTES, rate);
    ProductMonotone(rate, 0, BurstInterval(s));
  }

  /** Leaky-bucket bound. On every run the paced bytes are at most the rate times the
      advance of the process time, plus the allowance (the burst interval's worth, at most
      63000 bytes, or one microsecond's worth and half a byte), plus one packet, plus half
      a byte per budget update that overpays, plus whatever debt the 500 ms cap wrote off. */
  lemma LeakyBucketBound(s: Pacer, origin: int, events: seq<Event>)
    requires PacerInv(s, origin)
    ensures var r := Run(s, events, origin);
            MICROBITS_PER_BYTE * r.ledger.paced <=
              r.rate * (r.lastProcessTime - origin) + Allowance(r)
              + MICROBITS_PER_BYTE * (r.ledger.largest + r.ledger.forgiven) + 4_000_000 * r.ledger.overpaid
    ensures var r := Run(s, events, origin);
            Allowance(r) <= Max(MICROBITS_PER_BYTE * MAX_BURST_BYTES, r.rate + 4_000_000)
  {
    hide Inv, Run, Allowance;
    AllowanceAtMost(Run(s, events, origin));
  }

  /** The bound without a term for rounding. */
  predicate KeepsRate(s: Pacer, origin: int)
    requires s.rate > 0
  {
    MICROBITS_PER_BYTE * s.ledger.paced <=
      s.rate * (s.lastProcessTime - origin) + Allowance(s) + MICROBITS_PER_BYTE * (s.ledger.largest + s.ledger.forgiven)
  }

  /** It holds on every run in which no update overpays, and so on every run at an exact rate. */
  lemma KeepsRateUnlessOverpaid(s: Pacer, origin: int, events: seq<Event>)
    requires PacerInv(s, origin)
    ensures var r := Run(s, events, origin);
            (r.ledger.overpaid == 0 ==> KeepsRate(r, origin)) && r.rate == s.rate &&
            (ExactRate(s.rate) ==> r.ledger.overpaid == 0)
  {
    hide Inv, Run, Allowance, ExactRate;
    LeakyBucketBound(s, origin, events);
    RunRate(s, events, origin);
  }

  lemma {:induction false} SendLoopRate(s: Pacer, target: int, now: int, fuel: nat)
    requires s.rate > 0 && Inv(s.queue)
    ensures SendLoop(s, target, now, fuel).rate == s.rate
    decreases fuel
  {
    hide Inv, Released, NextSendTime, UnpacedTime;
    if fuel != 0 && !Withheld(s, target, now) {
      var s1 := Released(s, now);
      var next := NextSendTime(s1);
      if next <= now {
        SendLoopRate(PayUpTo(s1, next), next, now, fuel - 1);
      }
    }
  }

  lemma StepRate(s: Pacer, e: Event)
    requires s.rate > 0 && Inv(s.queue)
    ensures Step(s, e).rate == s.rate
  {
    hide Inv, NextSendTime, SendLoop;
    if e.Processed? {
      var s0 := Clock(s, e.clock);
      var now := s0.lastTimestamp;
      var s1 := KeepAlive(s0, e.keepAliveBytes, now);
      if !s1.paused && now >= NextSendTime(s1) {
        SendLoopRate(PayUpTo(s1, NextSendTime(s1)), NextSendTime(s1), now, CIRCUIT_BREAKER_THRESHOLD);
      }
    }
  }

  lemma {:induction false} RunRate(s: Pacer, events: seq<Event>, origin: int)
    requires PacerInv(s, origin)
    ensures Run(s, events, origin).rate == s.rate
    decreases |events|
  {
    hide Inv, Books, Bounded, Step;
    if events != [] {
      StepInv(s, events[0], origin);
      StepRate(s, events[0]);
      RunRate(Step(s, events[0]), events[1..], origin);
    }
  }

  /** Debt is written off exactly when the cap is exceeded. */
  lemma ChargeWritesOffIff(s: Pacer, size: int)
    ensures Charge(s, size).ledger.forgiven > s.ledger.forgiven <==> s.mediaDebt + size > DebtCap(s.rate)
  {
  }

  // ---------------------------------------------------------------------------
  // Runs in which the cap never bites

  /** The allowance plus one packet is within the debt cap. */
  predicate WithinCap(s: Pacer, maxPacket: int)
    requires s.rate > 0
  {
    Allowance(s) + MICROBITS_PER_BYTE * maxPacket <= MICROBITS_PER_BYTE * DebtCap(s.rate)
  }

  predicate IsPaced(packet: Packet, maxPacket: int) {
    packet.mediaType in {Video, ForwardErrorCorrection, Padding} && PacketSize(packet) <= maxPacket
  }

  /** Only paced packets of bounded size are queued. */
  ghost predicate AllPaced(q: State, maxPacket: int) {
    forall k: nat, o: Level, i: nat :: i < |Deque(q, k, o)| ==> IsPaced(Deque(q, k, o)[i].packet, maxPacket)
  }

  /** Nothing but paced packets was sent, none too large, and nothing was written off. */
  ghost predicate Clean(s: Pacer, maxPacket: int) {
    AllPaced(s.queue, maxPacket) && s.ledger.forgiven == 0 && s.ledger.unpaced == 0 && s.ledger.largest <= maxPacket
  }

  lemma QueueStepPaced(q: State, e: QueueRuns.Event, maxPacket: int)
    requires Inv(q) && AllPaced(q, maxPacket)
    requires e.Pushed? ==> IsPaced(e.packet, maxPacket)
    ensures AllPaced(QueueRuns.Step(q, e), maxPacket)
  {
    hide Inv, QueueRuns.Step;
    var r := QueueRuns.Step(q, e);
    forall k: nat, o: Level, i: nat | i < |Deque(r, k, o)|
      ensures IsPaced(Deque(r, k, o)[i].packet, maxPacket)
    {
      QueueRuns.StepProvenance(q, e, k, o, Deque(r, k, o)[i]);
    }
  }

  lemma PacedHead(q: State, maxPacket: int)
    requires Inv(q) && AllPaced(q, maxPacket) && q.sizePackets != 0
    ensures CanServe(q) && Pop(q).1.Some? && IsPaced(Pop(q).1.value.packet, maxPacket) && UnpacedTime(q).None?
  {
    hide Core, RingsOk, UnpacedTime;
    PopRefinesSpec(q);
    InvCanServe(q);
    PacedIsMedia(q);
  }

  lemma ReleasedClean(s: Pacer, target: int, now: int, maxPacket: int, origin: int)
    requires PacerInv(s, origin) && Ready(s, target, now) && !Withheld(s, target, now)
    requires Clean(s, maxPacket) && WithinCap(s, maxPacket)
    ensures Clean(Released(s, now), maxPacket)
  {
    hide Inv, AllPaced;
    PacedHead(s.queue, maxPacket);
    QueueStepPaced(s.queue, QueueRuns.PopCalled, maxPacket);
    PopInv(s.queue);
    assert QueueRuns.Step(s.queue, QueueRuns.PopCalled) == Pop(s.queue).0;
    ChargeBooks(s, PacketSize(Pop(s.queue).1.value.packet), origin, now);
  }

  lemma {:induction false} SendLoopClean(s: Pacer, target: int, now: int, fuel: nat, maxPacket: int, origin: int)
    requires PacerInv(s, origin) && now == s.lastTimestamp && Ready(s, target, now)
    requires Clean(s, maxPacket) && WithinCap(s, maxPacket)
    ensures Clean(SendLoop(s, target, now, fuel), maxPacket)
    ensures SendLoop(s, target, now, fuel).rate == s.rate
    ensures SendLoop(s, target, now, fuel).burstInterval == s.burstInterval
    decreases fuel
  {
    hide Clean, Ready, WithinCap, NextSendTime, SendLoop, Released, PayUpTo, Withheld, Inv, Books, Bounded;
    SendLoopStep(s, target, now, fuel, maxPacket);
    if fuel != 0 && !Withheld(s, target, now) {
      NextRound(s, target, now, maxPacket, origin);
      var s1 := Released(s, now);
      var next := NextSendTime(s1);
      if next <= now {
        SendLoopClean(PayUpTo(s1, next), next, now, fuel - 1, maxPacket, origin);
      }
    }
  }

  /** Before the next round everything is as before this one. */
  lemma NextRound(s: Pacer, target: int, now: int, maxPacket: int, origin: int)
    requires PacerInv(s, origin) && now == s.lastTimestamp && Ready(s, target, now) && !Withheld(s, target, now)
    requires Clean(s, maxPacket) && WithinCap(s, maxPacket)
    ensures s.queue.sizePackets != 0
    ensures var s1 := Released(s, now);
            var next := NextSendTime(s1);
            var s2 := PayUpTo(s1, next);
            Clean(s1, maxPacket) && s1.rate == s.rate && s1.burstInterval == s.burstInterval &&
            (next <= now ==>
               PacerInv(s2, origin) && now == s2.lastTimestamp && Ready(s2, next, now) && Clean(s2, maxPacket) &&
               s2.rate == s.rate && s2.burstInterval == s.burstInterval && WithinCap(s2, maxPacket))
  {
    hide Inv, Books, Bounded, Clean, Ready, WithinCap, NextSendTime, Released, PayUpTo, SameButBudget;
    ReleasedInv(s, target, now, origin);
    ReleasedClean(s, target, now, maxPacket, origin);
    ReleasedRates(s, now);
    var s1 := Released(s, now);
    var next := NextSendTime(s1);
    if next <= now {
      WaitingMakesReady(s1, now, origin);
      PayUpToInv(s1, next, origin);
      PayUpToClean(s1, next, maxPacket);
      SameCap(s, PayUpTo(s1, next), maxPacket);
    }
  }

  lemma ReleasedRates(s: Pacer, now: int)
    requires Inv(s.queue) && s.queue.sizePackets != 0
    ensures Released(s, now).rate == s.rate && Released(s, now).burstInterval == s.burstInterval
  {
    hide Inv;
  }

  lemma PayUpToClean(s: Pacer, now: int, maxPacket: int)
    ensures Clean(s, maxPacket) ==> Clean(PayUpTo(s, now), maxPacket)
    ensures PayUpTo(s, now).rate == s.rate && PayUpTo(s, now).burstInterval == s.burstInterval
    ensures PayUpTo(s, now).queue == s.queue && PayUpTo(s, now).lastTimestamp == s.lastTimestamp
  {
    hide AllPaced;
  }

  /** One round of the send loop. */
  lemma SendLoopStep(s: Pacer, target: int, now: int, fuel: nat, maxPacket: int)
    requires s.rate > 0 && Inv(s.queue)
    ensures fuel == 0 || Withheld(s, target, now) ==>
              var r := SendLoop(s, target, now, fuel);
              (Clean(s, maxPacket) ==> Clean(r, maxPacket)) && r.rate == s.rate && r.burstInterval == s.burstInterval
    ensures fuel != 0 && !Withheld(s, target, now) ==>
              var s1 := Released(s, now);
              var next := NextSendTime(s1);
              SendLoop(s, target, now, fuel) ==
                if next > now then s1 else SendLoop(PayUpTo(s1, next), next, now, fuel - 1)
  {
    hide Inv, AllPaced, NextSendTime, Released;
  }

  lemma SameCap(s: Pacer, t: Pacer, maxPacket: int)
    requires s.rate > 0 && t.rate == s.rate && t.burstInterval == s.burstInterval
    ensures WithinCap(s, maxPacket) ==> WithinCap(t, maxPacket)
  {
  }

  lemma ProcessClean(s: Pacer, clock: int, maxPacket: int, origin: int)
    requires PacerInv(s, origin) && Clean(s, maxPacket) && WithinCap(s, maxPacket)
    ensures Clean(Process(s, clock, 0), maxPacket)
    ensures Process(s, clock, 0).rate == s.rate && Process(s, clock, 0).burstInterval == s.burstInterval
  {
    hide Inv, Books, Bounded, SendLoop, AllPaced, WithinCap;
    ClockInv(s, clock, origin);
    var s0 := Clock(s, clock);
    var now := s0.lastTimestamp;
    KeepAliveInv(s0, 0, now, origin);
    var s1 := KeepAlive(s0, 0, now);
    if !s1.paused {
      var target := NextSendTime(s1);
      if now >= target {
        PayUpToInv(s1, target, origin);
        WaitingMakesReady(s1, now, origin);
        SameCap(s, PayUpTo(s1, target), maxPacket);
        SendLoopClean(PayUpTo(s1, target), target, now, CIRCUIT_BREAKER_THRESHOLD, maxPacket, origin);
      }
    }
  }

  /** Only paced packets of bounded size are offered, and no keep-alive padding is sent. */
  predicate OnlyPaced(e: Event, maxPacket: int) {
    (e.PacketEnqueued? ==> IsPaced(e.packet, maxPacket)) && (e.Processed? ==> e.keepAliveBytes == 0)
  }

  lemma StepClean(s: Pacer, e: Event, maxPacket: int, origin: int)
    requires PacerInv(s, origin) && Clean(s, maxPacket) && WithinCap(s, maxPacket) && OnlyPaced(e, maxPacket)
    ensures Clean(Step(s, e), maxPacket)
    ensures Step(s, e).rate == s.rate && Step(s, e).burstInterval == s.burstInterval
  {
    hide Inv, Books, Bounded, Process, Push, SetPause, RemoveSsrc, AllPaced, WithinCap;
    match e
    case PacketEnqueued(clock, packet) =>
      var now := Clock(s, clock).lastTimestamp;
      QueueStepPaced(s.queue, QueueRuns.Pushed(now, packet), maxPacket);
      assert QueueRuns.Step(s.queue, QueueRuns.Pushed(now, packet)) == Push(s.queue, now, packet);
    case Processed(clock, keepAliveBytes) => ProcessClean(s, clock, maxPacket, origin);
    case Paused(clock) =>
      var now := Clock(s, clock).lastTimestamp;
      QueueStepPaced(s.queue, QueueRuns.PauseSet(true, now), maxPacket);
      assert QueueRuns.Step(s.queue, QueueRuns.PauseSet(true, now)) == SetPause(s.queue, true, now);
    case Resumed(clock) =>
      var now := Clock(s, clock).lastTimestamp;
      QueueStepPaced(s.queue, QueueRuns.PauseSet(false, now), maxPacket);
      assert QueueRuns.Step(s.queue, QueueRuns.PauseSet(false, now)) == SetPause(s.queue, false, now);
    case CongestionSet(clock, congested) =>
    case StreamRemoved(ssrc) =>
      QueueStepPaced(s.queue, QueueRuns.SsrcRemoved(ssrc), maxPacket);
      assert QueueRuns.Step(s.queue, QueueRuns.SsrcRemoved(ssrc)) == RemoveSsrc(s.queue, ssrc);
  }

  lemma {:induction false} RunClean(s: Pacer, events: seq<Event>, maxPacket: int, origin: int)
    requires PacerInv(s, origin) && Clean(s, maxPacket) && WithinCap(s, maxPacket)
    requires forall i :: 0 <= i < |events| ==> OnlyPaced(events[i], maxPacket)
    ensures var r := Run(s, events, origin);
            Clean(r, maxPacket) && r.rate == s.rate && r.burstInterval == s.burstInterval
    decreases |events|
  {
    hide PacerInv, Clean, WithinCap, Step, OnlyPaced;
    if events != [] {
      StepClean(s, events[0], maxPacket, origin);
      StepInv(s, events[0], origin);
      PositiveRate(s, origin);
      SameCap(s, Step(s, events[0]), maxPacket);
      RunClean(Step(s, events[0]), events[1..], maxPacket, origin);
    }
  }

  lemma PositiveRate(s: Pacer, origin: int)
    requires PacerInv(s, origin)
    ensures s.rate > 0 && Inv(s.queue)
  {
  }

  lemma AllowanceAtMost(s: Pacer)
    requires s.rate > 0 && s.burstInterval >= 0
    ensures Allowance(s) <=
            Max(Min(s.rate * s.burstInterval, MICROBITS_PER_BYTE * MAX_BURST_BYTES), s.rate + 4_000_000)
  {
    var d := DrainTime(MAX_BURST_BYTES, s.rate);
    DrainLeaves(MAX_BURST_BYTES, s.rate);
    assert s.rate * d <= MAX_BURST_BYTES * MICROBITS_PER_BYTE;
    if d <= s.burstInterval {
      ProductMonotone(s.rate, d, s.burstInterval);
    } else {
      ProductMonotone(s.rate, s.burstInterval, d);
    }
  }

  lemma StartClean(now: int, prioritizeAudio: bool, ttls: Ttls, rate: int, burst: int, account: bool, maxPacket: nat)
    ensures Clean(Start(now, Initial(now, prioritizeAudio, ttls), rate, burst, account), maxPacket)
  {
    assert forall k: nat, o: Level :: Deque(Initial(now, prioritizeAudio, ttls), k, o) == [];
  }

  /** Leaky-bucket bound without a write-off term: from a fresh pacer, on every run that
      offers only video, redundancy and padding packets of at most `maxPacket` bytes and
      sends no keep-alive padding, and for which the allowance and one packet fit under the
      debt cap. */
  lemma LeakyBucketBoundUncapped(now: int, prioritizeAudio: bool, ttls: Ttls, rate: int, burst: int, account: bool,
                                 maxPacket: nat, events: seq<Event>)
    requires rate > 0 && burst >= 0
    requires forall i :: 0 <= i < |events| ==> OnlyPaced(events[i], maxPacket)
    requires WithinCap(Start(now, Initial(now, prioritizeAudio, ttls), rate, burst, account), maxPacket)
    ensures PacerInv(Start(now, Initial(now, prioritizeAudio, ttls), rate, burst, account), now)
    ensures var s := Start(now, Initial(now, prioritizeAudio, ttls), rate, burst, account);
            var r := Run(s, events, now);
            MICROBITS_PER_BYTE * r.ledger.paced <=
              rate * (r.lastProcessTime - now)
              + Max(Min(rate * burst, MICROBITS_PER_BYTE * MAX_BURST_BYTES), rate + 4_000_000)
              + MICROBITS_PER_BYTE * maxPacket + 4_000_000 * r.ledger.overpaid
  {
    hide Inv, Run, WithinCap, Allowance, Initial, AllPaced, Bounded;
    StartInv(now, now, prioritizeAudio, ttls, rate, burst, account);
    StartClean(now, prioritizeAudio, ttls, rate, burst, account, maxPacket);
    var s := Start(now, Initial(now, prioritizeAudio, ttls), rate, burst, account);
    RunClean(s, events, maxPacket, now);
    LeakyBucketBound(s, now, events);
    AllowanceAtMost(Run(s, events, now));
  }
}
