/**
 At which rates the pacer keeps its leaky-bucket bound without a term for rounding: exactly
 those within a hair of a whole number of bytes per microsecond.
 */
module PacerRates {
  import opened QueueModel
  import opened QueueInvariant
  import opened PacerModel
  import opened PacerBound
  import opened PacerRounding
  import opened Units

  // ---------------------------------------------------------------------------
  // A wait that rounds up

  /** At any other rate there is a wait of at most 500 ms whose worth is rounded up. */
  function RoundingWait(rate: int): (t: nat)
    requires rate > 0 && !ExactRate(rate)
    ensures 1 <= t <= MAX_DEBT_IN_TIME && (rate * t) % MICROBITS_PER_BYTE >= 4_000_000
  {
    var f := rate % MICROBITS_PER_BYTE;
    var t := if f >= 4_000_000 then 1 else (4_000_000 + f - 1) / f;
    assert 1 <= t <= MAX_DEBT_IN_TIME && 4_000_000 <= f * t < MICROBITS_PER_BYTE by {
      if f < 4_000_000 {
        CeilingQuotient(4_000_000, f);
      }
    }
    assert rate * t == MICROBITS_PER_BYTE * (rate / MICROBITS_PER_BYTE * t) + f * t;
    FractionOf(rate / MICROBITS_PER_BYTE * t, f * t);
    t
  }

  lemma CeilingQuotient(x: nat, f: nat)
    requires 8 <= f < x == 4_000_000
    ensures var t := (x + f - 1) / f; 1 <= t <= 500_000 && x <= f * t < x + f
  {
    var t := (x + f - 1) / f;
    assert x + f - 1 == f * t + (x + f - 1) % f;
    if t > 500_000 {
      assert f * t >= 8 * 500_001;
    }
  }

  /** The packet that is worth such a wait, rounded up. */
  function RoundedPacket(rate: int): (size: nat)
    requires rate > 0 && !ExactRate(rate)
    ensures 0 < size <= DebtCap(rate) && size == BytesAt(rate, RoundingWait(rate))
    ensures MICROBITS_PER_BYTE * size > rate * RoundingWait(rate)
  {
    var t := RoundingWait(rate);
    ProductMonotone(rate, t, MAX_DEBT_IN_TIME);
    BytesAtOf(rate * t);
    BytesAt(rate, t)
  }

  // ---------------------------------------------------------------------------
  // A run that gains at every wait

  /** The packet goes through, and is paid for by the wait. */
  function GainEvents(now: int, rate: int): seq<Event>
    requires rate > 0 && !ExactRate(rate)
  {
    PacketEvents(now, RoundedPacket(rate)) + [Processed(now + RoundingWait(rate), 0)]
  }

  function Gains(now: int, rate: int, n: nat): seq<Event>
    requires rate > 0 && !ExactRate(rate)
    decreases n
  {
    if n == 0 then [] else GainEvents(now, rate) + Gains(now + RoundingWait(rate), rate, n - 1)
  }

  /** A call at most 500 ms after the last packet, with nothing queued, pays for the time
      since. */
  lemma WaitPays(s: Pacer, t: nat)
    requires s.rate > 0 && Inv(s.queue) && !s.paused && !s.congested && s.seenFirstPacket && s.queue.sizePackets == 0
    requires UnpacedTime(s.queue).None? && s.lastTimestamp == s.lastProcessTime == s.lastSendTime
    requires 1 <= t <= MAX_DEBT_IN_TIME && s.mediaDebt == BytesAt(s.rate, t)
    ensures var now := s.lastTimestamp + t;
            var r := Process(s, now, 0);
            r == s.(mediaDebt := 0, lastTimestamp := now, lastProcessTime := now, lastSendTime := r.lastSendTime,
                    ledger := r.ledger) &&
            r.ledger == s.ledger.(paid := r.ledger.paid, credit := r.ledger.credit, overpaid := r.ledger.overpaid) &&
            now < r.lastSendTime + CONGESTED_PACKET_INTERVAL
  {
    hide Inv, UnpacedTime, BytesAt, Overpays;
    var now := s.lastTimestamp + t;
    if t < CONGESTED_PACKET_INTERVAL {
      EarlyCall(s, now);
    } else {
      var s1 := KeepAlive(Clock(s, now), 0, now);
      assert NextSendTime(s1) == now;
      NothingToSend(PayUpTo(s1, now), now, CIRCUIT_BREAKER_THRESHOLD);
    }
  }

  lemma NothingToSend(s: Pacer, now: int, fuel: nat)
    requires s.rate > 0 && Inv(s.queue) && s.queue.sizePackets == 0 && fuel > 0
    ensures SendLoop(s, now, now, fuel) == s
  {
  }

  lemma OneGain(s: Pacer, origin: int)
    requires Quiet(s, origin) && !ExactRate(s.rate)
    ensures s.rate > 0
    ensures var t, size := RoundingWait(s.rate), RoundedPacket(s.rate);
            var r := Run(s, GainEvents(s.lastTimestamp, s.rate), origin);
            Quiet(r, origin) && r.lastTimestamp == s.lastTimestamp + t && SameLimits(s, r) &&
            r.ledger.paced == s.ledger.paced + size && r.ledger.largest == Max(s.ledger.largest, size) &&
            r.ledger.forgiven == s.ledger.forgiven
  {
    hide Inv, Books, Bounded, Run, Step, Process, UnpacedTime, ExactRate, BytesAt, DebtCap;
    var now, t, size := s.lastTimestamp, RoundingWait(s.rate), RoundedPacket(s.rate);
    PacketThrough(s, size, origin);
    var sent := Run(s, PacketEvents(now, size), origin);
    var e := Processed(now + t, 0);
    RunConcat(s, PacketEvents(now, size), [e], origin);
    ProcessStep(sent, e, origin);
    WaitPays(sent, t);
    assert [e] == [e] + [];
    RunFirst(sent, e, [], origin);
    RunNothing(Step(sent, e), origin);
  }

  lemma {:induction false} ManyGains(s: Pacer, n: nat, origin: int)
    requires Quiet(s, origin) && !ExactRate(s.rate)
    ensures s.rate > 0
    ensures var t, size := RoundingWait(s.rate), RoundedPacket(s.rate);
            var r := Run(s, Gains(s.lastTimestamp, s.rate, n), origin);
            Quiet(r, origin) && r.lastTimestamp == s.lastTimestamp + n * t && SameLimits(s, r) &&
            r.ledger.paced == s.ledger.paced + n * size &&
            r.ledger.largest <= Max(s.ledger.largest, size) && r.ledger.forgiven == s.ledger.forgiven
    decreases n
  {
    hide Quiet, PacerInv, Run, GainEvents, ExactRate, RoundingWait, RoundedPacket;
    QuietInv(s, origin);
    if n == 0 {
      RunNothing(s, origin);
    } else {
      OneGain(s, origin);
      var now, t := s.lastTimestamp, RoundingWait(s.rate);
      RunConcat(s, GainEvents(now, s.rate), Gains(now + t, s.rate, n - 1), origin);
      ManyGains(Run(s, GainEvents(now, s.rate), origin), n - 1, origin);
    }
  }

  /** Each gain is at least a microbit, so enough of them pass any allowance. */
  lemma GainsBreak(s: Pacer, origin: int) returns (n: nat)
    requires Quiet(s, origin) && !ExactRate(s.rate)
    requires s.lastTimestamp == origin && s.ledger.paced == 0 && s.ledger.largest == 0 && s.ledger.forgiven == 0
    ensures s.rate > 0
    ensures !KeepsRate(Run(s, Gains(origin, s.rate, n), origin), origin)
  {
    hide PacerInv, Run, Gains, ExactRate, RoundingWait, RoundedPacket, Allowance;
    QuietInv(s, origin);
    var t, size := RoundingWait(s.rate), RoundedPacket(s.rate);
    n := Max(0, Allowance(s)) + MICROBITS_PER_BYTE * size + 1;
    ManyGains(s, n, origin);
    SameAllowance(s, Run(s, Gains(origin, s.rate, n), origin));
    GainsAddUp(s.rate, t, size, n);
  }

  lemma SameAllowance(s: Pacer, t: Pacer)
    requires s.rate > 0 && SameLimits(s, t)
    ensures Allowance(t) == Allowance(s)
  {
  }

  lemma GainsAddUp(rate: nat, t: nat, size: nat, n: nat)
    requires MICROBITS_PER_BYTE * size > rate * t
    ensures MICROBITS_PER_BYTE * (n * size) >= rate * (n * t) + n
  {
    Scaled(MICROBITS_PER_BYTE * size, rate * t, n);
    Swapped(n, MICROBITS_PER_BYTE, size);
    Swapped(n, rate, t);
  }

  lemma Scaled(a: int, b: int, n: nat)
    requires a > b
    ensures n * a >= n * b + n
  {
    assert n * a - n * b == n * (a - b);
    assert n * (a - b - 1) >= 0;
  }

  lemma Swapped(a: int, b: int, c: int)
    ensures a * (b * c) == b * (a * c)
  {
  }

  // ---------------------------------------------------------------------------
  // Exactly which rates are kept

  lemma StartQuiet(now: int, prioritizeAudio: bool, ttls: Ttls, rate: int, burst: nat, account: bool)
    requires rate > 0
    ensures Quiet(Start(now, Initial(now, prioritizeAudio, ttls), rate, burst, account), now)
  {
    hide Inv, Books, Bounded;
    StartInv(now, now, prioritizeAudio, ttls, rate, burst, account);
  }

  /** From a new pacer, the bound without a term for rounding holds on every run exactly if
      the rate is within 7 bit/s above a multiple of 8 Mbit/s. */
  lemma KeepsRateIff(now: int, prioritizeAudio: bool, ttls: Ttls, rate: int, burst: nat, account: bool)
    requires rate > 0
    ensures PacerInv(Start(now, Initial(now, prioritizeAudio, ttls), rate, burst, account), now)
    ensures var s := Start(now, Initial(now, prioritizeAudio, ttls), rate, burst, account);
            (forall events: seq<Event> :: KeepsRate(Run(s, events, now), now)) <==> ExactRate(rate)
  {
    hide Quiet, Books, Bounded, Inv, Run, Initial, KeepsRate, ExactRate, Gains;
    StartInv(now, now, prioritizeAudio, ttls, rate, burst, account);
    var s := Start(now, Initial(now, prioritizeAudio, ttls), rate, burst, account);
    if ExactRate(rate) {
      forall events: seq<Event>
        ensures KeepsRate(Run(s, events, now), now)
      {
        KeepsRateUnlessOverpaid(s, now, events);
      }
    } else {
      StartQuiet(now, prioritizeAudio, ttls, rate, burst, account);
      var n := GainsBreak(s, now);
    }
  }
}
