/**
 PacingController as a leaky bucket: the media debt, the updates of the budget and the send
 loop, as values, with a ledger of what was sent, paid off and written off.

 The media rate is constant, the padding rate is zero and no probe is active. Times
 are microseconds, rates bits per second, sizes bytes.
 */
module PacerModel {
  import opened Options
  import opened QueueModel
  import opened Units
  import opened QueueInvariant

  /** 500 ms. */
  const CONGESTED_PACKET_INTERVAL := 500_000
  const PAUSED_PROCESS_INTERVAL := 500_000
  const MAX_DEBT_IN_TIME := 500_000
  const MAX_ELAPSED_TIME := 2_000_000
  const MAX_PADDING_REPLAY := 50_000
  const MAX_BURST_BYTES := 63_000

  /** Bookkeeping of a run. `credit` is in bits times microseconds per second, that is
      in microbits; everything else counts bytes, except `overpaid`. */
  datatype Ledger = Ledger(
    paced: int,       // bytes of paced packets sent
    largest: int,     // largest paced packet sent
    unpaced: int,     // other bytes charged: unpaced packets and keep-alive padding
    paid: int,        // debt paid off by elapsed time
    forgiven: int,    // debt cut off by the debt cap
    credit: int,      // rate times elapsed time, exactly
    overpaid: int,    // budget updates that paid more than their time is worth
    sent: seq<Packet>)  // packets handed to the packet sender

  datatype Pacer = Pacer(
    queue: State,
    rate: int,
    burstInterval: int,
    accountForAudio: bool,
    mediaDebt: int,
    lastTimestamp: int,
    lastProcessTime: int,
    lastSendTime: int,
    paused: bool,
    congested: bool,
    seenFirstPacket: bool,
    ledger: Ledger)

  // ---------------------------------------------------------------------------
  // Budget

  /** What the elapsed time is worth is rounded up to a whole byte, and there is debt to pay it on. */
  predicate Overpays(s: Pacer, elapsed: int) {
    (s.rate * elapsed) % MICROBITS_PER_BYTE >= 4_000_000 && MICROBITS_PER_BYTE * s.mediaDebt > s.rate * elapsed
  }

  /** `UpdateBudgetWithElapsedTime`. */
  function Pay(s: Pacer, elapsed: int): Pacer {
    var payment := Min(s.mediaDebt, BytesAt(s.rate, elapsed));
    s.(mediaDebt := s.mediaDebt - payment,
       ledger := s.ledger.(paid := s.ledger.paid + payment,
                           credit := s.ledger.credit + s.rate * elapsed,
                           overpaid := s.ledger.overpaid + if Overpays(s, elapsed) then 1 else 0))
  }

  /** The debt is never allowed above what the rate can send in 500 ms. */
  function DebtCap(rate: int): int {
    BytesAt(rate, MAX_DEBT_IN_TIME)
  }

  /** `UpdateBudgetWithSentData`. */
  function Charge(s: Pacer, size: int): Pacer {
    var debt := Min(s.mediaDebt + size, DebtCap(s.rate));
    s.(mediaDebt := debt, ledger := s.ledger.(forgiven := s.ledger.forgiven + (s.mediaDebt + size - debt)))
  }

  /** `UpdateTimeAndGetElapsed`. */
  function Elapse(s: Pacer, now: int): (Pacer, int) {
    if now < s.lastProcessTime then (s, 0)
    else (s.(lastProcessTime := now), Min(now - s.lastProcessTime, MAX_ELAPSED_TIME))
  }

  /** The two calls together. */
  function PayUpTo(s: Pacer, now: int): Pacer {
    var (s1, elapsed) := Elapse(s, now);
    Pay(s1, elapsed)
  }

  /** `CurrentTime`: the clock, made monotone. */
  function Clock(s: Pacer, clock: int): Pacer {
    s.(lastTimestamp := Max(s.lastTimestamp, clock))
  }

  // ---------------------------------------------------------------------------
  // When to send

  function HeadTime(q: State, p: Level): Option<int> {
    if q.rings[p] != [] && Deque(q, q.rings[p][0], p) != [] then
      Some(Deque(q, q.rings[p][0], p)[0].enqueueTime)
    else None
  }

  /** `LeadingPacketEnqueueTimeForRetransmission`. */
  function RetransmissionTime(q: State): Option<int> {
    if !q.prioritizeAudioRetransmission || HeadTime(q, 2).None? then HeadTime(q, 1)
    else if HeadTime(q, 1).None? then HeadTime(q, 2)
    else Some(Min(HeadTime(q, 1).value, HeadTime(q, 2).value))
  }

  /** `NextUnpacedSendTime`: audio and retransmissions are not paced. */
  function UnpacedTime(q: State): Option<int> {
    if HeadTime(q, 0).Some? then HeadTime(q, 0) else RetransmissionTime(q)
  }

  function BurstInterval(s: Pacer): int
    requires s.rate > 0
  {
    Min(s.burstInterval, DrainTime(MAX_BURST_BYTES, s.rate))
  }

  /** When the debt allows the next paced packet. */
  function PacedSendTime(s: Pacer): int
    requires s.rate > 0
  {
    var drain := DrainTime(s.mediaDebt, s.rate);
    s.lastProcessTime + if BurstInterval(s) > drain then 0 else drain
  }

  /** `NextSendTime`. */
  function NextSendTime(s: Pacer): int
    requires s.rate > 0
  {
    if s.paused then s.lastSendTime + PAUSED_PROCESS_INTERVAL
    else if UnpacedTime(s.queue).Some? then UnpacedTime(s.queue).value
    else if s.congested || !s.seenFirstPacket then s.lastSendTime + CONGESTED_PACKET_INTERVAL
    else
      var next := if s.queue.sizePackets != 0 then PacedSendTime(s)
                  else s.lastProcessTime + PAUSED_PROCESS_INTERVAL;
      Min(next, s.lastSendTime + PAUSED_PROCESS_INTERVAL)
  }

  // ---------------------------------------------------------------------------
  // Sending

  /** `OnPacketSent`, after the charge has been decided. */
  function Sent(s: Pacer, charged: bool, size: int, now: int): Pacer {
    (if charged && size > 0 then Charge(s, size) else s).(lastSendTime := now)
  }

  /** `GetPendingPacket` refuses to hand out a packet. */
  predicate Withheld(s: Pacer, target: int, now: int)
    requires s.rate > 0
  {
    s.queue.sizePackets == 0 ||
    (UnpacedTime(s.queue).None? &&
     (s.congested ||
      (now <= target && s.burstInterval == 0 && now + DrainTime(s.mediaDebt, s.rate) > target)))
  }

  /** Send one packet that has left the queue; `wasPaced` says how it was released. */
  function SendOne(s: Pacer, packet: Packet, wasPaced: bool, now: int): Pacer {
    var size := PacketSize(packet);
    var charged := packet.mediaType != Audio || s.accountForAudio;
    var s1 := Sent(s, charged, size, now);
    var ledger := s1.ledger.(sent := s1.ledger.sent + [packet]);
    s1.(ledger :=
          if wasPaced then ledger.(paced := ledger.paced + size, largest := Max(ledger.largest, size))
          else if charged then ledger.(unpaced := ledger.unpaced + size)
          else ledger)
  }

  /** The send loop of `ProcessPackets`, with `fuel` iterations left before the circuit
      breaker trips. */
  function SendLoop(s: Pacer, target: int, now: int, fuel: nat): Pacer
    requires s.rate > 0 && Inv(s.queue)
    decreases fuel
  {
    if fuel == 0 then s.(lastSendTime := now, lastProcessTime := now)
    else if Withheld(s, target, now) then
      if now - target > MAX_PADDING_REPLAY then
        s.(lastProcessTime := Max(s.lastProcessTime, now - MAX_PADDING_REPLAY))
      else s
    else
      var s1 := Released(s, now);
      var next := NextSendTime(s1);
      if next > now then s1 else SendLoop(PayUpTo(s1, next), next, now, fuel - 1)
  }

  lemma BreakerTrips(s: Pacer, target: int, now: int)
    requires s.rate > 0 && Inv(s.queue)
    ensures SendLoop(s, target, now, 0) == s.(lastSendTime := now, lastProcessTime := now)
  {
  }

  /** Pop the next packet and send it. */
  function Released(s: Pacer, now: int): (r: Pacer)
    requires Inv(s.queue) && s.queue.sizePackets != 0
    ensures Inv(r.queue) && r.rate == s.rate
  {
    PopInv(s.queue);
    var (queue, popped) := Pop(s.queue);
    SendOne(s.(queue := queue), popped.value.packet, UnpacedTime(s.queue).None?, now)
  }

  const CIRCUIT_BREAKER_THRESHOLD: nat := 65536

  // ---------------------------------------------------------------------------
  // Operations

  /** The keep-alive step of `ProcessPackets`; `keepAliveBytes` is what the sender makes of
      the request for one byte of padding. */
  function KeepAlive(s: Pacer, keepAliveBytes: nat, now: int): Pacer {
    if now - s.lastSendTime < CONGESTED_PACKET_INTERVAL then s
    else
      var bytes := if s.seenFirstPacket then keepAliveBytes else 0;
      var s1 := Sent(s, true, bytes, now);
      s1.(ledger := s1.ledger.(unpaced := s1.ledger.unpaced + bytes))
  }

  /** `ProcessPackets`. */
  function Process(s: Pacer, clock: int, keepAliveBytes: nat): Pacer
    requires s.rate > 0 && Inv(s.queue)
  {
    var s0 := Clock(s, clock);
    var now := s0.lastTimestamp;
    var s1 := KeepAlive(s0, keepAliveBytes, now);
    if s1.paused then s1
    else
      var target := NextSendTime(s1);
      if now < target then PayUpTo(s1, now)
      else SendLoop(PayUpTo(s1, target), target, now, CIRCUIT_BREAKER_THRESHOLD)
  }

  /** `EnqueuePacket`. */
  function Enqueue(s: Pacer, clock: int, packet: Packet): Pacer
    requires s.rate > 0
  {
    var s0 := Clock(s, clock);
    var now := s0.lastTimestamp;
    var s1 := if s0.queue.sizePackets == 0 then PayUpTo(s0, Min(now, NextSendTime(s0))) else s0;
    s1.(queue := Push(s1.queue, now, packet), seenFirstPacket := true)
  }

  function Pause(s: Pacer, clock: int): Pacer {
    var s0 := Clock(s, clock);
    s0.(paused := true, queue := SetPause(s0.queue, true, s0.lastTimestamp))
  }

  function Resume(s: Pacer, clock: int): Pacer {
    var s0 := Clock(s, clock);
    var now := s0.lastTimestamp;
    s0.(lastProcessTime := if s0.paused then now else s0.lastProcessTime,
        paused := false, queue := SetPause(s0.queue, false, now))
  }

  function SetCongested(s: Pacer, clock: int, congested: bool): Pacer {
    if s.congested && !congested then
      var s0 := Clock(s, clock);
      PayUpTo(s0, s0.lastTimestamp).(congested := congested)
    else s.(congested := congested)
  }

  function RemovePackets(s: Pacer, ssrc: nat): Pacer {
    s.(queue := RemoveSsrc(s.queue, ssrc))
  }

  function Start(now: int, queue: State, rate: int, burstInterval: int, accountForAudio: bool): Pacer {
    Pacer(queue, rate, burstInterval, accountForAudio, 0, now, now, now, false, false, false,
          Ledger(0, 0, 0, 0, 0, 0, 0, []))
  }
}
