/**
 PacingController as an object: it owns the packet queue and updates its debt and
 clocks in place. Each method makes exactly the state change of its function in
 PacerModel, so the bounds of PacerBound hold of the object.
 */
module Pacing {
  import opened Options
  import opened QueueModel
  import opened QueueInvariant
  import opened PacketQueue
  import opened PacerModel
  import opened Units
  import opened PacerBound

  class PacingController {
    const packetQueue: PrioritizedPacketQueue
    const adjustedMediaRate: int
    const sendBurstInterval: int
    const accountForAudio: bool
    const origin: int
    var mediaDebt: int
    var lastTimestamp: int
    var lastProcessTime: int
    var lastSendTime: int
    var paused: bool
    var congested: bool
    var seenFirstPacket: bool
    ghost var ledger: Ledger

    ghost function Snapshot(): Pacer
      reads this, packetQueue
    {
      Pacer(packetQueue.Snapshot(), adjustedMediaRate, sendBurstInterval, accountForAudio, mediaDebt,
            lastTimestamp, lastProcessTime, lastSendTime, paused, congested, seenFirstPacket, ledger)
    }

    ghost predicate Valid()
      reads this, packetQueue
    {
      PacerInv(Snapshot(), origin)
    }

    constructor (now: int, rate: int, burstInterval: int, accountForAudio: bool, prioritizeAudio: bool,
                 audioRetransmissionTtl: Option<int>, videoRetransmissionTtl: Option<int>, videoTtl: Option<int>)
      requires rate > 0 && burstInterval >= 0
      ensures Valid() && fresh(packetQueue) && origin == now
      ensures Snapshot() == Start(now, Initial(now, prioritizeAudio,
                                               TtlPerLevel(audioRetransmissionTtl, videoRetransmissionTtl, videoTtl)),
                                  rate, burstInterval, accountForAudio)
    {
      packetQueue := new PrioritizedPacketQueue(now, prioritizeAudio, audioRetransmissionTtl,
                                                videoRetransmissionTtl, videoTtl);
      adjustedMediaRate, sendBurstInterval, this.accountForAudio, origin := rate, burstInterval, accountForAudio, now;
      mediaDebt, lastTimestamp, lastProcessTime, lastSendTime := 0, now, now, now;
      paused, congested, seenFirstPacket := false, false, false;
      ledger := Ledger(0, 0, 0, 0, 0, 0, 0, []);
      new;
      StartInv(now, now, prioritizeAudio, TtlPerLevel(audioRetransmissionTtl, videoRetransmissionTtl, videoTtl),
               rate, burstInterval, accountForAudio);
    }

    method CurrentTime(clock: int) returns (now: int)
      modifies this
      ensures Snapshot() == Clock(old(Snapshot()), clock) && now == lastTimestamp
    {
      now := if clock < lastTimestamp then lastTimestamp else clock;
      lastTimestamp := now;
    }

    method UpdateTimeAndGetElapsed(now: int) returns (elapsed: int)
      modifies this
      ensures (Snapshot(), elapsed) == Elapse(old(Snapshot()), now)
      ensures 0 <= elapsed <= 2_000_000
      ensures lastProcessTime == Max(old(lastProcessTime), now)
    {
      if now < lastProcessTime {
        return 0;
      }
      elapsed := now - lastProcessTime;
      lastProcessTime := now;
      if elapsed > MAX_ELAPSED_TIME {
        elapsed := MAX_ELAPSED_TIME;
      }
    }

    method UpdateBudgetWithElapsedTime(delta: int)
      modifies this
      ensures Snapshot() == Pay(old(Snapshot()), delta)
    {
      ghost var overpays := Overpays(Snapshot(), delta);
      var payment := Min(mediaDebt, BytesAt(adjustedMediaRate, delta));
      mediaDebt := mediaDebt - payment;
      ledger := ledger.(paid := ledger.paid + payment, credit := ledger.credit + adjustedMediaRate * delta,
                        overpaid := ledger.overpaid + if overpays then 1 else 0);
    }

    method UpdateBudgetWithSentData(size: int)
      modifies this
      ensures Snapshot() == Charge(old(Snapshot()), size)
    {
      ghost var before := mediaDebt;
      mediaDebt := mediaDebt + size;
      mediaDebt := Min(mediaDebt, BytesAt(adjustedMediaRate, MAX_DEBT_IN_TIME));
      ledger := ledger.(forgiven := ledger.forgiven + (before + size - mediaDebt));
    }

    method OnPacketSent(audioPacket: bool, packetSize: int, sendTime: int)
      modifies this
      ensures Snapshot() == Sent(old(Snapshot()), !audioPacket || accountForAudio, packetSize, sendTime)
    {
      if (!audioPacket || accountForAudio) && packetSize > 0 {
        UpdateBudgetWithSentData(packetSize);
      }
      lastSendTime := sendTime;
    }

    method GetNextSendTime() returns (next: int)
      requires adjustedMediaRate > 0
      ensures next == NextSendTime(Snapshot())
    {
      if paused {
        return lastSendTime + PAUSED_PROCESS_INTERVAL;
      }
      var unpaced := UnpacedTime(packetQueue.Snapshot());
      if unpaced.Some? {
        return unpaced.value;
      }
      if congested || !seenFirstPacket {
        return lastSendTime + CONGESTED_PACKET_INTERVAL;
      }
      if packetQueue.sizePackets != 0 {
        var drainTime := DrainTime(mediaDebt, adjustedMediaRate);
        var burst := Min(sendBurstInterval, DrainTime(MAX_BURST_BYTES, adjustedMediaRate));
        next := lastProcessTime + if burst > drainTime then 0 else drainTime;
      } else {
        next := lastProcessTime + PAUSED_PROCESS_INTERVAL;
      }
      next := Min(next, lastSendTime + PAUSED_PROCESS_INTERVAL);
    }

    method GetPendingPacket(target: int, now: int) returns (popped: Option<Popped>)
      requires adjustedMediaRate > 0 && packetQueue.Valid()
      modifies packetQueue
      ensures packetQueue.Valid()
      ensures popped.None? <==> Withheld(old(Snapshot()), target, now)
      ensures popped.None? ==> packetQueue.Snapshot() == old(packetQueue.Snapshot())
      ensures popped.Some? ==>
                CanServe(old(packetQueue.Snapshot())) &&
                (packetQueue.Snapshot(), popped) == QueueModel.Pop(old(packetQueue.Snapshot()))
    {
      if packetQueue.sizePackets == 0 {
        return None;
      }
      if UnpacedTime(packetQueue.Snapshot()).None? {
        if congested {
          return None;
        }
        if now <= target && sendBurstInterval == 0 {
          var flushTime := DrainTime(mediaDebt, adjustedMediaRate);
          if now + flushTime > target {
            return None;
          }
        }
      }
      popped := packetQueue.Pop();
    }

    method ProcessPackets(clock: int, keepAliveBytes: nat)
      requires Valid()
      modifies this, packetQueue
      ensures Valid()
      ensures Snapshot() == Process(old(Snapshot()), clock, keepAliveBytes)
    {
      hide Inv, Books, Bounded, UnpacedTime, NextSendTime, KeepAlive, SendLoop;
      ProcessInv(Snapshot(), clock, keepAliveBytes, origin);
      var now := CurrentTime(clock);
      SendKeepAlive(keepAliveBytes, now);
      if paused {
        return;
      }
      var target := GetNextSendTime();
      if now < target {
        var elapsed := UpdateTimeAndGetElapsed(now);
        UpdateBudgetWithElapsedTime(elapsed);
        return;
      }
      PayFor(target);
      SendPending(target, now);
    }

    method SendKeepAlive(keepAliveBytes: nat, now: int)
      modifies this
      ensures Snapshot() == KeepAlive(old(Snapshot()), keepAliveBytes, now)
    {
      if now - lastSendTime >= CONGESTED_PACKET_INTERVAL {
        var keepAliveDataSent := if seenFirstPacket then keepAliveBytes else 0;
        OnPacketSent(false, keepAliveDataSent, now);
        ledger := ledger.(unpaced := ledger.unpaced + keepAliveDataSent);
      }
    }

    method PayFor(time: int)
      modifies this
      ensures Snapshot() == PayUpTo(old(Snapshot()), time)
    {
      var elapsed := UpdateTimeAndGetElapsed(time);
      UpdateBudgetWithElapsedTime(elapsed);
    }

    /** The send loop. */
    method SendPending(firstTarget: int, now: int)
      requires adjustedMediaRate > 0 && packetQueue.Valid()
      modifies this, packetQueue
      ensures packetQueue.Valid()
      ensures Snapshot() == SendLoop(old(Snapshot()), firstTarget, now, CIRCUIT_BREAKER_THRESHOLD)
    {
      hide Inv, SendLoop;
      var target, iteration := firstTarget, 0;
      var done := false;
      while iteration < CIRCUIT_BREAKER_THRESHOLD && !done
        invariant 0 <= iteration <= CIRCUIT_BREAKER_THRESHOLD
        invariant packetQueue.Valid() && adjustedMediaRate > 0
        invariant if done then
                    Snapshot() == SendLoop(old(Snapshot()), firstTarget, now, CIRCUIT_BREAKER_THRESHOLD) &&
                    iteration < CIRCUIT_BREAKER_THRESHOLD
                  else
                    SendLoop(Snapshot(), target, now, CIRCUIT_BREAKER_THRESHOLD - iteration) ==
                    SendLoop(old(Snapshot()), firstTarget, now, CIRCUIT_BREAKER_THRESHOLD)
        decreases CIRCUIT_BREAKER_THRESHOLD - iteration, !done
      {
        target, done := SendNext(target, now, CIRCUIT_BREAKER_THRESHOLD - iteration);
        if !done {
          iteration := iteration + 1;
        }
      }
      if iteration >= CIRCUIT_BREAKER_THRESHOLD {
        BreakerTrips(Snapshot(), target, now);
        lastSendTime := now;
        lastProcessTime := now;
      }
    }

    /** One round of the send loop: release a packet and pay up to the next send time, or be
        done. */
    method SendNext(target: int, now: int, ghost fuel: nat) returns (next: int, done: bool)
      requires adjustedMediaRate > 0 && packetQueue.Valid() && fuel > 0
      modifies this, packetQueue
      ensures packetQueue.Valid() && adjustedMediaRate > 0
      ensures SendLoop(old(Snapshot()), target, now, fuel) ==
              if done then Snapshot() else SendLoop(Snapshot(), next, now, fuel - 1)
    {
      hide Inv, UnpacedTime, NextSendTime, PayUpTo, Withheld, SendOne;
      ghost var before := Snapshot();
      var wasPaced := UnpacedTime(packetQueue.Snapshot()).None?;
      next, done := target, false;
      var popped := GetPendingPacket(target, now);
      if popped.None? {
        if now - target > MAX_PADDING_REPLAY {
          next := now - MAX_PADDING_REPLAY;
          lastProcessTime := Max(lastProcessTime, next);
        }
        done := true;
      } else {
        Send(popped.value.packet, wasPaced, now);
        assert Snapshot() == Released(before, now);
        next := GetNextSendTime();
        if next > now {
          done := true;
        } else {
          PayFor(next);
        }
      }
    }

    method Send(packet: Packet, ghost wasPaced: bool, now: int)
      modifies this
      ensures Snapshot() == SendOne(old(Snapshot()), packet, wasPaced, now)
    {
      var size := PacketSize(packet);
      OnPacketSent(packet.mediaType == Audio, size, now);
      ledger := ledger.(sent := ledger.sent + [packet]);
      if wasPaced {
        ledger := ledger.(paced := ledger.paced + size, largest := Max(ledger.largest, size));
      } else if packet.mediaType != Audio || accountForAudio {
        ledger := ledger.(unpaced := ledger.unpaced + size);
      }
    }

    method EnqueuePacket(clock: int, packet: Packet)
      requires Valid()
      modifies this, packetQueue
      ensures Valid()
      ensures Snapshot() == Enqueue(old(Snapshot()), clock, packet)
    {
      hide Inv, Books, Bounded;
      EnqueueInv(Snapshot(), clock, packet, origin);
      var now := CurrentTime(clock);
      if packetQueue.sizePackets == 0 {
        var next := GetNextSendTime();
        PayFor(Min(now, next));
      }
      packetQueue.Push(now, packet);
      seenFirstPacket := true;
    }

    method PauseSending(clock: int)
      requires Valid()
      modifies this, packetQueue
      ensures Valid()
      ensures Snapshot() == Pause(old(Snapshot()), clock)
    {
      hide Inv, Books, Bounded;
      StepInv(Snapshot(), Paused(clock), origin);
      var now := CurrentTime(clock);
      paused := true;
      packetQueue.SetPauseState(true, now);
    }

    method ResumeSending(clock: int)
      requires Valid()
      modifies this, packetQueue
      ensures Valid()
      ensures Snapshot() == Resume(old(Snapshot()), clock)
    {
      hide Inv, Books, Bounded;
      StepInv(Snapshot(), Resumed(clock), origin);
      var now := CurrentTime(clock);
      if paused {
        lastProcessTime := now;
      }
      paused := false;
      packetQueue.SetPauseState(false, now);
    }

    method SetCongestedState(clock: int, congested: bool)
      requires Valid()
      modifies this
      ensures Valid()
      ensures Snapshot() == SetCongested(old(Snapshot()), clock, congested)
    {
      hide Inv, Books, Bounded;
      StepInv(Snapshot(), CongestionSet(clock, congested), origin);
      if this.congested && !congested {
        var now := CurrentTime(clock);
        PayFor(now);
      }
      this.congested := congested;
    }

    method RemovePacketsForSsrc(ssrc: nat)
      requires Valid()
      modifies packetQueue
      ensures Valid()
      ensures Snapshot() == RemovePackets(old(Snapshot()), ssrc)
    {
      hide Inv, Books, Bounded;
      StepInv(Snapshot(), StreamRemoved(ssrc), origin);
      packetQueue.RemovePacketsForSsrc(ssrc);
    }
  }
}
