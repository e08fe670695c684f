/**
 The NACK requester as values: the ordered list of missing packets and what each
 operation of NackRequester does to it.

 A std::map keyed by sequence number is the sequence of its entries in comparator
 order, oldest first. Times are microseconds except `rttMs`.
 */
module NackModel {
  import opened Options
  import opened SeqNum

  const MAX_PACKET_AGE := 10_000
  const MAX_NACK_PACKETS := 1000
  const MAX_NACK_RETRIES := 100
  const DEFAULT_RTT_MS := 100
  const FAILED_SEND_RETRY_DELAY := 20_000
  const SEND_NACK_DELAY := 10_000

  /** `NackInfo`; None stands for the time MinusInfinity. */
  datatype Info = Info(
    seqNum: Seq16,
    sendAtSeqNum: Seq16,
    createdAt: int,
    sentAt: Option<int>,
    lastSendAttempt: Option<int>,
    retries: nat,
    sendPending: bool)

  function NewInfo(seqNum: Seq16, sendAtSeqNum: Seq16, now: int): Info {
    Info(seqNum, sendAtSeqNum, now, None, None, 0, false)
  }

  datatype State = State(
    list: seq<Info>,
    recovered: set<Seq16>,
    initialized: bool,
    rttMs: int,
    hasRttSample: bool,
    keyframeRequestPending: bool,
    newest: Seq16)

  const INITIAL := State([], {}, false, DEFAULT_RTT_MS, false, false, 0)

  // ---------------------------------------------------------------------------
  // The ordered map

  /** Position of the first entry not before `x` in comparator order. */
  function LowerBound(list: seq<Info>, x: Seq16): (i: nat)
    ensures i <= |list|
  {
    if list == [] || !AheadOf(x, list[0].seqNum) then 0 else 1 + LowerBound(list[1..], x)
  }

  /** Position of the first entry after `x` in comparator order. */
  function UpperBound(list: seq<Info>, x: Seq16): (i: nat)
    ensures i <= |list|
  {
    if list == [] || AheadOf(list[0].seqNum, x) then 0 else 1 + UpperBound(list[1..], x)
  }

  /** Position of the entry with key `x`, or the length of the list. */
  function Find(list: seq<Info>, x: Seq16): (i: nat)
    ensures i <= |list|
    ensures i < |list| ==> list[i].seqNum == x
    ensures i == |list| <==> forall j :: 0 <= j < |list| ==> list[j].seqNum != x
  {
    if list == [] || list[0].seqNum == x then 0 else 1 + Find(list[1..], x)
  }

  function RemoveAt(list: seq<Info>, i: nat): seq<Info>
    requires i < |list|
  {
    list[..i] + list[i + 1..]
  }

  /** `insert_or_assign`. */
  function InsertOrAssign(list: seq<Info>, info: Info): seq<Info> {
    var i := LowerBound(list, info.seqNum);
    if i < |list| && list[i].seqNum == info.seqNum then list[i := info]
    else list[..i] + [info] + list[i..]
  }

  // ---------------------------------------------------------------------------
  // Round-trip time

  /** `UpdateRtt`. */
  function UpdateRtt(s: State, sampleMs: int): State {
    if sampleMs <= 0 || sampleMs > 2000 then s
    else if s.hasRttSample then s.(rttMs := (3 * s.rttMs + sampleMs) / 4)
    else s.(rttMs := sampleMs, hasRttSample := true)
  }

  /** `NackRetryRttMultiplier`. */
  function RetryMultiplier(hasRttSample: bool, successfulNacks: int): int {
    if successfulNacks <= 0 then 1
    else if hasRttSample then if successfulNacks <= 2 then 1 else 2
    else if successfulNacks == 1 then 2
    else if successfulNacks == 2 then 4
    else 8
  }

  /** `TimeDelta::ms`: microseconds rounded to the nearest millisecond. */
  function Millis(us: int): int {
    if us >= 0 then (us + 500) / 1000 else -((-us + 500) / 1000)
  }

  // ---------------------------------------------------------------------------
  // Receiving

  /** An out-of-order packet leaves the list; a retransmission answered after exactly one
      request gives a round-trip sample (Karn's algorithm). */
  function OutOfOrder(s: State, seqNum: Seq16, isRecovered: bool, now: int): State {
    var i := Find(s.list, seqNum);
    if i == |s.list| then s
    else
      var info := s.list[i];
      var s1 := if isRecovered && info.retries == 1 && info.sentAt.Some?
                then UpdateRtt(s, Millis(now - info.sentAt.value)) else s;
      s1.(list := RemoveAt(s.list, i))
  }

  /** A packet recovered ahead of the newest is remembered, and old ones are forgotten. */
  function RememberRecovered(s: State, seqNum: Seq16): State {
    var oldest := Wrap(seqNum - MAX_PACKET_AGE);
    s.(recovered := set r | r in s.recovered + {seqNum} && !AheadOf(oldest, r))
  }

  /** The insertion loop of `AddPacketsToNack`; `wait` is how many packets to wait. */
  function InsertFrom(list: seq<Info>, recovered: set<Seq16>, start: Seq16, count: nat, wait: nat, now: int): seq<Info>
    decreases count
  {
    if count == 0 then list
    else
      InsertFrom(if start in recovered then list
                 else InsertOrAssign(list, NewInfo(start, Wrap(start + wait), now)),
                 recovered, Wrap(start + 1), count - 1, wait, now)
  }

  /** `AddPacketsToNack(newest + 1, seqNum)`. */
  function AddPackets(s: State, seqNum: Seq16, wait: nat, now: int): State {
    var start := Wrap(s.newest + 1);
    var kept := s.list[LowerBound(s.list, Wrap(seqNum - MAX_PACKET_AGE))..];
    var numNewNacks := ForwardDiff(start, seqNum);
    if |kept| + numNewNacks > MAX_NACK_PACKETS then s.(list := [], keyframeRequestPending := true)
    else s.(list := InsertFrom(kept, s.recovered, start, numNewNacks, wait, now))
  }

  datatype Filter = SeqNumOnly | TimeOnly

  /** `GetNackBatch` requests this entry now. */
  predicate Due(s: State, info: Info, filter: Filter, now: int) {
    var retryDelay := s.rttMs * 1000 * if info.retries > 0 then RetryMultiplier(s.hasRttSample, info.retries) else 1;
    !info.sendPending &&
    now - info.createdAt >= SEND_NACK_DELAY &&
    (info.lastSendAttempt.None? || now - info.lastSendAttempt.value >= FAILED_SEND_RETRY_DELAY) &&
    match filter
    case SeqNumOnly => info.sentAt.None? && AheadOrAt(s.newest, info.sendAtSeqNum)
    case TimeOnly => info.sentAt.None? || now - info.sentAt.value >= retryDelay
  }

  /** The batch requested from a list .. */
  function Batch(s: State, list: seq<Info>, filter: Filter, now: int): seq<Seq16> {
    if list == [] then []
    else (if Due(s, list[0], filter, now) then [list[0].seqNum] else []) + Batch(s, list[1..], filter, now)
  }

  /** .. and the list with the requested entries marked. */
  function Marked(s: State, list: seq<Info>, filter: Filter, now: int): (r: seq<Info>)
    ensures |r| == |list|
    ensures forall i :: 0 <= i < |list| ==>
              r[i] == if Due(s, list[i], filter, now) then list[i].(sendPending := true) else list[i]
  {
    if list == [] then []
    else [if Due(s, list[0], filter, now) then list[0].(sendPending := true) else list[0]]
         + Marked(s, list[1..], filter, now)
  }

  function GetBatch(s: State, filter: Filter, now: int): (State, seq<Seq16>) {
    (s.(list := Marked(s, s.list, filter, now)), Batch(s, s.list, filter, now))
  }

  /** `OnReceivedPacket`. */
  function OnReceived(s: State, seqNum: Seq16, isRecovered: bool, wait: nat, now: int): (State, seq<Seq16>) {
    if !s.initialized then (s.(newest := seqNum, initialized := true), [])
    else if seqNum == s.newest then (s, [])
    else if AheadOf(s.newest, seqNum) then (OutOfOrder(s, seqNum, isRecovered, now), [])
    else if isRecovered then (RememberRecovered(s, seqNum), [])
    else GetBatch(AddPackets(s, seqNum, wait, now).(newest := seqNum), SeqNumOnly, now)
  }

  // ---------------------------------------------------------------------------
  // Sending

  /** One number of a batch whose sending succeeded or failed. */
  function OnSentOne(list: seq<Info>, seqNum: Seq16, successful: bool, now: int): seq<Info> {
    var i := Find(list, seqNum);
    if i == |list| || !list[i].sendPending then list
    else
      var tried := list[i].(sendPending := false, lastSendAttempt := Some(now));
      if !successful then list[i := tried]
      else if tried.retries + 1 >= MAX_NACK_RETRIES then RemoveAt(list, i)
      else list[i := tried.(retries := tried.retries + 1, sentAt := Some(now))]
  }

  function OnSent(list: seq<Info>, batch: seq<Seq16>, successful: bool, now: int): seq<Info>
    decreases |batch|
  {
    if batch == [] then list else OnSent(OnSentOne(list, batch[0], successful, now), batch[1..], successful, now)
  }

  // ---------------------------------------------------------------------------
  // Clearing

  /** `ClearUpTo`. */
  function ClearUpTo(s: State, seqNum: Seq16): State {
    s.(list := s.list[UpperBound(s.list, seqNum)..],
       recovered := set r | r in s.recovered && AheadOf(r, seqNum))
  }
}
