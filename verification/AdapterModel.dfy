/**
 TransportFeedbackAdapter as values: the send history, the in-flight byte counts per
 network route, the RTP-to-transport mapping and the cache of recent
 acknowledgements. Times are microseconds.
 */
module AdapterModel {
  import opened Options
  import opened SeqNum
  import opened MapSums

  /** 60 s. */
  const SEND_TIME_HISTORY_WINDOW := 60_000_000

  /** A network route, as far as the route comparator tells routes apart. */
  type Route = nat

  datatype Key = Key(ssrc: nat, rtpSequenceNumber: Seq16)

  /** `sendTime` is None until the packet is reported sent. */
  datatype PacketFeedback = PacketFeedback(
    creationTime: int,
    sequenceNumber: int,
    size: nat,
    sendTime: Option<int>,
    priorUnackedData: int,
    dataInFlight: int,
    route: Route,
    key: Key)

  datatype Acknowledged = Acknowledged(key: Key, time: int, generation: nat)

  datatype State = State(
    unwrapper: Unwrapper,
    lastAck: int,
    inFlight: map<Route, int>,
    route: Route,
    keyToSeq: map<Key, int>,
    history: map<int, PacketFeedback>,
    recent: map<Key, nat>,
    recentInOrder: seq<Acknowledged>,
    generation: nat,
    pendingUntracked: int)

  function Initial(route: Route): State {
    State(Fresh, -1, map[], route, map[], map[], map[], [], 0, 0)
  }

  // ---------------------------------------------------------------------------
  // InFlightBytesTracker

  function AddInFlight(m: map<Route, int>, p: PacketFeedback): map<Route, int> {
    if p.route in m then m[p.route := m[p.route] + p.size] else m[p.route := p.size]
  }

  function RemoveInFlight(m: map<Route, int>, p: PacketFeedback): map<Route, int> {
    if p.sendTime.None? || p.route !in m then m
    else if m[p.route] - p.size == 0 then m - {p.route}
    else m[p.route := m[p.route] - p.size]
  }

  function Outstanding(m: map<Route, int>, r: Route): int {
    if r in m then m[r] else 0
  }

  // ---------------------------------------------------------------------------
  // History

  ghost predicate IsFirst(h: map<int, PacketFeedback>, k: int) {
    k in h && forall j :: j in h ==> k <= j
  }

  lemma NonEmptyHasKey(h: map<int, PacketFeedback>)
    ensures h == map[] || exists k :: k in h
  {
    assert (forall k :: k !in h) ==> h == map[];
  }

  lemma HasFirst(h: map<int, PacketFeedback>)
    requires h != map[]
    ensures exists k :: IsFirst(h, k)
    decreases |h|
  {
    NonEmptyHasKey(h);
    var k :| k in h;
    RemoveShrinks(h, k);
    if h - {k} == map[] {
      assert forall j :: j in h ==> j == k || j in h - {k};
      assert IsFirst(h, k);
    } else {
      HasFirst(h - {k});
      var j :| IsFirst(h - {k}, j);
      assert forall i :: i in h ==> i == k || i in h - {k};
      assert IsFirst(h, if j < k then j else k);
    }
  }

  /** The key of `history_.begin()`. */
  ghost function First(h: map<int, PacketFeedback>): (k: int)
    requires h != map[]
    ensures IsFirst(h, k)
  {
    HasFirst(h);
    var k :| IsFirst(h, k);
    k
  }

  /** The removal loop of `AddPacket`: entries created more than the window ago leave from
      the front. */
  ghost function PruneHistory(s: State, now: int): State
    decreases |s.history|
  {
    if s.history == map[] || now - s.history[First(s.history)].creationTime <= SEND_TIME_HISTORY_WINDOW then s
    else
      RemoveShrinks(s.history, First(s.history));
      PruneHistory(DropFirst(s), now)
  }

  ghost function DropFirst(s: State): State
    requires s.history != map[]
  {
    var k := First(s.history);
    var p := s.history[k];
    s.(inFlight := if p.sequenceNumber > s.lastAck then RemoveInFlight(s.inFlight, p) else s.inFlight,
       keyToSeq := s.keyToSeq - {p.key},
       history := s.history - {k})
  }

  // ---------------------------------------------------------------------------
  // Recent acknowledgements

  /** `PruneRecentlyAcknowledgedPackets`. */
  function PruneRecent(s: State, now: int): State
    decreases |s.recentInOrder|
  {
    if s.recentInOrder == [] || now - s.recentInOrder[0].time <= SEND_TIME_HISTORY_WINDOW then s
    else
      var a := s.recentInOrder[0];
      PruneRecent(s.(recent := if a.key in s.recent && s.recent[a.key] == a.generation
                               then s.recent - {a.key} else s.recent,
                     recentInOrder := s.recentInOrder[1..]), now)
  }

  /** `RememberAcknowledgedPacket`. */
  function Remember(s: State, key: Key, now: int): State {
    s.(generation := s.generation + 1,
       recent := s.recent[key := s.generation + 1],
       recentInOrder := s.recentInOrder + [Acknowledged(key, now, s.generation + 1)])
  }

  // ---------------------------------------------------------------------------
  // Operations

  /** `AddPacket`; the size includes the overhead. */
  ghost function AddPacket(s: State, transportSeq: Option<int>, key: Key, size: nat, now: int): State {
    match transportSeq
    case None => s
    case Some(value) =>
      var s1 := PruneRecent(s, now);
      var (unwrapper, n) := Unwrap(s1.unwrapper, Wrap(value));
      var p := PacketFeedback(now, n, size, None, 0, 0, s.route, key);
      var s2 := PruneHistory(s1.(unwrapper := unwrapper), now);
      s2.(recent := s2.recent - {key},
          keyToSeq := if key in s2.keyToSeq then s2.keyToSeq else s2.keyToSeq[key := n],
          history := if n in s2.history then s2.history else s2.history[n := p])
  }

  /** `RemovePacket`. */
  function RemovePacket(s: State, key: Key): (State, bool) {
    if key !in s.keyToSeq then (s, false)
    else
      var n := s.keyToSeq[key];
      if n in s.history then
        (s.(inFlight := RemoveInFlight(s.inFlight, s.history[n]),
            history := s.history - {n}, keyToSeq := s.keyToSeq - {key}), true)
      else (s.(keyToSeq := s.keyToSeq - {key}), true)
  }

  /** `ProcessSentPacket` for a packet with an id. */
  function TrackedSent(s: State, packetId: int, sendTime: int): (State, Option<PacketFeedback>) {
    var (unwrapper, n) := Unwrap(s.unwrapper, Wrap(packetId));
    var s1 := s.(unwrapper := unwrapper);
    if n !in s1.history then (s1, None)
    else
      var p := s1.history[n];
      var sent := p.(sendTime := Some(sendTime), priorUnackedData := p.priorUnackedData + s1.pendingUntracked);
      if p.sendTime.Some? then (s1.(history := s1.history[n := sent], pendingUntracked := 0), None)
      else
        var inFlight := if p.sequenceNumber > s1.lastAck then AddInFlight(s1.inFlight, sent) else s1.inFlight;
        var counted := sent.(dataInFlight := Outstanding(inFlight, s1.route));
        (s1.(history := s1.history[n := counted], pendingUntracked := 0, inFlight := inFlight), Some(counted))
  }

  /** `ProcessSentPacket`. */
  function SentPacket(s: State, packetId: int, includedInFeedback: bool, includedInAllocation: bool, size: nat,
                      sendTime: int): (State, Option<PacketFeedback>) {
    if includedInFeedback || packetId != -1 then TrackedSent(s, packetId, sendTime)
    else if includedInAllocation then (s.(pendingUntracked := s.pendingUntracked + size), None)
    else (s, None)
  }

  /** The loop over the history from behind `lo` up to `hi` that takes packets out of
      flight. */
  function Release(m: map<Route, int>, h: map<int, PacketFeedback>, lo: int, hi: int): map<Route, int>
    decreases hi - lo
  {
    if hi <= lo then m
    else Release(if lo + 1 in h then RemoveInFlight(m, h[lo + 1]) else m, h, lo + 1, hi)
  }

  /** `RetrievePacketFeedback` by transport sequence number. */
  function RetrieveSeq(s: State, n: int, received: bool): (State, Option<PacketFeedback>) {
    var s1 := if n > s.lastAck then s.(inFlight := Release(s.inFlight, s.history, s.lastAck, n), lastAck := n) else s;
    if n !in s1.history || s1.history[n].sendTime.None? then (s1, None)
    else
      var p := s1.history[n];
      (if received then s1.(keyToSeq := s1.keyToSeq - {p.key}, history := s1.history - {n}) else s1, Some(p))
  }

  function Retrieve(s: State, key: Key, received: bool): (State, Option<PacketFeedback>) {
    if key in s.keyToSeq then RetrieveSeq(s, s.keyToSeq[key], received) else (s, None)
  }

  /** One packet of a feedback message; `arrivalOffset` is None for a packet not received. */
  datatype Reported = Reported(key: Key, received: bool)

  /** One result handed to congestion control. */
  datatype Result = Result(sent: PacketFeedback, received: bool)

  function FeedbackOne(s: State, f: Reported, now: int): (State, Option<Result>) {
    var (s1, p) := Retrieve(s, f.key, f.received);
    match p
    case None => (s1, None)
    case Some(sent) =>
      (if f.received then Remember(s1, f.key, now) else s1,
       if sent.route == s1.route then Some(Result(sent, f.received)) else None)
  }

  /** The loop of `ProcessCongestionControlFeedback`. */
  function FeedbackLoop(s: State, packets: seq<Reported>, now: int): (State, seq<Result>)
    decreases |packets|
  {
    if packets == [] then (s, [])
    else
      var (s1, r) := FeedbackOne(s, packets[0], now);
      var (s2, rest) := FeedbackLoop(s1, packets[1..], now);
      (s2, (if r.Some? then [r.value] else []) + rest)
  }

  function Feedback(s: State, packets: seq<Reported>, now: int): (State, seq<Result>) {
    FeedbackLoop(PruneRecent(s, now), packets, now)
  }
}
