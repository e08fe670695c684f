/**
 The RTCP congestion control feedback packet: writing it behind other packets of a
 datagram, counting its length, and parsing it.
 */
module FeedbackPacket {
  import opened SeqNum
  import opened Rtcp
  import opened FeedbackCodec

  const FEEDBACK_FORMAT := 11
  const SENDER_SSRC_LENGTH := 4
  const TIMESTAMP_LENGTH := 4
  const BLOCK_HEADER_LENGTH := 8

  // ---------------------------------------------------------------------------
  // The whole packet

  /** What `BlockLength` counts. */
  function BlockSize(packets: seq<PacketInfo>): nat {
    SENDER_SSRC_LENGTH + HEADER_LENGTH + TIMESTAMP_LENGTH + GroupsSize(Groups(packets))
  }

  /** The payload behind the common header. */
  function Payload(sender: U32, packets: seq<PacketInfo>, timestamp: U32): (r: seq<Byte>)
    ensures |r| == 8 + |Body(Groups(packets))|
  {
    Be32(sender) + Body(Groups(packets)) + Be32(timestamp)
  }

  function Message(sender: U32, packets: seq<PacketInfo>, timestamp: U32): (r: seq<Byte>)
    ensures |r| == 12 + |Body(Groups(packets))|
  {
    Header(FEEDBACK_FORMAT, RTPFB_PACKET_TYPE, Wrap((BlockSize(packets) - HEADER_LENGTH) / 4)) +
    Payload(sender, packets, timestamp)
  }

  /** The layout of a message in section 3.1 of RFC 8888: version 2 with format 11, packet type 205, the
      sender, the blocks and the report timestamp. The length field is the counted size in words less one, cut
      to 16 bits. */
  lemma MessageLayout(sender: U32, packets: seq<PacketInfo>, timestamp: U32)
    ensures var m := Message(sender, packets, timestamp);
            m[0] == 0x8B && m[1] == 205 && 65536 * Word(m, 4) + Word(m, 6) == sender &&
            m[8..|m| - 4] == Body(Groups(packets)) &&
            65536 * Word(m, |m| - 4) + Word(m, |m| - 2) == timestamp &&
            Word(m, 2) == Wrap((BlockSize(packets) - 4) / 4)
  {
    hide Groups, Body, BlockSize;
    var words := Wrap((BlockSize(packets) - HEADER_LENGTH) / 4);
    var h, s, body, t := Header(FEEDBACK_FORMAT, RTPFB_PACKET_TYPE, words), Be32(sender), Body(Groups(packets)), Be32(timestamp);
    var m := Message(sender, packets, timestamp);
    assert m == h + (s + body + t);
    assert Word(m, 2) == Word(h, 2) && Word(m, 4) == Word(s, 0) && Word(m, 6) == Word(s, 2);
    assert Word(m, |m| - 4) == Word(t, 0) && Word(m, |m| - 2) == Word(t, 2);
  }

  /** What the header comment of the class demands of the list: consecutive numbers per stream. */
  predicate WellFormed(packets: seq<PacketInfo>) {
    AllContiguous(Groups(packets))
  }

  lemma {:induction false} RunsAligned(runs: seq<Run>)
    requires AreRuns(runs)
    ensures |RunsBytes(runs)| % 4 == 0
  {
    hide RunBytes;
    if runs != [] {
      RunsAligned(runs[1..]);
      EvenBlock(|runs[0].infos|);
    }
  }

  /** The message is no longer than counted exactly if the total excess is not positive; so
      always if no stream overruns, and then it has the length counted exactly if no stream has
      more than 16384 reports. */
  lemma MessageMatchesIff(sender: U32, packets: seq<PacketInfo>, timestamp: U32)
    requires WellFormed(packets)
    ensures |Message(sender, packets, timestamp)| <= BlockSize(packets) <==> TotalExcess(Groups(packets)) <= 0
    ensures (forall i :: 0 <= i < |Groups(packets)| ==> !Overruns(Groups(packets)[i])) ==>
              TotalExcess(Groups(packets)) <= 0 &&
              (|Message(sender, packets, timestamp)| == BlockSize(packets) <==>
               AllWithin(Groups(packets), MAX_REPORTS))
  {
    hide Groups, Body, GroupsSize, TotalExcess, Overruns;
    BodyMatchesIff(Groups(packets));
  }

  /** One report for every number of the space, a list without gap or duplicate: no room is
      counted for the reports, and all of them are written. */
  lemma WholeSpaceOverruns(sender: U32, packets: seq<PacketInfo>, timestamp: U32)
    requires |packets| == MODULUS && Contiguous(packets)
    ensures WellFormed(packets) && forall i, j :: 0 <= i < j < |packets| ==>
              packets[i].sequenceNumber != packets[j].sequenceNumber
    ensures BlockSize(packets) == 20 && |Message(sender, packets, timestamp)| == 131092
  {
    hide GroupBytes, GroupSize, Groups, Message, BlockSize;
    OneStream(sender, packets, timestamp);
    FullGroupSize(packets);
  }

  /** For a single stream of any length, what is written beyond the count. */
  lemma OneStream(sender: U32, packets: seq<PacketInfo>, timestamp: U32)
    requires packets != [] && Contiguous(packets)
    ensures Groups(packets) == [packets] && WellFormed(packets)
    ensures BlockSize(packets) == 12 + GroupSize(packets)
    ensures |Message(sender, packets, timestamp)| == BlockSize(packets) + Excess(|packets|)
  {
    hide GroupBytes, GroupSize, Excess;
    FirstGroup(packets, |packets|);
    assert packets[..|packets|] == packets && packets[|packets|..] == [];
    assert Groups(packets) == [packets];
    GroupMatchesIff(packets);
    assert [packets][1..] == [];
  }

  lemma FullGroupSize(group: seq<PacketInfo>)
    requires |group| == MODULUS && Contiguous(group)
    ensures GroupSize(group) == 8
  {
    WrapOfSpan(group[0].sequenceNumber, MODULUS);
    assert group[MODULUS - 1].sequenceNumber == Wrap(group[0].sequenceNumber + (MODULUS - 1));
  }

  lemma WithinNeverOverruns(groups: seq<seq<PacketInfo>>)
    requires AllWithin(groups, MAX_REPORTS)
    ensures forall i :: 0 <= i < |groups| ==> !Overruns(groups[i])
  {
  }

  /** What `Parse` makes of a payload: sender, timestamp and packets, if it is accepted. */
  datatype Parsed = Rejected | Accepted(sender: U32, timestamp: U32, packets: seq<PacketInfo>)

  function ParsePayload(payload: seq<Byte>): Parsed {
    if |payload| % 4 != 0 || |payload| < SENDER_SSRC_LENGTH + TIMESTAMP_LENGTH then Rejected
    else
      var body := payload[..|payload| - TIMESTAMP_LENGTH];
      var read := ReadRuns(body, SENDER_SSRC_LENGTH);
      if !read.ok then Rejected
      else Accepted(Read32(payload, 0), Read32(payload, |payload| - TIMESTAMP_LENGTH), RunsPackets(read.runs))
  }

  /** Parsing the payload written gives sender, timestamp and delivered packets. */
  lemma PayloadRoundTrip(sender: U32, packets: seq<PacketInfo>, timestamp: U32)
    requires AllContiguous(Groups(packets)) && AllWithin(Groups(packets), MAX_REPORTS)
    ensures |Payload(sender, packets, timestamp)| % 4 == 0
    ensures ParsePayload(Payload(sender, packets, timestamp)) == Accepted(sender, timestamp, DeliveredAll(packets))
  {
    hide Body, Groups, ReadRuns, RunsPackets, RunsBytes, AllContiguous, AllWithin;
    var body, s, t := Body(Groups(packets)), Be32(sender), Be32(timestamp);
    var payload := s + body + t;
    BodyAligned(packets);
    assert payload == [] + s + (body + t);
    Read32Be32([], sender, body + t);
    assert payload == (s + body) + t + [];
    Read32Be32(s + body, timestamp, []);
    assert payload[..|payload| - TIMESTAMP_LENGTH] == s + body;
    BodyRoundTrip(s, packets);
  }

  lemma BodyAligned(packets: seq<PacketInfo>)
    requires AllContiguous(Groups(packets)) && AllWithin(Groups(packets), MAX_REPORTS)
    ensures |Body(Groups(packets))| % 4 == 0
  {
    BodyIsRuns(Groups(packets));
    RunsAligned(RunsOf(Groups(packets)));
  }

  /** The round trip of the whole packet, in front of whatever follows it in the datagram, up to
      the length the 16-bit length field can state. */
  lemma MessageRoundTrip(sender: U32, packets: seq<PacketInfo>, timestamp: U32, rest: seq<Byte>)
    requires WellFormed(packets) && AllWithin(Groups(packets), MAX_REPORTS)
    requires BlockSize(packets) <= 4 * MODULUS
    ensures var h := ParseHeader(Message(sender, packets, timestamp) + rest);
            h.Some? && h.value.format == FEEDBACK_FORMAT && h.value.packetType == RTPFB_PACKET_TYPE &&
            h.value.packetSize == BlockSize(packets) &&
            ParsePayload(h.value.payload) == Accepted(sender, timestamp, DeliveredAll(packets))
  {
    hide Payload, ParsePayload, Groups, BlockSize, AllContiguous, AllWithin, ParseHeader, Overruns, TotalExcess;
    PayloadRoundTrip(sender, packets, timestamp);
    WithinNeverOverruns(Groups(packets));
    MessageMatchesIff(sender, packets, timestamp);
    var payload := Payload(sender, packets, timestamp);
    assert (BlockSize(packets) - HEADER_LENGTH) / 4 == |payload| / 4;
    assert Wrap(|payload| / 4) == |payload| / 4;
    ParseInvertsHeader(FEEDBACK_FORMAT, RTPFB_PACKET_TYPE, payload, rest);
  }

  // ---------------------------------------------------------------------------
  // The packet object

  class CongestionControlFeedback {
    var senderSsrc: U32
    var packets: seq<PacketInfo>
    var reportTimestamp: U32

    constructor (packets: seq<PacketInfo>, compactNtpTimestamp: U32)
      ensures this.packets == packets && reportTimestamp == compactNtpTimestamp && senderSsrc == 0
    {
      this.packets, reportTimestamp, senderSsrc := packets, compactNtpTimestamp, 0;
    }

    /** Counted from the first and last number of each stream, in one pass. */
    method BlockLength() returns (total: nat)
      ensures total == BlockSize(packets)
    {
      hide Groups, GroupsSize, RunSize, Wrap;
      total := SENDER_SSRC_LENGTH + HEADER_LENGTH + TIMESTAMP_LENGTH;
      NoGroups(packets);
      if packets == [] {
        return;
      }
      var i, start := 0, 0;
      while i < |packets|
        invariant start <= i <= |packets| && start < |packets|
        invariant forall j :: start <= j < i ==> packets[j].ssrc == packets[start].ssrc
        invariant total + GroupsSize(Groups(packets[start..])) == BlockSize(packets)
      {
        if packets[i].ssrc != packets[start].ssrc {
          GroupEnds(packets, start, i);
          total := total + RunSize(Wrap(packets[i - 1].sequenceNumber - packets[start].sequenceNumber + 1));
          start := i;
        }
        i := i + 1;
      }
      GroupEnds(packets, start, |packets|);
      total := total + RunSize(Wrap(packets[|packets| - 1].sequenceNumber - packets[start].sequenceNumber + 1));
    }

    /** Write the packet behind the first `pos` bytes of the buffer, if it is no longer than
        counted: without that the room check would let it run past the end. If it does not fit there,
        the buffer is handed over first and the packet starts a fresh one; it fails exactly if
        it does not fit an empty buffer. `flushed` collects what was handed over. */
    method Create(buffer: array<Byte>, pos: nat, maxLength: nat)
      returns (ok: bool, end: nat, flushed: seq<seq<Byte>>)
      requires pos <= maxLength <= buffer.Length
      requires WellFormed(packets) && TotalExcess(Groups(packets)) <= 0
      modifies buffer
      ensures ok <==> BlockSize(packets) <= maxLength
      ensures flushed == if pos > 0 && pos + BlockSize(packets) > maxLength then [old(buffer[..pos])] else []
      ensures end <= maxLength
      ensures !ok ==> end == 0 && buffer[..] == old(buffer[..])
      ensures ok ==> buffer[..end] == (if flushed == [] then old(buffer[..pos]) else []) +
                                      Message(senderSsrc, packets, reportTimestamp)
    {
      hide Message, BlockSize, WellFormed, Groups, TotalExcess;
      var length := BlockLength();
      end, flushed, ok := pos, [], true;
      while end + length > maxLength
        invariant (end == pos && flushed == []) ||
                  (end == 0 && pos > 0 && pos + length > maxLength && flushed == [old(buffer[..pos])])
        invariant buffer[..] == old(buffer[..])
        decreases end
      {
        if end == 0 {
          ok := false;
          return;
        }
        flushed := flushed + [buffer[..end]];
        end := 0;
      }
      MessageMatchesIff(senderSsrc, packets, reportTimestamp);
      end := WriteMessage(buffer, end, length);
    }

    method WriteMessage(buffer: array<Byte>, pos: nat, length: nat) returns (end: nat)
      requires length == BlockSize(packets) && pos + |Message(senderSsrc, packets, reportTimestamp)| <= buffer.Length
      modifies buffer
      ensures end == pos + |Message(senderSsrc, packets, reportTimestamp)|
      ensures buffer[..end] == old(buffer[..pos]) + Message(senderSsrc, packets, reportTimestamp)
    {
      hide BlockSize, Groups, Body, Header, Be32;
      var words := Wrap((length - HEADER_LENGTH) / 4);
      ghost var so, head := buffer[..pos], Header(FEEDBACK_FORMAT, RTPFB_PACKET_TYPE, words);
      WriteStart(buffer, pos, words);
      end := WriteGroups(buffer, pos + 8, packets);
      WriteBigEndian32(buffer, end, reportTimestamp);
      end := end + 4;
      Gather(so, head, Be32(senderSsrc), Body(Groups(packets)), Be32(reportTimestamp));
      assert buffer[..end] == so + head + Be32(senderSsrc) + Body(Groups(packets)) + Be32(reportTimestamp);
    }

    /** The common header and the sender. */
    method WriteStart(buffer: array<Byte>, pos: nat, words: U16)
      requires pos + 8 <= buffer.Length
      modifies buffer
      ensures buffer[..pos + 8] ==
              old(buffer[..pos]) + Header(FEEDBACK_FORMAT, RTPFB_PACKET_TYPE, words) + Be32(senderSsrc)
    {
      hide Header, Be32;
      CreateHeader(FEEDBACK_FORMAT, RTPFB_PACKET_TYPE, words, buffer, pos);
      assert buffer[..pos + 4] == old(buffer[..pos]) + Header(FEEDBACK_FORMAT, RTPFB_PACKET_TYPE, words);
      WriteBigEndian32(buffer, pos + 4, senderSsrc);
    }

    /** One report block per stream. */
    static method WriteGroups(buffer: array<Byte>, pos: nat, packets: seq<PacketInfo>) returns (end: nat)
      requires pos + |Body(Groups(packets))| + 4 <= buffer.Length
      modifies buffer
      ensures end == pos + |Body(Groups(packets))|
      ensures buffer[..end] == old(buffer[..pos]) + Body(Groups(packets))
    {
      hide GroupBytes;
      end := pos;
      var remaining := packets;
      while remaining != []
        invariant pos <= end && end + |Body(Groups(remaining))| == pos + |Body(Groups(packets))|
        invariant buffer[..end] + Body(Groups(remaining)) == old(buffer[..pos]) + Body(Groups(packets))
        decreases |remaining|
      {
        var n := CountForSsrc(remaining);
        ghost var so, rest := buffer[..end], Body(Groups(remaining[n..]));
        FirstGroup(remaining, n);
        end := WriteReport(buffer, end, remaining[..n]);
        assert so + (GroupBytes(remaining[..n]) + rest) == buffer[..end] + rest;
        remaining := remaining[n..];
      }
    }

    static method CountForSsrc(remaining: seq<PacketInfo>) returns (n: nat)
      requires remaining != []
      ensures n == RunLength(remaining)
    {
      n := 0;
      while n < |remaining| && remaining[n].ssrc == remaining[0].ssrc
        invariant 0 <= n <= |remaining| && forall i :: 0 <= i < n ==> remaining[i].ssrc == remaining[0].ssrc
        decreases |remaining| - n
      {
        n := n + 1;
      }
      FirstGroup(remaining, n);
    }

    /** `write_report_for_ssrc`. */
    static method WriteReport(buffer: array<Byte>, pos: nat, group: seq<PacketInfo>) returns (end: nat)
      requires group != [] && pos + |GroupBytes(group)| <= buffer.Length
      modifies buffer
      ensures end == pos + |GroupBytes(group)|
      ensures buffer[..end] == old(buffer[..pos]) + GroupBytes(group)
    {
      ghost var so := buffer[..pos];
      WriteBigEndian32(buffer, pos, group[0].ssrc);
      assert buffer[..pos + 4] == so + Be32(group[0].ssrc);
      WriteBigEndian16(buffer, pos + 4, group[0].sequenceNumber);
      end := pos + 6;
      assert buffer[..end] == so + (Be32(group[0].ssrc) + Be16(group[0].sequenceNumber));
      var count := Wrap(|group|);
      if count > MAX_REPORTS {
        return;
      }
      WriteBigEndian16(buffer, end, count);
      end := end + 2;
      ghost var head := RunHead(group[0].ssrc, group[0].sequenceNumber, count);
      assert buffer[..end] == so + head;
      end := WriteInfos(buffer, end, group);
      assert buffer[..end] == so + head + InfoBytes(Infos(group));
      if count % 2 != 0 {
        WriteBigEndian16(buffer, end, 0);
        end := end + 2;
        assert buffer[..end] == so + head + InfoBytes(Infos(group)) + Be16(0);
      }
      Regroup4(so, head, InfoBytes(Infos(group)), if count % 2 != 0 then Be16(0) else []);
    }

    static method WriteInfos(buffer: array<Byte>, pos: nat, group: seq<PacketInfo>) returns (end: nat)
      requires pos + 2 * |group| <= buffer.Length
      modifies buffer
      ensures end == pos + 2 * |group|
      ensures buffer[..end] == old(buffer[..pos]) + InfoBytes(Infos(group))
    {
      hide InfoOf;
      end := pos;
      var i := 0;
      while i < |group|
        invariant 0 <= i <= |group| && end == pos + 2 * i
        invariant buffer[..end] + InfoBytes(Infos(group[i..])) == old(buffer[..pos]) + InfoBytes(Infos(group))
      {
        ghost var so, rest := buffer[..end], InfoBytes(Infos(group[i + 1..]));
        var info := InfoOf(group[i]);
        WriteBigEndian16(buffer, end, info);
        end := end + 2;
        assert Infos(group[i..])[1..] == Infos(group[i + 1..]);
        assert buffer[..end] == so + Be16(info);
        assert so + (Be16(info) + rest) == so + Be16(info) + rest;
        i := i + 1;
      }
    }

    /** Parse the payload of a packet whose common header has been parsed; packets are added to
        those the object holds. Every read is inside the payload, and it succeeds exactly if
        the blocks end where the report timestamp begins. */
    method Parse(payload: seq<Byte>) returns (ok: bool)
      modifies this
      ensures ok <==> ParsePayload(payload).Accepted?
      ensures |payload| % 4 != 0 || |payload| < SENDER_SSRC_LENGTH + TIMESTAMP_LENGTH ==> unchanged(this)
      ensures old(packets) <= packets
      ensures ok ==> ParsePayload(payload) == Accepted(senderSsrc, reportTimestamp, packets[|old(packets)|..])
    {
      hide RunsPackets, ReadRuns, RunPackets, RunAt, RunBytes;
      if |payload| % 4 != 0 || |payload| < SENDER_SSRC_LENGTH + TIMESTAMP_LENGTH {
        return false;
      }
      senderSsrc, reportTimestamp := Read32(payload, 0), Read32(payload, |payload| - TIMESTAMP_LENGTH);
      var body := payload[..|payload| - TIMESTAMP_LENGTH];
      var at := SENDER_SSRC_LENGTH;
      ghost var all, had := ReadRuns(body, at), packets;
      assert Aligned(|body|) && Aligned(at);
      hide Aligned;
      NoRunsPackets(packets);
      while at + BLOCK_HEADER_LENGTH < |body|
        invariant SENDER_SSRC_LENGTH <= at <= |body| && Aligned(at)
        invariant senderSsrc == Read32(payload, 0)
        invariant reportTimestamp == Read32(payload, |payload| - TIMESTAMP_LENGTH)
        invariant ReadRuns(body, at).ok == all.ok && had <= packets
        invariant packets + RunsPackets(ReadRuns(body, at).runs) == had + RunsPackets(all.runs)
        decreases |body| - at
      {
        PaddingStaysInside(body, at);
        ReadStops(body, at);
        var count: nat := Read16(body, at + 6);
        if at + BLOCK_HEADER_LENGTH + 2 * count > |body| {
          return false;
        }
        ghost var before, r, rest := packets, RunAt(body, at), ReadRuns(body, EndAt(body, at)).runs;
        ReadStep(body, at);
        at := ReadBlock(body, at);
        RunsPacketsStep(before, r, rest);
      }
      ReadStops(body, at);
      NoRunsPackets(packets);
      ok := at == |body|;
      assert ok ==> packets == had + RunsPackets(all.runs);
    }

    /** One block, and the position behind it. */
    method ReadBlock(body: seq<Byte>, at: nat) returns (next: nat)
      requires at + BLOCK_HEADER_LENGTH <= |body| && EndAt(body, at) <= |body|
      modifies this`packets
      ensures next == EndAt(body, at)
      ensures packets == old(packets) + RunPackets(RunAt(body, at))
    {
      BlockIs(body, at);
      var ssrc, base := Read32(body, at), Read16(body, at + 4);
      var count: nat := Read16(body, at + 6);
      ReadReports(body, at + BLOCK_HEADER_LENGTH, ssrc, base, count, RunAt(body, at).padding);
      next := at + BLOCK_HEADER_LENGTH + 2 * count;
      if count % 2 != 0 {
        next := next + 2;
      }
    }

    method ReadReports(body: seq<Byte>, at: nat, ssrc: U32, base: Seq16, count: U16, ghost padding: seq<Byte>)
      requires at + 2 * count <= |body|
      modifies this`packets
      ensures packets == old(packets) + RunPackets(Run(ssrc, base, Words(body, at, count), padding))
    {
      var i := 0;
      while i < count
        invariant 0 <= i <= count && |packets| == |old(packets)| + i && old(packets) <= packets
        invariant forall k :: 0 <= k < i ==>
                    packets[|old(packets)| + k] == PacketOf(ssrc, Wrap(base + k), Read16(body, at + 2 * k))
      {
        packets := packets + [PacketOf(ssrc, Wrap(base + i), Read16(body, at + 2 * i))];
        i := i + 1;
      }
      WordsAre(body, at, count);
    }
  }

  lemma {:induction false} WordsAre(body: seq<Byte>, at: nat, count: nat)
    requires at + 2 * count <= |body|
    ensures forall k :: 0 <= k < count ==> Words(body, at, count)[k] == Read16(body, at + 2 * k)
    decreases count
  {
    if count != 0 {
      WordsAre(body, at + 2, count - 1);
      forall k | 0 <= k < count
        ensures Words(body, at, count)[k] == Read16(body, at + 2 * k)
      {
        if k != 0 {
          assert Words(body, at, count)[k] == Words(body, at + 2, count - 1)[k - 1];
        }
      }
    }
  }

  /** Cutting off the leading packets of one stream. */
  lemma FirstGroup(packets: seq<PacketInfo>, n: nat)
    requires 1 <= n <= |packets| && forall i :: 0 <= i < n ==> packets[i].ssrc == packets[0].ssrc
    requires n < |packets| ==> packets[n].ssrc != packets[0].ssrc
    ensures RunLength(packets) == n
    ensures Groups(packets) == [packets[..n]] + Groups(packets[n..])
    ensures GroupsSize(Groups(packets)) == GroupSize(packets[..n]) + GroupsSize(Groups(packets[n..]))
    ensures Body(Groups(packets)) == GroupBytes(packets[..n]) + Body(Groups(packets[n..]))
  {
    hide GroupBytes, GroupSize;
    assert ([packets[..n]] + Groups(packets[n..]))[1..] == Groups(packets[n..]);
  }

  lemma Regroup4(a: seq<Byte>, b: seq<Byte>, c: seq<Byte>, d: seq<Byte>)
    ensures a + b + c + d == a + (b + c + d)
    ensures a + b + c + [] == a + b + c
  {
  }

  lemma NoGroups(packets: seq<PacketInfo>)
    ensures packets[0..] == packets && GroupsSize(Groups([])) == 0
  {
  }

  lemma GroupEnds(packets: seq<PacketInfo>, start: nat, end: nat)
    requires start < end <= |packets| && forall i :: start <= i < end ==> packets[i].ssrc == packets[start].ssrc
    requires end < |packets| ==> packets[end].ssrc != packets[start].ssrc
    ensures GroupsSize(Groups(packets[start..])) ==
            RunSize(Wrap(packets[end - 1].sequenceNumber - packets[start].sequenceNumber + 1)) +
            GroupsSize(Groups(packets[end..]))
    ensures end == |packets| ==> GroupsSize(Groups(packets[end..])) == 0
  {
    hide RunSize, Wrap, Groups, RunLength, Body, GroupsSize, GroupBytes;
    NoGroups(packets);
    FirstGroup(packets[start..], end - start);
    assert packets[start..][..end - start] == packets[start..end];
    assert packets[start..][end - start..] == packets[end..];
  }

  lemma Gather(a: seq<Byte>, b: seq<Byte>, c: seq<Byte>, d: seq<Byte>, e: seq<Byte>)
    ensures a + b + c + d + e == a + (b + (c + d + e))
  {
  }

  lemma BlockIs(b: seq<Byte>, at: nat)
    requires at + 8 <= |b| && EndAt(b, at) <= |b|
    ensures var count, r := Read16(b, at + 6), RunAt(b, at);
            EndAt(b, at) == at + 8 + 2 * count + (if count % 2 != 0 then 2 else 0) &&
            r == Run(Read32(b, at), Read16(b, at + 4), Words(b, at + 8, count), r.padding)
  {
  }

  lemma NoRunsPackets(packets: seq<PacketInfo>)
    ensures packets + RunsPackets([]) == packets
  {
  }

  lemma RunsPacketsStep(before: seq<PacketInfo>, r: Run, rest: seq<Run>)
    ensures before + RunsPackets([r] + rest) == before + RunPackets(r) + RunsPackets(rest)
  {
    hide RunPackets;
    assert ([r] + rest)[1..] == rest;
  }
}
