/**
 The wire format of RTCP congestion control feedback (RFC 8888, section 3.1): arrival time
 offsets, ECN marks, report blocks per stream, and the exact set of payloads the parser
 accepts.
 */
module FeedbackCodec {
  import opened SeqNum
  import opened Rtcp

  datatype Ecn = NotEct | Ect1 | Ect0 | Ce

  /** A `TimeDelta` in microseconds. */
  datatype TimeOffset = MinusInfinity | Finite(us: int) | PlusInfinity

  datatype PacketInfo = PacketInfo(ssrc: U32, sequenceNumber: Seq16, offset: TimeOffset, ecn: Ecn)

  const MAX_REPORTS := 16384
  const OVER_RANGE: U16 := 0x1FFE
  const UNAVAILABLE: U16 := 0x1FFF
  const RECEIVED: U16 := 0x8000

  // ---------------------------------------------------------------------------
  // One report

  /** `To13bitAto`, in units of 1/1024 s. */
  function ToAto(us: int): (ato: U16)
    ensures ato <= UNAVAILABLE
  {
    if us < 0 then UNAVAILABLE
    else
      var units := us * 1024 / 1_000_000;
      if units < OVER_RANGE then units else OVER_RANGE
  }

  /** `AtoToTimeDelta`. */
  function FromAto(ato: U16): TimeOffset {
    if ato == OVER_RANGE then PlusInfinity
    else if ato == UNAVAILABLE then MinusInfinity
    else Finite(ato * 1_000_000 / 1024)
  }

  /** `To2BitEcn`, before the shift by 13. */
  function EcnBits(ecn: Ecn): (bits: U16)
    ensures bits < 4
  {
    match ecn
    case NotEct => 0
    case Ect1 => 1
    case Ect0 => 2
    case Ce => 3
  }

  /** `ToEcnMarking`. */
  function EcnOf(info: U16): Ecn {
    var bits := info / 0x2000 % 4;
    if bits == 1 then Ect1 else if bits == 2 then Ect0 else if bits == 3 then Ce else NotEct
  }

  /** The 16 bits written for a packet; all zero for one that was not received. */
  function InfoOf(p: PacketInfo): U16 {
    if p.offset.Finite? then
      var ecn: int, ato: int := EcnBits(p.ecn), ToAto(p.offset.us);
      RECEIVED + 0x2000 * ecn + ato
    else 0
  }

  /** The packet read from 16 bits. */
  function PacketOf(ssrc: U32, n: Seq16, info: U16): PacketInfo {
    PacketInfo(ssrc, n, if info >= RECEIVED then FromAto(info % 0x2000) else MinusInfinity, EcnOf(info))
  }

  /** The layout of a report in section 3.1 of RFC 8888: the top bit if it was received, two bits of
      ECN, and 13 bits of arrival time offset in 1/1024 s, 0x1FFE if that is over range and 0x1FFF if
      it is negative. */
  lemma ReportLayout(p: PacketInfo)
    ensures !p.offset.Finite? ==> InfoOf(p) == 0
    ensures p.offset.Finite? ==>
              InfoOf(p) / 0x8000 == 1 &&
              InfoOf(p) / 0x2000 % 4 == (match p.ecn case NotEct => 0 case Ect1 => 1 case Ect0 => 2 case Ce => 3) &&
              (p.offset.us < 0 ==> InfoOf(p) % 0x2000 == 0x1FFF) &&
              (p.offset.us >= 0 ==>
                 var units := p.offset.us * 1024 / 1_000_000;
                 InfoOf(p) % 0x2000 == if units >= 0x1FFE then 0x1FFE else units)
  {
  }

  /** What becomes of a packet on its way over the wire. */
  function Delivered(p: PacketInfo): PacketInfo {
    PacketOf(p.ssrc, p.sequenceNumber, InfoOf(p))
  }

  /** A received packet keeps its mark; its offset shrinks by less than 1/1024 s and one
      microsecond, is over range from 8190/1024 s on, and unavailable if negative. A packet
      that was not received arrives as such. */
  lemma DeliveredMeans(p: PacketInfo)
    ensures Delivered(p).ssrc == p.ssrc && Delivered(p).sequenceNumber == p.sequenceNumber
    ensures !p.offset.Finite? ==> Delivered(p).offset == MinusInfinity && Delivered(p).ecn == NotEct
    ensures p.offset.Finite? ==> Delivered(p).ecn == p.ecn
    ensures p.offset.Finite? ==>
              (Delivered(p).offset == MinusInfinity <==> p.offset.us < 0) &&
              (Delivered(p).offset == PlusInfinity <==> p.offset.us * 1024 >= 8190 * 1_000_000)
    ensures p.offset.Finite? && 0 <= p.offset.us && p.offset.us * 1024 < 8190 * 1_000_000 ==>
              Delivered(p).offset.Finite? && Delivered(p).offset.us <= p.offset.us &&
              (p.offset.us - Delivered(p).offset.us - 1) * 1024 < 1_000_000
  {
    if p.offset.Finite? {
      BitsApart(EcnBits(p.ecn), ToAto(p.offset.us));
    }
  }

  lemma BitsApart(ecn: U16, ato: U16)
    requires ecn < 4 && ato < 0x2000
    ensures var info: int := RECEIVED + 0x2000 * ecn + ato;
            info < 0x1_0000 && info % 0x2000 == ato && info / 0x2000 % 4 == ecn
  {
  }

  /** The source multiplies in single precision. Whatever whole number of units a product
      within a relative error of 2^-22 is cut to, the offset read back is within 1/1024 s and
      three microseconds below, and two microseconds above. */
  lemma SinglePrecisionOffset(us: nat, ato: U16)
    requires ato < OVER_RANGE
    requires ato * 1_000_000 * 0x40_0000 <= us * 1024 * 0x40_0001
    requires (ato + 1) * 1_000_000 * 0x40_0000 > us * 1024 * 0x3F_FFFF
    ensures FromAto(ato).Finite? && FromAto(ato).us <= us + 2
    ensures (us - FromAto(ato).us - 3) * 1024 < 1_000_000
  {
    var read := FromAto(ato).us;
    assert read * 1024 <= ato * 1_000_000 < (read + 1) * 1024;
    assert us * 1024 * 0x3F_FFFF < 8191 * 1_000_000 * 0x40_0000;
    assert us < 8_000_000;
  }

  // ---------------------------------------------------------------------------
  // The report block of one stream

  datatype Run = Run(ssrc: U32, base: Seq16, infos: seq<U16>, padding: seq<Byte>)

  /** Bytes that align a block of `count` reports. */
  function Padding(count: nat): nat {
    if count % 2 != 0 then 2 else 0
  }

  predicate IsRun(r: Run) {
    |r.infos| < 0x1_0000 && |r.padding| == Padding(|r.infos|)
  }

  function InfoBytes(infos: seq<U16>): (r: seq<Byte>)
    ensures |r| == 2 * |infos|
  {
    if infos == [] then [] else Be16(infos[0]) + InfoBytes(infos[1..])
  }

  function RunHead(ssrc: U32, base: Seq16, count: U16): (r: seq<Byte>)
    ensures |r| == 8
  {
    Be32(ssrc) + Be16(base) + Be16(count)
  }

  function RunBytes(r: Run): (b: seq<Byte>)
    requires IsRun(r)
    ensures |b| == 8 + 2 * |r.infos| + |r.padding|
  {
    RunHead(r.ssrc, r.base, |r.infos|) + InfoBytes(r.infos) + r.padding
  }

  /** The layout of a block: the SSRC, the first number and the count, then the reports, all in
      big-endian order, padded to four bytes. */
  lemma BlockLayout(r: Run)
    requires IsRun(r)
    ensures var b, n := RunBytes(r), |r.infos|;
            |b| == 8 + 2 * n + (if n % 2 == 1 then 2 else 0) &&
            65536 * Word(b, 0) + Word(b, 2) == r.ssrc && Word(b, 4) == r.base && Word(b, 6) == n &&
            forall i :: 0 <= i < n ==> Word(b, 8 + 2 * i) == r.infos[i]
  {
    InfosLayout(r.infos);
    var head := RunHead(r.ssrc, r.base, |r.infos|);
    var b := RunBytes(r);
    assert b[..8] == head;
    assert forall i :: 0 <= i < 8 ==> b[i] == head[i];
    HeadLayout(r.ssrc, r.base, |r.infos|);
    assert Word(b, 0) == Word(head, 0) && Word(b, 2) == Word(head, 2);
    assert Word(b, 4) == Word(head, 4) && Word(b, 6) == Word(head, 6);
    forall i | 0 <= i < |r.infos|
      ensures Word(b, 8 + 2 * i) == r.infos[i]
    {
      assert Word(b, 8 + 2 * i) == Word(InfoBytes(r.infos), 2 * i);
    }
  }

  lemma HeadLayout(ssrc: U32, base: Seq16, count: U16)
    ensures var head := RunHead(ssrc, base, count);
            65536 * Word(head, 0) + Word(head, 2) == ssrc && Word(head, 4) == base && Word(head, 6) == count
  {
  }

  lemma {:induction false} InfosLayout(infos: seq<U16>)
    ensures forall i :: 0 <= i < |infos| ==> Word(InfoBytes(infos), 2 * i) == infos[i]
  {
    if infos != [] {
      InfosLayout(infos[1..]);
      var b := InfoBytes(infos);
      forall i | 0 <= i < |infos|
        ensures Word(b, 2 * i) == infos[i]
      {
        if i > 0 {
          assert Word(b, 2 * i) == Word(InfoBytes(infos[1..]), 2 * (i - 1));
        }
      }
    }
  }

  predicate AreRuns(runs: seq<Run>) {
    forall i :: 0 <= i < |runs| ==> IsRun(runs[i])
  }

  function RunsBytes(runs: seq<Run>): (b: seq<Byte>)
    requires AreRuns(runs)
  {
    if runs == [] then [] else RunBytes(runs[0]) + RunsBytes(runs[1..])
  }

  // ---------------------------------------------------------------------------
  // Parsing

  /** `count` 16-bit words from position `at`. */
  function Words(b: seq<Byte>, at: nat, count: nat): (r: seq<U16>)
    requires at + 2 * count <= |b|
    ensures |r| == count
    decreases count
  {
    if count == 0 then [] else [Read16(b, at)] + Words(b, at + 2, count - 1)
  }

  datatype ReadResult = ReadResult(runs: seq<Run>, ok: bool)

  /** The number of reports the block at `at` claims. */
  function CountAt(b: seq<Byte>, at: nat): (n: nat)
    requires at + 8 <= |b|
    ensures n < 0x1_0000
  {
    Read16(b, at + 6)
  }

  /** Where the block at `at` ends, padding included. */
  function EndAt(b: seq<Byte>, at: nat): nat
    requires at + 8 <= |b|
  {
    at + 8 + 2 * CountAt(b, at) + Padding(CountAt(b, at))
  }

  /** The block at `at`, if the reports it claims are there. */
  function RunAt(b: seq<Byte>, at: nat): (r: Run)
    requires at + 8 <= |b| && EndAt(b, at) <= |b|
    ensures IsRun(r) && at + |RunBytes(r)| == EndAt(b, at)
  {
    var count := CountAt(b, at);
    Run(Read32(b, at), Read16(b, at + 4), Words(b, at + 8, count), b[at + 8 + 2 * count..EndAt(b, at)])
  }

  /** The loop of `Parse` from position `at` of what precedes the report timestamp: the blocks
      read, and whether it ends exactly at the end. A block that claims more than there is
      ends it. */
  function ReadRuns(b: seq<Byte>, at: nat): ReadResult
    requires at <= |b|
    decreases |b| - at
  {
    if at + 8 >= |b| then ReadResult([], at == |b|)
    else if EndAt(b, at) > |b| then ReadResult([], false)
    else
      var rest := ReadRuns(b, EndAt(b, at));
      ReadResult([RunAt(b, at)] + rest.runs, rest.ok)
  }

  predicate Aligned(n: nat) {
    n % 4 == 0
  }

  /** `Parse` checks only that the reports are there. By alignment the padding then is too: the
      skip over it never passes the end. */
  lemma PaddingStaysInside(b: seq<Byte>, at: nat)
    requires Aligned(|b|) && Aligned(at) && at + 8 <= |b|
    ensures at + 8 + 2 * CountAt(b, at) <= |b| <==> EndAt(b, at) <= |b|
    ensures Aligned(EndAt(b, at))
  {
    EvenBlock(CountAt(b, at));
  }

  lemma EvenBlock(count: nat)
    ensures (2 * count + Padding(count)) % 4 == 0
  {
    var half := count / 2;
    assert count == 2 * half || count == 2 * half + 1;
  }

  /** A block without reports may stand anywhere but at the end. */
  predicate Acceptable(runs: seq<Run>) {
    AreRuns(runs) && (runs != [] ==> runs[|runs| - 1].infos != [])
  }

  lemma {:induction false} WordsInvertInfoBytes(prefix: seq<Byte>, infos: seq<U16>, suffix: seq<Byte>)
    ensures Words(prefix + InfoBytes(infos) + suffix, |prefix|, |infos|) == infos
    decreases |infos|
  {
    if infos != [] {
      var b, first, rest := prefix + InfoBytes(infos) + suffix, Be16(infos[0]), InfoBytes(infos[1..]);
      assert b == prefix + first + (rest + suffix);
      Read16Be16(prefix, infos[0], rest + suffix);
      assert b == (prefix + first) + rest + suffix;
      WordsInvertInfoBytes(prefix + first, infos[1..], suffix);
    }
  }

  lemma {:induction false} InfoBytesInvertWords(b: seq<Byte>, at: nat, count: nat)
    requires at + 2 * count <= |b|
    ensures InfoBytes(Words(b, at, count)) == b[at..at + 2 * count]
    decreases count
  {
    if count != 0 {
      InfoBytesInvertWords(b, at + 2, count - 1);
      Be16Read16(b, at);
      var words := Words(b, at, count);
      assert words[1..] == Words(b, at + 2, count - 1);
      assert b[at..at + 2 * count] == b[at..at + 2] + b[at + 2..at + 2 * count];
    }
  }

  lemma HeadReadBack(prefix: seq<Byte>, ssrc: U32, base: Seq16, count: U16, suffix: seq<Byte>)
    ensures var b := prefix + RunHead(ssrc, base, count) + suffix;
            Read32(b, |prefix|) == ssrc && Read16(b, |prefix| + 4) == base && Read16(b, |prefix| + 6) == count
  {
    var b, s, q, n := prefix + RunHead(ssrc, base, count) + suffix, Be32(ssrc), Be16(base), Be16(count);
    assert b == prefix + s + (q + n + suffix);
    Read32Be32(prefix, ssrc, q + n + suffix);
    assert b == (prefix + s) + q + (n + suffix);
    Read16Be16(prefix + s, base, n + suffix);
    assert b == (prefix + s + q) + n + suffix;
    Read16Be16(prefix + s + q, count, suffix);
  }

  lemma HeadWrittenBack(b: seq<Byte>, at: nat)
    requires at + 8 <= |b|
    ensures RunHead(Read32(b, at), Read16(b, at + 4), Read16(b, at + 6)) == b[at..at + 8]
  {
    Be16Read16(b, at);
    Be16Read16(b, at + 2);
    Be16Read16(b, at + 4);
    Be16Read16(b, at + 6);
    assert b[at..at + 8] == b[at..at + 2] + b[at + 2..at + 4] + b[at + 4..at + 6] + b[at + 6..at + 8];
  }

  lemma CountReadBack(prefix: seq<Byte>, r: Run, suffix: seq<Byte>)
    requires IsRun(r)
    ensures var b := prefix + RunBytes(r) + suffix;
            CountAt(b, |prefix|) == |r.infos| && Read32(b, |prefix|) == r.ssrc && Read16(b, |prefix| + 4) == r.base
  {
    var head, infos := RunHead(r.ssrc, r.base, |r.infos|), InfoBytes(r.infos);
    assert prefix + RunBytes(r) + suffix == prefix + head + (infos + r.padding + suffix);
    HeadReadBack(prefix, r.ssrc, r.base, |r.infos|, infos + r.padding + suffix);
  }

  lemma Regroup(a: seq<Byte>, h: seq<Byte>, i: seq<Byte>, p: seq<Byte>, c: seq<Byte>)
    ensures a + (h + i + p) + c == (a + h) + i + (p + c)
    ensures (a + (h + i + p) + c)[|a| + |h| + |i|..|a| + |h| + |i| + |p|] == p
  {
  }

  lemma InfosReadBack(prefix: seq<Byte>, r: Run, suffix: seq<Byte>)
    requires IsRun(r)
    ensures Words(prefix + RunBytes(r) + suffix, |prefix| + 8, |r.infos|) == r.infos
  {
    var head, infos := RunHead(r.ssrc, r.base, |r.infos|), InfoBytes(r.infos);
    hide RunHead, InfoBytes, Words;
    Regroup(prefix, head, infos, r.padding, suffix);
    WordsInvertInfoBytes(prefix + head, r.infos, r.padding + suffix);
  }

  lemma PaddingReadBack(prefix: seq<Byte>, r: Run, suffix: seq<Byte>)
    requires IsRun(r)
    ensures var b, mid := prefix + RunBytes(r) + suffix, |prefix| + 8 + 2 * |r.infos|;
            b[mid..mid + |r.padding|] == r.padding
  {
    var head, infos := RunHead(r.ssrc, r.base, |r.infos|), InfoBytes(r.infos);
    hide RunHead, InfoBytes;
    Regroup(prefix, head, infos, r.padding, suffix);
  }

  /** One block at the front of what is left is read back. */
  lemma RunReadBack(prefix: seq<Byte>, r: Run, suffix: seq<Byte>)
    requires IsRun(r)
    ensures var b := prefix + RunBytes(r) + suffix;
            EndAt(b, |prefix|) == |prefix| + |RunBytes(r)| && RunAt(b, |prefix|) == r
  {
    hide RunBytes, Words, Padding;
    CountReadBack(prefix, r, suffix);
    InfosReadBack(prefix, r, suffix);
    PaddingReadBack(prefix, r, suffix);
  }

  lemma ReadStops(b: seq<Byte>, at: nat)
    requires at <= |b|
    ensures at + 8 >= |b| ==> ReadRuns(b, at) == ReadResult([], at == |b|)
    ensures at + 8 < |b| && EndAt(b, at) > |b| ==> ReadRuns(b, at) == ReadResult([], false)
  {
  }

  lemma ReadStep(b: seq<Byte>, at: nat)
    requires at + 8 < |b| && EndAt(b, at) <= |b|
    ensures var rest := ReadRuns(b, EndAt(b, at));
            ReadRuns(b, at) == ReadResult([RunAt(b, at)] + rest.runs, rest.ok)
  {
  }

  lemma ReadOneRun(prefix: seq<Byte>, r: Run, suffix: seq<Byte>)
    requires IsRun(r) && (r.infos != [] || suffix != [])
    ensures var b, end := prefix + RunBytes(r) + suffix, |prefix| + |RunBytes(r)|;
            ReadRuns(b, |prefix|) == ReadResult([r] + ReadRuns(b, end).runs, ReadRuns(b, end).ok)
  {
    hide RunBytes, RunAt, EndAt, ReadRuns;
    RunReadBack(prefix, r, suffix);
    var b := prefix + RunBytes(r) + suffix;
    assert |b| == |prefix| + |RunBytes(r)| + |suffix|;
    ReadStep(b, |prefix|);
  }

  lemma NoRuns()
    ensures RunsBytes([]) == []
  {
  }

  lemma TailAcceptable(runs: seq<Run>)
    requires Acceptable(runs) && runs != []
    ensures Acceptable(runs[1..]) && (runs[0].infos != [] || runs[1..] != [])
    ensures RunsBytes(runs) == RunBytes(runs[0]) + RunsBytes(runs[1..])
    ensures runs[1..] != [] ==> RunsBytes(runs[1..]) != []
  {
    hide RunBytes;
    assert runs[1..] != [] ==> RunsBytes(runs[1..]) == RunBytes(runs[1]) + RunsBytes(runs[1..][1..]);
  }

  lemma {:induction false} ReadInvertsRuns(prefix: seq<Byte>, runs: seq<Run>)
    requires Acceptable(runs)
    ensures ReadRuns(prefix + RunsBytes(runs), |prefix|) == ReadResult(runs, true)
    decreases |runs|
  {
    hide RunBytes, RunsBytes, RunAt, EndAt;
    var b := prefix + RunsBytes(runs);
    hide Acceptable;
    if runs == [] {
      NoRuns();
    } else {
      TailAcceptable(runs);
      var first, rest := RunBytes(runs[0]), RunsBytes(runs[1..]);
      assert b == prefix + first + rest;
      ReadOneRun(prefix, runs[0], rest);
      ReadInvertsRuns(prefix + first, runs[1..]);
    }
  }

  lemma RunWrittenBack(b: seq<Byte>, at: nat)
    requires at + 8 <= |b| && EndAt(b, at) <= |b|
    ensures RunBytes(RunAt(b, at)) == b[at..EndAt(b, at)]
  {
    hide RunHead, InfoBytes, Words, Padding;
    var count, end := CountAt(b, at), EndAt(b, at);
    var mid := at + 8 + 2 * count;
    HeadWrittenBack(b, at);
    InfoBytesInvertWords(b, at + 8, count);
    assert b[at..at + 8] + b[at + 8..mid] + b[mid..end] == b[at..end];
  }

  lemma {:induction false} RunsInvertRead(b: seq<Byte>, at: nat)
    requires at <= |b| && ReadRuns(b, at).ok
    ensures Acceptable(ReadRuns(b, at).runs)
    ensures RunsBytes(ReadRuns(b, at).runs) == b[at..]
    decreases |b| - at
  {
    hide RunBytes, RunAt, EndAt;
    if at != |b| {
      var r, end := RunAt(b, at), EndAt(b, at);
      var rest := ReadRuns(b, end).runs;
      RunsInvertRead(b, end);
      RunWrittenBack(b, at);
      assert ([r] + rest)[1..] == rest;
      assert b[at..] == b[at..end] + b[end..];
    }
  }

  /** The payloads that parse are exactly the sequences of whole blocks, each of the length it
      claims, the last one with at least one report. */
  lemma AcceptedExactly(b: seq<Byte>, at: nat)
    requires at <= |b|
    ensures ReadRuns(b, at).ok <==> exists runs: seq<Run> :: Acceptable(runs) && b[at..] == RunsBytes(runs)
  {
    hide RunsBytes, ReadRuns;
    if ReadRuns(b, at).ok {
      RunsInvertRead(b, at);
    }
    forall runs: seq<Run> | Acceptable(runs) && b[at..] == RunsBytes(runs)
      ensures ReadRuns(b, at).ok
    {
      ReadInvertsRuns(b[..at], runs);
      assert b == b[..at] + b[at..];
    }
  }

  /** The packets of one block. */
  function RunPackets(r: Run): (p: seq<PacketInfo>)
    ensures |p| == |r.infos|
    ensures forall i :: 0 <= i < |p| ==> p[i] == PacketOf(r.ssrc, Wrap(r.base + i), r.infos[i])
  {
    seq(|r.infos|, i requires 0 <= i < |r.infos| => PacketOf(r.ssrc, Wrap(r.base + i), r.infos[i]))
  }

  function RunsPackets(runs: seq<Run>): seq<PacketInfo> {
    if runs == [] then [] else RunPackets(runs[0]) + RunsPackets(runs[1..])
  }

  // ---------------------------------------------------------------------------
  // Writing

  /** The number of leading packets of the first packet's stream. */
  function RunLength(packets: seq<PacketInfo>): (n: nat)
    requires packets != []
    ensures 1 <= n <= |packets|
    ensures forall i :: 0 <= i < n ==> packets[i].ssrc == packets[0].ssrc
    ensures n < |packets| ==> packets[n].ssrc != packets[0].ssrc
  {
    if |packets| == 1 || packets[1].ssrc != packets[0].ssrc then 1 else 1 + RunLength(packets[1..])
  }

  /** The maximal runs of one stream, as `Create` and `BlockLength` cut the list. */
  function Groups(packets: seq<PacketInfo>): (g: seq<seq<PacketInfo>>)
    ensures forall i :: 0 <= i < |g| ==> g[i] != []
  {
    if packets == [] then []
    else
      var n := RunLength(packets);
      [packets[..n]] + Groups(packets[n..])
  }

  function Infos(group: seq<PacketInfo>): (r: seq<U16>)
    ensures |r| == |group|
    ensures forall i :: 0 <= i < |r| ==> r[i] == InfoOf(group[i])
  {
    seq(|group|, i requires 0 <= i < |group| => InfoOf(group[i]))
  }

  /** `write_report_for_ssrc`: the count is cut to 16 bits, and a block of more than 16384
      reports ends after its first sequence number. */
  function GroupBytes(group: seq<PacketInfo>): seq<Byte>
    requires group != []
  {
    var count := Wrap(|group|);
    if count > MAX_REPORTS then Be32(group[0].ssrc) + Be16(group[0].sequenceNumber)
    else RunHead(group[0].ssrc, group[0].sequenceNumber, count) + InfoBytes(Infos(group)) +
         (if count % 2 != 0 then Be16(0) else [])
  }

  function Body(groups: seq<seq<PacketInfo>>): seq<Byte>
    requires forall i :: 0 <= i < |groups| ==> groups[i] != []
  {
    if groups == [] then [] else GroupBytes(groups[0]) + Body(groups[1..])
  }

  /** `increase_size_per_ssrc`. */
  function RunSize(count: nat): nat {
    8 + 2 * count + if count % 2 != 0 then 2 else 0
  }

  /** The size `BlockLength` counts for a group, from its first and last sequence number. */
  function GroupSize(group: seq<PacketInfo>): nat
    requires group != []
  {
    RunSize(Wrap(group[|group| - 1].sequenceNumber - group[0].sequenceNumber + 1))
  }

  function GroupsSize(groups: seq<seq<PacketInfo>>): nat
    requires forall i :: 0 <= i < |groups| ==> groups[i] != []
  {
    if groups == [] then 0 else GroupSize(groups[0]) + GroupsSize(groups[1..])
  }

  /** What the constructor demands of every stream's packets: consecutive numbers. */
  predicate Contiguous(group: seq<PacketInfo>) {
    forall i :: 0 <= i < |group| ==> group[i].ssrc == group[0].ssrc &&
                                     group[i].sequenceNumber == Wrap(group[0].sequenceNumber + i)
  }

  predicate AllContiguous(groups: seq<seq<PacketInfo>>) {
    forall i :: 0 <= i < |groups| ==> groups[i] != [] && Contiguous(groups[i])
  }

  predicate AllWithin(groups: seq<seq<PacketInfo>>, max: nat) {
    forall i :: 0 <= i < |groups| ==> |groups[i]| <= max
  }

  /** A stream whose reports are all written although only their number cut to 16 bits is
      counted. */
  predicate Overruns(group: seq<PacketInfo>) {
    |group| >= MODULUS && Wrap(|group|) <= MAX_REPORTS
  }

  /** The bytes written for a stream of `n` reports beyond those counted for it; negative for a
      block that is broken off. */
  function Excess(n: nat): int {
    if Wrap(n) > MAX_REPORTS then 6 - RunSize(Wrap(n)) else 2 * (n - Wrap(n))
  }

  function TotalExcess(groups: seq<seq<PacketInfo>>): int {
    if groups == [] then 0 else Excess(|groups[0]|) + TotalExcess(groups[1..])
  }

  /** For one stream of any length, the bytes written equal the size counted exactly up to 16384
      reports, and are within it exactly if the stream does not overrun. */
  lemma GroupMatchesIff(group: seq<PacketInfo>)
    requires group != [] && Contiguous(group)
    ensures |GroupBytes(group)| == GroupSize(group) + Excess(|group|)
    ensures |GroupBytes(group)| == GroupSize(group) <==> |group| <= MAX_REPORTS
    ensures |GroupBytes(group)| <= GroupSize(group) <==> !Overruns(group)
  {
    var n := |group|;
    assert group[n - 1].sequenceNumber == Wrap(group[0].sequenceNumber + (n - 1));
    WrapOfSpan(group[0].sequenceNumber, n);
    assert GroupSize(group) == RunSize(Wrap(n));
    assert |GroupBytes(group)| == if Wrap(n) > MAX_REPORTS then 6 else 8 + 2 * n + if Wrap(n) % 2 != 0 then 2 else 0;
    ExcessSign(n);
  }

  lemma ExcessSign(n: nat)
    requires n > 0
    ensures Excess(n) == 0 <==> n <= MAX_REPORTS
    ensures Excess(n) > 0 <==> n >= MODULUS && Wrap(n) <= MAX_REPORTS
  {
    assert n < MODULUS ==> Wrap(n) == n;
    assert n >= MODULUS ==> Wrap(n) < n;
  }

  lemma WrapOfSpan(first: Seq16, n: nat)
    requires n > 0
    ensures Wrap(Wrap(first + (n - 1)) - first + 1) == Wrap(n)
  {
  }

  /** For every list, what Create writes for the streams exceeds what BlockLength counts by the
      total excess; if no stream overruns it is never more, and the same exactly if no stream has
      more than 16384 reports. */
  lemma {:induction false} BodyMatchesIff(groups: seq<seq<PacketInfo>>)
    requires AllContiguous(groups)
    ensures |Body(groups)| == GroupsSize(groups) + TotalExcess(groups)
    ensures (forall i :: 0 <= i < |groups| ==> !Overruns(groups[i])) ==>
              |Body(groups)| <= GroupsSize(groups) &&
              (|Body(groups)| == GroupsSize(groups) <==> AllWithin(groups, MAX_REPORTS))
  {
    hide GroupBytes, GroupSize, Contiguous, Excess, Overruns;
    if groups != [] {
      GroupMatchesIff(groups[0]);
      BodyMatchesIff(groups[1..]);
      AllWithinTail(groups, MAX_REPORTS);
    }
  }

  lemma AllWithinTail(groups: seq<seq<PacketInfo>>, max: nat)
    requires groups != []
    ensures AllWithin(groups, max) <==> |groups[0]| <= max && AllWithin(groups[1..], max)
  {
    if |groups[0]| <= max && AllWithin(groups[1..], max) {
      forall i | 0 <= i < |groups|
        ensures |groups[i]| <= max
      {
        assert i == 0 || groups[i] == groups[1..][i - 1];
      }
    }
  }

  // ---------------------------------------------------------------------------
  // The round trip

  function RunOf(group: seq<PacketInfo>): Run
    requires group != []
  {
    Run(group[0].ssrc, group[0].sequenceNumber, Infos(group), if |group| % 2 != 0 then Be16(0) else [])
  }

  function RunsOf(groups: seq<seq<PacketInfo>>): (r: seq<Run>)
    requires forall i :: 0 <= i < |groups| ==> groups[i] != []
    ensures |r| == |groups| && forall i :: 0 <= i < |r| ==> r[i] == RunOf(groups[i])
  {
    seq(|groups|, i requires 0 <= i < |groups| => RunOf(groups[i]))
  }

  function DeliveredAll(packets: seq<PacketInfo>): (r: seq<PacketInfo>)
    ensures |r| == |packets| && forall i :: 0 <= i < |r| ==> r[i] == Delivered(packets[i])
  {
    seq(|packets|, i requires 0 <= i < |packets| => Delivered(packets[i]))
  }

  lemma {:induction false} BodyIsRuns(groups: seq<seq<PacketInfo>>)
    requires (forall i :: 0 <= i < |groups| ==> groups[i] != []) && AllWithin(groups, MAX_REPORTS)
    ensures Acceptable(RunsOf(groups)) && Body(groups) == RunsBytes(RunsOf(groups))
  {
    if groups != [] {
      BodyIsRuns(groups[1..]);
      var runs := RunsOf(groups);
      assert runs[1..] == RunsOf(groups[1..]);
      assert Wrap(|groups[0]|) == |groups[0]|;
      assert GroupBytes(groups[0]) == RunBytes(runs[0]);
    }
  }

  lemma GroupDelivered(group: seq<PacketInfo>)
    requires group != [] && Contiguous(group)
    ensures RunPackets(RunOf(group)) == DeliveredAll(group)
  {
  }

  lemma DeliveredSplit(packets: seq<PacketInfo>, n: nat)
    requires n <= |packets|
    ensures DeliveredAll(packets) == DeliveredAll(packets[..n]) + DeliveredAll(packets[n..])
  {
  }

  lemma {:induction false} GroupsDelivered(packets: seq<PacketInfo>)
    requires AllContiguous(Groups(packets))
    ensures RunsPackets(RunsOf(Groups(packets))) == DeliveredAll(packets)
    decreases |packets|
  {
    hide Delivered, Contiguous, RunOf, RunPackets, DeliveredAll;
    if packets != [] {
      var n := RunLength(packets);
      var groups := Groups(packets);
      assert groups[1..] == Groups(packets[n..]);
      GroupsDelivered(packets[n..]);
      GroupDelivered(groups[0]);
      assert RunsOf(groups)[1..] == RunsOf(groups[1..]);
      DeliveredSplit(packets, n);
    }
  }

  /** Behind any prefix, reading what was written gives the delivered packets: the same
      streams and numbers in the same order. */
  lemma BodyRoundTrip(prefix: seq<Byte>, packets: seq<PacketInfo>)
    requires AllContiguous(Groups(packets)) && AllWithin(Groups(packets), MAX_REPORTS)
    ensures var b := prefix + Body(Groups(packets));
            ReadRuns(b, |prefix|).ok &&
            RunsPackets(ReadRuns(b, |prefix|).runs) == DeliveredAll(packets)
  {
    hide Body, RunsBytes, ReadRuns, Acceptable, RunsPackets;
    BodyIsRuns(Groups(packets));
    ReadInvertsRuns(prefix, RunsOf(Groups(packets)));
    GroupsDelivered(packets);
  }

  // ---------------------------------------------------------------------------
  // Batches of several streams

  function Concat(batches: seq<seq<PacketInfo>>): seq<PacketInfo> {
    if batches == [] then [] else batches[0] + Concat(batches[1..])
  }

  /** No two batches are of one stream, as the generator asks one tracker per SSRC. */
  predicate OnePerStream(batches: seq<seq<PacketInfo>>)
    requires forall i :: 0 <= i < |batches| ==> batches[i] != []
  {
    forall i, j :: 0 <= i < j < |batches| ==> batches[i][0].ssrc != batches[j][0].ssrc
  }

  lemma {:induction false} RunLengthOfBatch(batch: seq<PacketInfo>, rest: seq<PacketInfo>)
    requires batch != [] && (forall i :: 0 <= i < |batch| ==> batch[i].ssrc == batch[0].ssrc)
    requires rest != [] ==> rest[0].ssrc != batch[0].ssrc
    ensures RunLength(batch + rest) == |batch|
  {
    var all := batch + rest;
    if |batch| == 1 {
      assert rest != [] ==> all[1] == rest[0];
    } else {
      assert all[1..] == batch[1..] + rest;
      RunLengthOfBatch(batch[1..], rest);
    }
  }

  /** Cutting the concatenated batches by stream gives back the batches. */
  lemma {:induction false} GroupsOfBatches(batches: seq<seq<PacketInfo>>)
    requires AllContiguous(batches) && OnePerStream(batches)
    ensures Groups(Concat(batches)) == batches
  {
    if batches != [] {
      var batch, rest := batches[0], Concat(batches[1..]);
      if rest != [] {
        assert rest == batches[1] + Concat(batches[1..][1..]);
      }
      RunLengthOfBatch(batch, rest);
      GroupsOfBatches(batches[1..]);
      assert (batch + rest)[..|batch|] == batch && (batch + rest)[|batch|..] == rest;
    }
  }
}
