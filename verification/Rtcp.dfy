/**
 Big-endian fields and the common header of RTCP packets (RFC 3550, section 6.4.1),
 as byte_io.h, rtcp_packet.cpp and rtcp_common_header.cpp write and read them.
 */
module Rtcp {
  import opened Options

  type Byte = b: int | 0 <= b < 256
  type U16 = x: int | 0 <= x < 0x1_0000
  type U32 = x: int | 0 <= x < 0x1_0000_0000

  // ---------------------------------------------------------------------------
  // Values to bytes and back

  /** `ByteWriter<uint16_t>::WriteBigEndian`. */
  function Be16(x: U16): (r: seq<Byte>)
    ensures |r| == 2
  {
    [x / 256, x % 256]
  }

  /** `ByteWriter<uint32_t>::WriteBigEndian`. */
  function Be32(x: U32): (r: seq<Byte>)
    ensures |r| == 4
  {
    Be16(x / 0x1_0000) + Be16(x % 0x1_0000)
  }

  /** Two bytes in network order. */
  function Word(b: seq<Byte>, i: nat): int
    requires i + 2 <= |b|
  {
    var high: int, low: int := b[i], b[i + 1];
    256 * high + low
  }

  /** `ByteReader<uint16_t>::ReadBigEndian`. */
  function Read16(s: seq<Byte>, at: nat): U16
    requires at + 2 <= |s|
  {
    var high: int, low: int := s[at], s[at + 1];
    high * 256 + low
  }

  /** `ByteReader<uint32_t>::ReadBigEndian`. */
  function Read32(s: seq<Byte>, at: nat): U32
    requires at + 4 <= |s|
  {
    var high: int, low: int := Read16(s, at), Read16(s, at + 2);
    high * 0x1_0000 + low
  }

  lemma Read16Be16(prefix: seq<Byte>, x: U16, suffix: seq<Byte>)
    ensures Read16(prefix + Be16(x) + suffix, |prefix|) == x
  {
    var s := prefix + Be16(x) + suffix;
    assert s[|prefix|] == Be16(x)[0] && s[|prefix| + 1] == Be16(x)[1];
  }

  lemma Read32Be32(prefix: seq<Byte>, x: U32, suffix: seq<Byte>)
    ensures Read32(prefix + Be32(x) + suffix, |prefix|) == x
  {
    var s, high, low := prefix + Be32(x) + suffix, Be16(x / 0x1_0000), Be16(x % 0x1_0000);
    assert s == prefix + high + (low + suffix);
    Read16Be16(prefix, x / 0x1_0000, low + suffix);
    assert s == (prefix + high) + low + suffix;
    Read16Be16(prefix + high, x % 0x1_0000, suffix);
  }

  /** The other round trip: writing back what was read. */
  lemma Be16Read16(s: seq<Byte>, at: nat)
    requires at + 2 <= |s|
    ensures Be16(Read16(s, at)) == s[at..at + 2]
  {
  }

  // ---------------------------------------------------------------------------
  // Writing into a buffer

  method WriteBigEndian16(buffer: array<Byte>, at: nat, x: U16)
    requires at + 2 <= buffer.Length
    modifies buffer
    ensures buffer[..] == old(buffer[..at]) + Be16(x) + old(buffer[at + 2..])
  {
    buffer[at] := x / 256;
    buffer[at + 1] := x % 256;
  }

  method WriteBigEndian32(buffer: array<Byte>, at: nat, x: U32)
    requires at + 4 <= buffer.Length
    modifies buffer
    ensures buffer[..] == old(buffer[..at]) + Be32(x) + old(buffer[at + 4..])
  {
    WriteBigEndian16(buffer, at, x / 0x1_0000);
    WriteBigEndian16(buffer, at + 2, x % 0x1_0000);
  }

  // ---------------------------------------------------------------------------
  // The common header

  const HEADER_LENGTH := 4
  const RTPFB_PACKET_TYPE: Byte := 205

  /** `RtcpPacket::CreateHeader` without padding: version 2, the format, the type and the
      length in words without the header. */
  function Header(format: int, packetType: Byte, words: U16): (r: seq<Byte>)
    requires 0 <= format < 32
    ensures |r| == HEADER_LENGTH
  {
    [128 + format, packetType] + Be16(words)
  }

  method CreateHeader(format: int, packetType: Byte, words: U16, buffer: array<Byte>, pos: nat)
    requires 0 <= format < 32 && pos + HEADER_LENGTH <= buffer.Length
    modifies buffer
    ensures buffer[..] == old(buffer[..pos]) + Header(format, packetType, words) + old(buffer[pos + 4..])
  {
    buffer[pos] := 128 + format;
    buffer[pos + 1] := packetType;
    buffer[pos + 2] := words / 256;
    buffer[pos + 3] := words % 256;
  }

  datatype Parsed = Parsed(format: int, packetType: Byte, payload: seq<Byte>, packetSize: nat)

  /** `RtcpCommonHeader::Parse`. */
  function ParseHeader(b: seq<Byte>): Option<Parsed> {
    if |b| < HEADER_LENGTH || b[0] / 64 != 2 then None
    else
      var size := Read16(b, 2) * 4;
      if |b| < HEADER_LENGTH + size then None
      else
        var payload := b[HEADER_LENGTH..HEADER_LENGTH + size];
        if b[0] / 32 % 2 == 0 then Some(Parsed(b[0] % 32, b[1], payload, HEADER_LENGTH + size))
        else if size == 0 then None
        else
          var padding := payload[size - 1];
          if padding == 0 || padding > size then None
          else Some(Parsed(b[0] % 32, b[1], payload[..size - padding], HEADER_LENGTH + size))
  }

  /** Parsing finds the header that was written, and leaves what follows the packet. */
  lemma ParseInvertsHeader(format: int, packetType: Byte, payload: seq<Byte>, rest: seq<Byte>)
    requires 0 <= format < 32 && |payload| % 4 == 0 && |payload| / 4 < 0x1_0000
    ensures ParseHeader(Header(format, packetType, |payload| / 4) + payload + rest) ==
            Some(Parsed(format, packetType, payload, HEADER_LENGTH + |payload|))
  {
    var h := Header(format, packetType, |payload| / 4);
    var b := h + payload + rest;
    assert b[0] == h[0] && b[1] == h[1] && b[2] == h[2] && b[3] == h[3];
    assert Read16(b, 2) == |payload| / 4;
    assert b[HEADER_LENGTH..HEADER_LENGTH + |payload|] == payload;
  }
}
