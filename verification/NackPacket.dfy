/**
 The RTCP NACK packet: serialisation with fragmentation over datagrams, parsing, and
 the end-to-end round trip of a list of sequence numbers.
 */
module NackPacket {
  import opened Options
  import opened SeqNum
  import opened Rtcp
  import opened NackPacking

  const NACK_FORMAT := 1
  const COMMON_FEEDBACK_LENGTH := 8
  const NACK_ITEM_LENGTH := 4
  const NACK_HEADER_LENGTH := 12

  // ---------------------------------------------------------------------------
  // Bytes of one packet

  function ItemBytes(items: seq<Item>): (r: seq<Byte>)
    ensures |r| == NACK_ITEM_LENGTH * |items|
  {
    if items == [] then [] else Be16(items[0].firstPid) + Be16(items[0].bitmask) + ItemBytes(items[1..])
  }

  /** The payload behind the common header. */
  function Payload(sender: U32, media: U32, items: seq<Item>): (r: seq<Byte>)
    ensures |r| == COMMON_FEEDBACK_LENGTH + NACK_ITEM_LENGTH * |items|
  {
    Be32(sender) + Be32(media) + ItemBytes(items)
  }

  /** One complete NACK packet. */
  function Block(sender: U32, media: U32, items: seq<Item>): (r: seq<Byte>)
    ensures |r| == NACK_HEADER_LENGTH + NACK_ITEM_LENGTH * |items|
  {
    Header(NACK_FORMAT, RTPFB_PACKET_TYPE, Wrap(2 + |items|)) + Payload(sender, media, items)
  }

  /** The layout of a packet in section 6.2.1 of RFC 4585: version 2 with format 1, packet type 205, the
      length in words less one, both SSRCs, and for each item the packet id and the bit mask. */
  lemma BlockLayout(sender: U32, media: U32, items: seq<Item>)
    requires |items| < 65534
    ensures var b := Block(sender, media, items);
            b[0] == 0x81 && b[1] == 205 && 4 * (Word(b, 2) + 1) == |b| &&
            65536 * Word(b, 4) + Word(b, 6) == sender && 65536 * Word(b, 8) + Word(b, 10) == media &&
            forall i :: 0 <= i < |items| ==>
              Word(b, 12 + 4 * i) == items[i].firstPid && Word(b, 14 + 4 * i) == items[i].bitmask
  {
    var h, s, m, rest := Header(NACK_FORMAT, RTPFB_PACKET_TYPE, 2 + |items|), Be32(sender), Be32(media), ItemBytes(items);
    var b := Block(sender, media, items);
    assert b == h + (s + m + rest);
    assert Word(b, 2) == Word(h, 2) && Word(b, 4) == Word(s, 0) && Word(b, 6) == Word(s, 2);
    assert Word(b, 8) == Word(m, 0) && Word(b, 10) == Word(m, 2);
    ItemsLayout(items);
    forall i | 0 <= i < |items|
      ensures Word(b, 12 + 4 * i) == items[i].firstPid && Word(b, 14 + 4 * i) == items[i].bitmask
    {
      assert Word(b, 12 + 4 * i) == Word(rest, 4 * i) && Word(b, 14 + 4 * i) == Word(rest, 4 * i + 2);
    }
  }

  lemma {:induction false} ItemsLayout(items: seq<Item>)
    ensures forall i :: 0 <= i < |items| ==>
              Word(ItemBytes(items), 4 * i) == items[i].firstPid && Word(ItemBytes(items), 4 * i + 2) == items[i].bitmask
  {
    if items != [] {
      ItemsLayout(items[1..]);
      var b, rest := ItemBytes(items), ItemBytes(items[1..]);
      forall i | 0 <= i < |items|
        ensures Word(b, 4 * i) == items[i].firstPid && Word(b, 4 * i + 2) == items[i].bitmask
      {
        if i > 0 {
          assert Word(b, 4 * i) == Word(rest, 4 * (i - 1)) && Word(b, 4 * i + 2) == Word(rest, 4 * (i - 1) + 2);
        }
      }
    }
  }

  /** What `Parse` reads from a payload: sender, media source and items. Bytes behind the
      last whole item are ignored. */
  function ReadItems(payload: seq<Byte>, at: nat): seq<Item>
    decreases |payload| - at
  {
    if at + NACK_ITEM_LENGTH > |payload| then []
    else [Item(Read16(payload, at), Read16(payload, at + 2))] + ReadItems(payload, at + NACK_ITEM_LENGTH)
  }

  lemma {:induction false} ReadInvertsItemBytes(prefix: seq<Byte>, items: seq<Item>)
    ensures ReadItems(prefix + ItemBytes(items), |prefix|) == items
    decreases |items|
  {
    var payload := prefix + ItemBytes(items);
    if items != [] {
      var pid, blp, rest := Be16(items[0].firstPid), Be16(items[0].bitmask), ItemBytes(items[1..]);
      assert payload == prefix + pid + (blp + rest);
      Read16Be16(prefix, items[0].firstPid, blp + rest);
      assert payload == (prefix + pid) + blp + rest;
      Read16Be16(prefix + pid, items[0].bitmask, rest);
      assert payload == (prefix + pid + blp) + rest;
      ReadInvertsItemBytes(prefix + pid + blp, items[1..]);
    }
  }

  lemma ReadInvertsPayload(sender: U32, media: U32, items: seq<Item>)
    ensures var payload := Payload(sender, media, items);
            Read32(payload, 0) == sender && Read32(payload, 4) == media &&
            ReadItems(payload, COMMON_FEEDBACK_LENGTH) == items
  {
    var payload, s, m, rest := Payload(sender, media, items), Be32(sender), Be32(media), ItemBytes(items);
    assert payload == [] + s + (m + rest);
    Read32Be32([], sender, m + rest);
    assert payload == s + m + rest;
    Read32Be32(s, media, rest);
    ReadInvertsItemBytes(s + m, items);
  }

  // ---------------------------------------------------------------------------
  // Serialisation over datagrams

  /** The result of `Create`: success, the datagrams handed to the callback, and what is
      in the buffer at the end. */
  datatype Serialized = Serialized(ok: bool, flushed: seq<seq<Byte>>, buffer: seq<Byte>)

  /** How many items the next packet takes. */
  function Fitting(used: nat, max: nat, count: nat): (n: nat)
    requires used + NACK_HEADER_LENGTH + NACK_ITEM_LENGTH <= max && count > 0
    ensures 1 <= n <= count && used + NACK_HEADER_LENGTH + NACK_ITEM_LENGTH * n <= max
  {
    var room := (max - used - NACK_HEADER_LENGTH) / NACK_ITEM_LENGTH;
    if room < count then room else count
  }

  function Serialize(items: seq<Item>, current: seq<Byte>, max: nat, sender: U32, media: U32): Serialized
    requires |current| <= max
    decreases |items|, |current|
  {
    if items == [] then Serialized(true, [], current)
    else if max - |current| < NACK_HEADER_LENGTH + NACK_ITEM_LENGTH then
      if |current| == 0 then Serialized(false, [], current)
      else
        var r := Serialize(items, [], max, sender, media);
        r.(flushed := [current] + r.flushed)
    else
      var n := Fitting(|current|, max, |items|);
      Serialize(items[n..], current + Block(sender, media, items[..n]), max, sender, media)
  }

  function Join(parts: seq<seq<Byte>>): seq<Byte> {
    if parts == [] then [] else parts[0] + Join(parts[1..])
  }

  /** Consecutive packets. */
  function Blocks(sender: U32, media: U32, fragments: seq<seq<Item>>): seq<Byte> {
    if fragments == [] then []
    else Block(sender, media, fragments[0]) + Blocks(sender, media, fragments[1..])
  }

  function Flatten(fragments: seq<seq<Item>>): seq<Item> {
    if fragments == [] then [] else fragments[0] + Flatten(fragments[1..])
  }

  /** The fragments `Serialize` makes. */
  function Fragments(items: seq<Item>, used: nat, max: nat): seq<seq<Item>>
    requires used <= max
    decreases |items|, used
  {
    if items == [] then []
    else if max - used < NACK_HEADER_LENGTH + NACK_ITEM_LENGTH then
      if used == 0 then [] else Fragments(items, 0, max)
    else
      var n := Fitting(used, max, |items|);
      [items[..n]] + Fragments(items[n..], used + NACK_HEADER_LENGTH + NACK_ITEM_LENGTH * n, max)
  }

  /** Serialisation succeeds exactly when there is nothing to write or one item fits an
      empty buffer, and every datagram is within the limit. */
  lemma {:induction false} SerializeWithinLimit(items: seq<Item>, current: seq<Byte>, max: nat, sender: U32, media: U32)
    requires |current| <= max
    ensures var r := Serialize(items, current, max, sender, media);
            (r.ok <==> items == [] || max >= NACK_HEADER_LENGTH + NACK_ITEM_LENGTH) &&
            |r.buffer| <= max && (forall i :: 0 <= i < |r.flushed| ==> |r.flushed[i]| <= max)
    decreases |items|, |current|
  {
    hide Block;
    if items != [] {
      if max - |current| < NACK_HEADER_LENGTH + NACK_ITEM_LENGTH {
        if |current| != 0 {
          SerializeWithinLimit(items, [], max, sender, media);
        }
      } else {
        var n := Fitting(|current|, max, |items|);
        SerializeWithinLimit(items[n..], current + Block(sender, media, items[..n]), max, sender, media);
      }
    }
  }

  /** The wire carries, behind what the buffer held, one packet per fragment, .. */
  lemma {:induction false} SerializeWrites(items: seq<Item>, current: seq<Byte>, max: nat, sender: U32, media: U32)
    requires |current| <= max
    ensures var r := Serialize(items, current, max, sender, media);
            r.ok ==> Join(r.flushed) + r.buffer == current + Blocks(sender, media, Fragments(items, |current|, max))
    decreases |items|, |current|
  {
    hide Block, Join, Blocks;
    if items == [] {
      EmptyWire(current, sender, media);
    } else if max - |current| < NACK_HEADER_LENGTH + NACK_ITEM_LENGTH {
      if |current| != 0 {
        SerializeWrites(items, [], max, sender, media);
        var r := Serialize(items, [], max, sender, media);
        JoinStep(current, r.flushed, r.buffer, Blocks(sender, media, Fragments(items, 0, max)));
      }
    } else {
      var n := Fitting(|current|, max, |items|);
      var next := current + Block(sender, media, items[..n]);
      SerializeWrites(items[n..], next, max, sender, media);
      var r := Serialize(items[n..], next, max, sender, media);
      assert Serialize(items, current, max, sender, media) == r;
      var rest := Fragments(items[n..], |next|, max);
      assert Fragments(items, |current|, max) == [items[..n]] + rest;
      BlocksStep(sender, media, items[..n], rest);
      if r.ok {
        PrefixStep(Join(r.flushed) + r.buffer, current, Block(sender, media, items[..n]), Blocks(sender, media, rest));
      }
    }
  }

  lemma PrefixStep(wire: seq<Byte>, current: seq<Byte>, block: seq<Byte>, blocks: seq<Byte>)
    requires wire == (current + block) + blocks
    ensures wire == current + (block + blocks)
  {
  }

  lemma EmptyWire(current: seq<Byte>, sender: U32, media: U32)
    ensures Join([]) + current == current + Blocks(sender, media, [])
  {
  }

  lemma JoinStep(current: seq<Byte>, flushed: seq<seq<Byte>>, buffer: seq<Byte>, blocks: seq<Byte>)
    ensures Join(flushed) + buffer == [] + blocks ==> Join([current] + flushed) + buffer == current + blocks
  {
    assert ([current] + flushed)[1..] == flushed;
    assert (current + Join(flushed)) + buffer == current + (Join(flushed) + buffer);
  }

  lemma BlocksStep(sender: U32, media: U32, fragment: seq<Item>, rest: seq<seq<Item>>)
    ensures Blocks(sender, media, [fragment] + rest) == Block(sender, media, fragment) + Blocks(sender, media, rest)
    ensures Flatten([fragment] + rest) == fragment + Flatten(rest)
  {
    assert ([fragment] + rest)[1..] == rest;
  }

  /** .. and the fragments make up the item list. */
  lemma {:induction false} FragmentsMakeUp(items: seq<Item>, used: nat, max: nat)
    requires used <= max && max >= NACK_HEADER_LENGTH + NACK_ITEM_LENGTH
    ensures Flatten(Fragments(items, used, max)) == items
    decreases |items|, used
  {
    if items != [] {
      if max - used < NACK_HEADER_LENGTH + NACK_ITEM_LENGTH {
        FragmentsMakeUp(items, 0, max);
      } else {
        var n := Fitting(used, max, |items|);
        var rest := Fragments(items[n..], used + NACK_HEADER_LENGTH + NACK_ITEM_LENGTH * n, max);
        FragmentsMakeUp(items[n..], used + NACK_HEADER_LENGTH + NACK_ITEM_LENGTH * n, max);
        BlocksStep(0, 0, items[..n], rest);
        assert items[..n] + items[n..] == items;
      }
    }
  }

  // ---------------------------------------------------------------------------
  // Reading the wire back

  /** The lists of sequence numbers of consecutive NACK packets: header by header as
      `RtcpCommonHeader::Parse`, payload by payload as `Nack::Parse`. */
  function ReadAll(wire: seq<Byte>): Option<seq<Seq16>>
    decreases |wire|
  {
    if wire == [] then Some([])
    else
      match ParseHeader(wire)
      case None => None
      case Some(h) =>
        if h.format != NACK_FORMAT || h.packetType != RTPFB_PACKET_TYPE ||
           |h.payload| < COMMON_FEEDBACK_LENGTH + NACK_ITEM_LENGTH || h.packetSize > |wire| || h.packetSize == 0
        then None
        else
          match ReadAll(wire[h.packetSize..])
          case None => None
          case Some(ids) => Some(Unpack(ReadItems(h.payload, COMMON_FEEDBACK_LENGTH)) + ids)
  }

  /** Every fragment has at least one item and its length fits the header field. */
  predicate WellSized(fragments: seq<seq<Item>>) {
    forall i :: 0 <= i < |fragments| ==> 1 <= |fragments[i]| && 2 + |fragments[i]| < MODULUS
  }

  lemma {:induction false} FragmentsWellSized(items: seq<Item>, used: nat, max: nat)
    requires used <= max < NACK_ITEM_LENGTH * MODULUS
    ensures WellSized(Fragments(items, used, max))
    decreases |items|, used
  {
    if items != [] {
      if max - used < NACK_HEADER_LENGTH + NACK_ITEM_LENGTH {
        if used != 0 {
          FragmentsWellSized(items, 0, max);
        }
      } else {
        var n := Fitting(used, max, |items|);
        FragmentsWellSized(items[n..], used + NACK_HEADER_LENGTH + NACK_ITEM_LENGTH * n, max);
      }
    }
  }

  lemma {:induction false} ReadAllInvertsBlocks(sender: U32, media: U32, fragments: seq<seq<Item>>)
    requires WellSized(fragments)
    ensures ReadAll(Blocks(sender, media, fragments)) == Some(Unpack(Flatten(fragments)))
    decreases |fragments|
  {
    if fragments != [] {
      var payload, rest := Payload(sender, media, fragments[0]), Blocks(sender, media, fragments[1..]);
      var wire := Blocks(sender, media, fragments);
      assert |payload| == 4 * (2 + |fragments[0]|);
      assert wire == Header(NACK_FORMAT, RTPFB_PACKET_TYPE, |payload| / 4) + payload + rest;
      ParseInvertsHeader(NACK_FORMAT, RTPFB_PACKET_TYPE, payload, rest);
      assert wire[HEADER_LENGTH + |payload|..] == rest;
      ReadInvertsPayload(sender, media, fragments[0]);
      ReadAllInvertsBlocks(sender, media, fragments[1..]);
      UnpackAppend(fragments[0], Flatten(fragments[1..]));
    }
  }

  /** End to end: what the receiver of all datagrams reads is the unpacked packing of the
      list that was sent; the same set for every list, and the list itself in forward
      order. */
  lemma WireRoundTrip(ids: seq<Seq16>, max: nat, sender: U32, media: U32)
    requires NACK_HEADER_LENGTH + NACK_ITEM_LENGTH <= max < NACK_ITEM_LENGTH * MODULUS
    ensures var r := Serialize(Pack(ids), [], max, sender, media);
            r.ok && ReadAll(Join(r.flushed) + r.buffer).Some? &&
            (forall x :: x in ReadAll(Join(r.flushed) + r.buffer).value <==> x in ids) &&
            (Forward(ids) ==> ReadAll(Join(r.flushed) + r.buffer).value == ids)
  {
    hide Pack, Fragments, Serialize;
    SerializeWithinLimit(Pack(ids), [], max, sender, media);
    SerializeWrites(Pack(ids), [], max, sender, media);
    FragmentsMakeUp(Pack(ids), 0, max);
    FragmentsWellSized(Pack(ids), 0, max);
    var fragments := Fragments(Pack(ids), 0, max);
    assert [] + Blocks(sender, media, fragments) == Blocks(sender, media, fragments);
    ReadAllInvertsBlocks(sender, media, fragments);
    forall x: Seq16
      ensures x in Unpack(Pack(ids)) <==> x in ids
    {
      RoundTripSet(ids, x);
    }
    if Forward(ids) {
      RoundTripList(ids);
    }
  }

  lemma Gather(a: seq<Byte>, b: seq<Byte>, c: seq<Byte>, d: seq<Byte>, e: seq<Byte>)
    ensures a + b + c + d + e == a + (b + (c + d + e))
  {
  }

  // ---------------------------------------------------------------------------
  // The packet object

  class Nack {
    var senderSsrc: U32
    var mediaSsrc: U32
    var packetIds: seq<Seq16>
    var packed: seq<Item>

    constructor (senderSsrc: U32, mediaSsrc: U32)
      ensures this.senderSsrc == senderSsrc && this.mediaSsrc == mediaSsrc
      ensures packetIds == [] && packed == []
    {
      this.senderSsrc, this.mediaSsrc := senderSsrc, mediaSsrc;
      packetIds, packed := [], [];
    }

    method SetPacketIds(nackList: seq<Seq16>)
      modifies this`packetIds, this`packed
      ensures packetIds == nackList && packed == old(packed) + NackPacking.Pack(nackList)
    {
      packetIds := nackList;
      Pack();
    }

    method Pack()
      modifies this`packed
      ensures packed == old(packed) + NackPacking.Pack(packetIds)
    {
      hide Absorb;
      var it := 0;
      while it != |packetIds|
        invariant 0 <= it <= |packetIds|
        invariant packed + NackPacking.Pack(packetIds[it..]) == old(packed) + NackPacking.Pack(packetIds)
        decreases |packetIds| - it
      {
        ghost var rest, before := packetIds[it..], packed;
        var item;
        item, it := PackItem(it);
        packed := packed + [item];
        assert NackPacking.Pack(rest) == [item] + NackPacking.Pack(packetIds[it..]);
        assert before + ([item] + NackPacking.Pack(packetIds[it..])) == packed + NackPacking.Pack(packetIds[it..]);
      }
      assert packetIds[it..] == [];
    }

    /** One item and the position behind the numbers it takes. */
    method PackItem(start: nat) returns (item: Item, it: nat)
      requires start < |packetIds|
      ensures start < it <= |packetIds|
      ensures (item.bitmask, packetIds[it..]) == Absorb(packetIds[start], 0, packetIds[start + 1..])
      ensures item.firstPid == packetIds[start]
      ensures packetIds[start..][1..] == packetIds[start + 1..]
    {
      hide SetBit;
      var first := packetIds[start];
      it := start + 1;
      var bitmask: Seq16 := 0;
      while it != |packetIds| && Shift(first, packetIds[it]) <= 15
        invariant start < it <= |packetIds|
        invariant Absorb(first, bitmask, packetIds[it..]) == Absorb(first, 0, packetIds[start + 1..])
        decreases |packetIds| - it
      {
        var shift := Shift(first, packetIds[it]);
        SetBit16(bitmask, shift);
        assert packetIds[it..][1..] == packetIds[it + 1..];
        bitmask := SetBit(bitmask, shift);
        it := it + 1;
      }
      item := Item(first, bitmask);
    }

    method Unpack()
      modifies this`packetIds
      ensures packetIds == old(packetIds) + NackPacking.Unpack(packed)
    {
      hide UnpackItem;
      var i := 0;
      while i < |packed|
        invariant 0 <= i <= |packed|
        invariant packetIds + NackPacking.Unpack(packed[i..]) == old(packetIds) + NackPacking.Unpack(packed)
      {
        ghost var before := packetIds;
        UnpackOne(packed[i]);
        assert packed[i..][1..] == packed[i + 1..];
        assert before + (UnpackItem(packed[i]) + NackPacking.Unpack(packed[i + 1..])) ==
               packetIds + NackPacking.Unpack(packed[i + 1..]);
        i := i + 1;
      }
      assert packed[i..] == [];
    }

    method UnpackOne(item: Item)
      modifies this`packetIds
      ensures packetIds == old(packetIds) + UnpackItem(item)
    {
      packetIds := packetIds + [item.firstPid];
      var pid, bitmask := Offset(item.firstPid, 1), item.bitmask;
      while bitmask != 0
        invariant packetIds + Bits(bitmask, pid) == old(packetIds) + UnpackItem(item)
        decreases bitmask
      {
        ghost var so := packetIds;
        if bitmask % 2 == 1 {
          packetIds := packetIds + [pid];
        }
        assert packetIds == so + if bitmask % 2 == 1 then [pid] else [];
        bitmask, pid := bitmask / 2, Offset(pid, 1);
      }
    }

    /** Parse the payload of a packet whose common header has been parsed. */
    method Parse(payload: seq<Byte>) returns (ok: bool)
      modifies this
      ensures ok <==> |payload| >= COMMON_FEEDBACK_LENGTH + NACK_ITEM_LENGTH
      ensures !ok ==> unchanged(this)
      ensures ok ==> senderSsrc == Read32(payload, 0) && mediaSsrc == Read32(payload, 4) &&
                     packed == ReadItems(payload, COMMON_FEEDBACK_LENGTH) &&
                     |packed| == (|payload| - COMMON_FEEDBACK_LENGTH) / NACK_ITEM_LENGTH &&
                     packetIds == NackPacking.Unpack(packed)
    {
      if |payload| < COMMON_FEEDBACK_LENGTH + NACK_ITEM_LENGTH {
        return false;
      }
      var nackItems := (|payload| - COMMON_FEEDBACK_LENGTH) / NACK_ITEM_LENGTH;
      senderSsrc, mediaSsrc := Read32(payload, 0), Read32(payload, 4);
      packetIds, packed := [], [];
      var next, index := COMMON_FEEDBACK_LENGTH, 0;
      while index < nackItems
        invariant 0 <= index <= nackItems && next == COMMON_FEEDBACK_LENGTH + NACK_ITEM_LENGTH * index
        invariant |packed| == index
        invariant packed + ReadItems(payload, next) == ReadItems(payload, COMMON_FEEDBACK_LENGTH)
        invariant packetIds == [] && senderSsrc == Read32(payload, 0) && mediaSsrc == Read32(payload, 4)
      {
        packed := packed + [Item(Read16(payload, next), Read16(payload, next + 2))];
        next, index := next + NACK_ITEM_LENGTH, index + 1;
      }
      assert ReadItems(payload, next) == [];
      Unpack();
      ok := true;
    }

    /** The length of the whole list in one packet. */
    function BlockLength(): (n: nat)
      reads this
      ensures n == |Block(senderSsrc, mediaSsrc, packed)|
    {
      NACK_HEADER_LENGTH + |packed| * NACK_ITEM_LENGTH
    }

    /** Write the packed list behind the first `index` bytes of the buffer, handing full
        buffers over; `flushed` collects what was handed over. */
    method Create(buffer: array<Byte>, index: nat, maxLength: nat)
      returns (ok: bool, end: nat, flushed: seq<seq<Byte>>)
      requires index <= maxLength <= buffer.Length
      modifies buffer
      ensures end <= maxLength
      ensures Serialized(ok, flushed, buffer[..end]) ==
              Serialize(packed, old(buffer[..index]), maxLength, senderSsrc, mediaSsrc)
    {
      hide Block;
      end, flushed, ok := index, [], true;
      var nackIndex := 0;
      while nackIndex < |packed|
        invariant 0 <= nackIndex <= |packed| && end <= maxLength && ok
        invariant var r := Serialize(packed[nackIndex..], buffer[..end], maxLength, senderSsrc, mediaSsrc);
                  r.(flushed := flushed + r.flushed) ==
                  Serialize(packed, old(buffer[..index]), maxLength, senderSsrc, mediaSsrc)
        decreases |packed| - nackIndex, end
      {
        var items := packed[nackIndex..];
        if maxLength - end < NACK_HEADER_LENGTH + NACK_ITEM_LENGTH {
          if end == 0 {
            ok := false;
            return;
          }
          flushed := flushed + [buffer[..end]];
          end := 0;
        } else {
          var n := Fitting(end, maxLength, |items|);
          ghost var before := buffer[..end];
          end := WriteBlock(buffer, end, items[..n]);
          assert buffer[..end] == before + Block(senderSsrc, mediaSsrc, items[..n]);
          assert items[n..] == packed[nackIndex + n..];
          nackIndex := nackIndex + n;
        }
      }
      assert packed[nackIndex..] == [];
    }

    /** Header, common feedback fields and items of one packet. */
    method WriteBlock(buffer: array<Byte>, at: nat, items: seq<Item>) returns (end: nat)
      requires at + NACK_HEADER_LENGTH + NACK_ITEM_LENGTH * |items| <= buffer.Length
      modifies buffer
      ensures end == at + NACK_HEADER_LENGTH + NACK_ITEM_LENGTH * |items|
      ensures buffer[..end] == old(buffer[..at]) + Block(senderSsrc, mediaSsrc, items)
    {
      hide Header, Be32, ItemBytes;
      CreateHeader(NACK_FORMAT, RTPFB_PACKET_TYPE, Wrap(2 + |items|), buffer, at);
      ghost var h := Header(NACK_FORMAT, RTPFB_PACKET_TYPE, Wrap(2 + |items|));
      assert buffer[..at + 4] == old(buffer[..at]) + h;
      WriteBigEndian32(buffer, at + 4, senderSsrc);
      assert buffer[..at + 8] == old(buffer[..at]) + h + Be32(senderSsrc);
      WriteBigEndian32(buffer, at + 8, mediaSsrc);
      end := at + NACK_HEADER_LENGTH;
      assert buffer[..end] == old(buffer[..at]) + h + Be32(senderSsrc) + Be32(mediaSsrc);
      end := WriteItems(buffer, end, items);
      Gather(old(buffer[..at]), h, Be32(senderSsrc), Be32(mediaSsrc), ItemBytes(items));
    }

    static method WriteItems(buffer: array<Byte>, at: nat, items: seq<Item>) returns (end: nat)
      requires at + NACK_ITEM_LENGTH * |items| <= buffer.Length
      modifies buffer
      ensures end == at + NACK_ITEM_LENGTH * |items|
      ensures buffer[..end] == old(buffer[..at]) + ItemBytes(items)
    {
      end := at;
      var i := 0;
      while i < |items|
        invariant 0 <= i <= |items| && end == at + NACK_ITEM_LENGTH * i
        invariant buffer[..end] + ItemBytes(items[i..]) == old(buffer[..at]) + ItemBytes(items)
      {
        ghost var so := buffer[..end];
        var pid, blp := items[i].firstPid, items[i].bitmask;
        WriteBigEndian16(buffer, end, pid);
        assert buffer[..end + 2] == so + Be16(pid);
        WriteBigEndian16(buffer, end + 2, blp);
        assert buffer[..end + 4] == so + Be16(pid) + Be16(blp);
        assert items[i..][1..] == items[i + 1..];
        assert so + (Be16(pid) + Be16(blp) + ItemBytes(items[i + 1..])) ==
               so + Be16(pid) + Be16(blp) + ItemBytes(items[i + 1..]);
        end, i := end + NACK_ITEM_LENGTH, i + 1;
      }
      assert items[i..] == [];
    }
  }
}
