/**
 The generic NACK of RFC 4585, section 6.2.1: packing a list of sequence numbers into
 items of a packet id and a bitmask of the 16 that follow, and unpacking them.

 Packing then unpacking gives the same set of numbers for every list, and the same list
 for lists in forward order. NackMinimal.dfy says when no cover has fewer items.
 */
module NackPacking {
  import opened SeqNum

  /** `PackedNack`. */
  datatype Item = Item(firstPid: Seq16, bitmask: Seq16)

  // ---------------------------------------------------------------------------
  // Bits of a mask, least significant first

  predicate Bit(b: nat, k: nat)
    decreases k
  {
    if k == 0 then b % 2 == 1 else Bit(b / 2, k - 1)
  }

  /** `b | (1 << k)`. */
  function SetBit(b: nat, k: nat): nat
    decreases k
  {
    if k == 0 then (if b % 2 == 1 then b else b + 1) else 2 * SetBit(b / 2, k - 1) + b % 2
  }

  function Pow2(n: nat): (p: nat)
    ensures p > 0
  {
    if n == 0 then 1 else 2 * Pow2(n - 1)
  }

  lemma {:induction false} SetBitSets(b: nat, k: nat, j: nat)
    ensures Bit(SetBit(b, k), j) <==> j == k || Bit(b, j)
    decreases k
  {
    if k > 0 {
      assert SetBit(b, k) / 2 == SetBit(b / 2, k - 1);
      if j > 0 {
        SetBitSets(b / 2, k - 1, j - 1);
      }
    } else if j > 0 {
      assert SetBit(b, 0) / 2 == b / 2;
    }
  }

  lemma {:induction false} SetBitBound(b: nat, k: nat, n: nat)
    requires k < n && b < Pow2(n)
    ensures SetBit(b, k) < Pow2(n)
    decreases k
  {
    if k > 0 {
      HalfBelow(b, n);
      SetBitBound(b / 2, k - 1, n - 1);
    } else {
      HalfBelow(b, n);
    }
  }

  lemma HalfBelow(b: nat, n: nat)
    requires 0 < n
    ensures b < Pow2(n) <==> b / 2 < Pow2(n - 1)
  {
  }

  lemma SixteenBits()
    ensures Pow2(16) == MODULUS
  {
    assert Pow2(8) == 256;
  }

  lemma SetBit16(b: Seq16, k: nat)
    requires k < 16
    ensures SetBit(b, k) < MODULUS
  {
    SixteenBits();
    SetBitBound(b, k, 16);
  }

  // ---------------------------------------------------------------------------
  // Unpacking

  /** The shifting loop of `Unpack`: the numbers of the set bits, in order. */
  function Bits(b: nat, pid: Seq16): seq<Seq16> {
    if b == 0 then []
    else (if b % 2 == 1 then [pid] else []) + Bits(b / 2, Wrap(pid + 1))
  }

  function UnpackItem(item: Item): seq<Seq16> {
    [item.firstPid] + Bits(item.bitmask, Wrap(item.firstPid + 1))
  }

  function Unpack(items: seq<Item>): seq<Seq16> {
    if items == [] then [] else UnpackItem(items[0]) + Unpack(items[1..])
  }

  lemma {:induction false} UnpackAppend(a: seq<Item>, b: seq<Item>)
    ensures Unpack(a + b) == Unpack(a) + Unpack(b)
  {
    if a == [] {
      assert a + b == b;
    } else {
      assert (a + b)[1..] == a[1..] + b;
      UnpackAppend(a[1..], b);
    }
  }

  /** The `k`-th of the sequence numbers following `pid`. */
  function Offset(pid: Seq16, k: int): Seq16 {
    Wrap(pid + k)
  }

  lemma OffsetStep(pid: Seq16, k: int)
    ensures Offset(Wrap(pid + 1), k) == Offset(pid, k + 1)
  {
    WrapAdd(pid + 1, k);
  }

  lemma WrapAdd(n: int, k: int)
    ensures Wrap(Wrap(n) + k) == Wrap(n + k)
  {
    assert n == MODULUS * (n / MODULUS) + Wrap(n);
    assert n + k == MODULUS * (n / MODULUS) + (Wrap(n) + k);
    ModMultiple(Wrap(n) + k, n / MODULUS);
  }

  lemma ModMultiple(x: int, q: int)
    ensures (MODULUS * q + x) % MODULUS == x % MODULUS
  {
  }

  /** A number is unpacked exactly when its bit is set. */
  lemma {:induction false} BitsMembers(b: nat, pid: Seq16, x: Seq16)
    ensures x in Bits(b, pid) <==> exists k: nat :: Bit(b, k) && x == Offset(pid, k)
    decreases b
  {
    if b == 0 {
      forall k: nat
        ensures !Bit(b, k)
      {
        NoBits(k);
      }
    } else {
      var next := Wrap(pid + 1);
      BitsMembers(b / 2, next, x);
      if x in Bits(b, pid) {
        if b % 2 == 1 && x == pid {
          assert Bit(b, 0) && x == Offset(pid, 0);
        } else {
          var k: nat :| Bit(b / 2, k) && x == Offset(next, k);
          OffsetStep(pid, k);
          assert Bit(b, k + 1) && x == Offset(pid, k + 1);
        }
      }
      if exists k: nat :: Bit(b, k) && x == Offset(pid, k) {
        var k: nat :| Bit(b, k) && x == Offset(pid, k);
        if k > 0 {
          OffsetStep(pid, k - 1);
          assert Bit(b / 2, k - 1) && x == Offset(next, k - 1);
        }
      }
    }
  }

  lemma {:induction false} NoBits(k: nat)
    ensures !Bit(0, k)
  {
    if k > 0 {
      NoBits(k - 1);
    }
  }

  // ---------------------------------------------------------------------------
  // Packing

  /** The bit of a number in the mask behind `first`, if it is at most 15. */
  function Shift(first: Seq16, x: Seq16): Seq16 {
    Wrap(x - first - 1)
  }

  /** The inner loop of `Pack`: take numbers from the list while they fit the mask. */
  function Absorb(first: Seq16, bitmask: Seq16, rest: seq<Seq16>): (r: (Seq16, seq<Seq16>))
    ensures |r.1| <= |rest|
    decreases |rest|
  {
    if rest == [] then (bitmask, rest)
    else
      var shift := Shift(first, rest[0]);
      if shift <= 15 then
        SetBit16(bitmask, shift);
        Absorb(first, SetBit(bitmask, shift), rest[1..])
      else (bitmask, rest)
  }

  function Pack(ids: seq<Seq16>): seq<Item>
    decreases |ids|
  {
    if ids == [] then []
    else
      var (bitmask, rest) := Absorb(ids[0], 0, ids[1..]);
      [Item(ids[0], bitmask)] + Pack(rest)
  }

  /** A number covered by an item: its packet id or a number whose bit is set. */
  ghost predicate Covers(item: Item, x: Seq16) {
    x in UnpackItem(item)
  }

  /** An item can only cover its packet id and the 16 numbers after it. */
  lemma CoverIsNear(item: Item, x: Seq16)
    requires Covers(item, x)
    ensures ForwardDiff(item.firstPid, x) <= 16
  {
    hide Bit, Bits, Pow2, Offset, ForwardDiff;
    DiffOfItself(item.firstPid);
    if x != item.firstPid {
      var pid := Wrap(item.firstPid + 1);
      BitsMembers(item.bitmask, pid, x);
      var k: nat :| Bit(item.bitmask, k) && x == Offset(pid, k);
      SixteenBits();
      BitIsLow(item.bitmask, k, 16);
      OffsetStep(item.firstPid, k);
      OffsetDiff(item.firstPid, k + 1);
    }
  }

  lemma DiffOfItself(pid: Seq16)
    ensures ForwardDiff(pid, pid) == 0
  {
  }

  lemma {:induction false} BitMeans(b: nat, k: nat)
    ensures Bit(b, k) <==> b / Pow2(k) % 2 == 1
    decreases k
  {
    if k > 0 {
      BitMeans(b / 2, k - 1);
      HalvesTwice(b, Pow2(k - 1));
    }
  }

  lemma HalvesTwice(b: nat, p: nat)
    requires p > 0
    ensures b / 2 / p == b / (2 * p)
  {
    var h, q := b / 2, b / 2 / p;
    assert b == 2 * h + b % 2 && h == p * q + h % p;
    assert b == (2 * p) * q + (2 * (h % p) + b % 2);
    QuotientIs(b, 2 * p, q, 2 * (h % p) + b % 2);
  }

  lemma QuotientIs(a: nat, d: nat, q: nat, r: nat)
    requires d > 0 && a == d * q + r && r < d
    ensures a / d == q
  {
    var p := a / d;
    assert a == d * p + a % d;
    Difference(d, p, q);
    if p > q {
      AtLeastOnce(d, p - q);
    } else if p < q {
      AtLeastOnce(d, q - p);
      Difference(d, q, p);
    }
  }

  lemma Difference(d: int, p: int, q: int)
    ensures d * (p - q) == d * p - d * q
  {
  }

  lemma AtLeastOnce(d: nat, e: nat)
    requires e >= 1
    ensures d * e >= d
  {
  }

  /** What an item covers, as section 6.2.1 of RFC 4585 has it: the packet id, and the number `d` after
      it, up to 16, exactly if bit `d - 1` of the mask is set, the least significant bit first. */
  lemma CoversMeans(item: Item, x: Seq16)
    ensures Covers(item, x) <==>
            var d := ForwardDiff(item.firstPid, x);
            d == 0 || (d <= 16 && item.bitmask / Pow2(d - 1) % 2 == 1)
  {
    hide Bit, Bits, Pow2;
    var d := ForwardDiff(item.firstPid, x);
    DiffsComplement(item.firstPid, x);
    BitsMembers(item.bitmask, Wrap(item.firstPid + 1), x);
    if Covers(item, x) {
      CoverIsNear(item, x);
      if x != item.firstPid {
        var k: nat :| Bit(item.bitmask, k) && x == Offset(Wrap(item.firstPid + 1), k);
        SixteenBits();
        BitIsLow(item.bitmask, k, 16);
        OffsetStep(item.firstPid, k);
        OffsetDiff(item.firstPid, k + 1);
        BitMeans(item.bitmask, k);
      }
    } else if 1 <= d <= 16 {
      BitMeans(item.bitmask, d - 1);
      OffsetStep(item.firstPid, d - 1);
      assert Offset(item.firstPid, d) == x;
    }
  }

  lemma OffsetDiff(pid: Seq16, k: nat)
    requires k < MODULUS
    ensures ForwardDiff(pid, Offset(pid, k)) == k
  {
  }

  lemma {:induction false} BitIsLow(b: nat, k: nat, n: nat)
    requires Bit(b, k) && b < Pow2(n)
    ensures k < n
    decreases k
  {
    if k > 0 {
      if n > 0 {
        BitIsLow(b / 2, k - 1, n - 1);
      } else {
        NoBits(k);
      }
    }
  }

  /** What the inner loop puts in the mask, .. */
  lemma {:induction false} AbsorbMembers(first: Seq16, bitmask: Seq16, rest: seq<Seq16>, x: Seq16)
    ensures var (b, left) := Absorb(first, bitmask, rest);
            (Covers(Item(first, b), x) || x in left) <==> (Covers(Item(first, bitmask), x) || x in rest)
    decreases |rest|
  {
    if rest != [] {
      var shift := Shift(first, rest[0]);
      if shift <= 15 {
        hide Covers;
        OneMore(first, bitmask, shift, x);
        ShiftIsOffset(first, rest[0]);
        AbsorbMembers(first, SetBit(bitmask, shift), rest[1..], x);
        assert Absorb(first, bitmask, rest) == Absorb(first, SetBit(bitmask, shift), rest[1..]);
      }
    }
  }

  lemma ShiftIsOffset(first: Seq16, x: Seq16)
    ensures Offset(Wrap(first + 1), Shift(first, x)) == x
  {
  }

  /** .. bit by bit. */
  lemma OneMore(first: Seq16, bitmask: Seq16, shift: nat, x: Seq16)
    requires shift <= 15
    ensures SetBit(bitmask, shift) < MODULUS
    ensures Covers(Item(first, SetBit(bitmask, shift)), x) <==>
            Covers(Item(first, bitmask), x) || x == Offset(Wrap(first + 1), shift)
  {
    hide SetBit, Bits, Bit, Offset, Wrap;
    SetBit16(bitmask, shift);
    var pid := Wrap(first + 1);
    BitsMembers(bitmask, pid, x);
    BitsMembers(SetBit(bitmask, shift), pid, x);
    forall k: nat
      ensures Bit(SetBit(bitmask, shift), k) <==> k == shift || Bit(bitmask, k)
    {
      SetBitSets(bitmask, shift, k);
    }
    if x == Offset(pid, shift) {
      assert Bit(SetBit(bitmask, shift), shift);
    }
  }

  /** Round trip for every list: unpacking the packed list gives the same set of numbers. */
  lemma {:induction false} RoundTripSet(ids: seq<Seq16>, x: Seq16)
    ensures x in Unpack(Pack(ids)) <==> x in ids
    decreases |ids|
  {
    if ids != [] {
      var (b, rest) := Absorb(ids[0], 0, ids[1..]);
      AbsorbMembers(ids[0], 0, ids[1..], x);
      assert Covers(Item(ids[0], 0), x) <==> x == ids[0];
      RoundTripSet(rest, x);
      assert Pack(ids)[1..] == Pack(rest);
      assert Unpack(Pack(ids)) == UnpackItem(Item(ids[0], b)) + Unpack(Pack(rest));
    }
  }

  // ---------------------------------------------------------------------------
  // Lists in forward order

  /** Each number is ahead of the one before it, by no more than wraps past an item. For
      the half-range step of `AheadOf` this always holds. */
  predicate Forward(ids: seq<Seq16>) {
    forall i :: 0 <= i < |ids| - 1 ==> 1 <= ForwardDiff(ids[i], ids[i + 1]) <= MODULUS - 16
  }

  lemma AheadListIsForward(ids: seq<Seq16>)
    requires forall i :: 0 <= i < |ids| - 1 ==> AheadOf(ids[i + 1], ids[i])
    ensures Forward(ids)
  {
  }

  /** In particular a list in the order of the code base's comparator comes back as it was. */
  lemma AheadListRoundTrip(ids: seq<Seq16>)
    requires forall i :: 0 <= i < |ids| - 1 ==> AheadOf(ids[i + 1], ids[i])
    ensures Unpack(Pack(ids)) == ids
  {
    AheadListIsForward(ids);
    RoundTripList(ids);
  }

  /** Setting a bit above all others appends its number. */
  lemma {:induction false} BitsAppend(b: nat, k: nat, pid: Seq16)
    requires b < Pow2(k)
    ensures Bits(SetBit(b, k), pid) == Bits(b, pid) + [Offset(pid, k)]
    decreases k
  {
    if k == 0 {
      assert Bits(1, pid) == [pid] + Bits(0, Wrap(pid + 1));
    } else {
      var next := Wrap(pid + 1);
      BitsAppend(b / 2, k - 1, next);
      OffsetStep(pid, k - 1);
      var low := if b % 2 == 1 then [pid] else [];
      assert SetBit(b, k) / 2 == SetBit(b / 2, k - 1) && SetBit(b, k) % 2 == b % 2;
      SetBitPositive(b / 2, k - 1);
      assert Bits(SetBit(b, k), pid) == low + Bits(SetBit(b / 2, k - 1), next);
      if b == 0 {
        assert Bits(0, next) == [] && low == [];
      } else {
        assert Bits(b, pid) == low + Bits(b / 2, next);
      }
    }
  }

  lemma SetBitPositive(b: nat, k: nat)
    ensures SetBit(b, k) > 0
    decreases k
  {
    if k > 0 {
      SetBitPositive(b / 2, k - 1);
    }
  }

  lemma {:induction false} SetBitTop(b: nat, k: nat)
    requires b < Pow2(k)
    ensures SetBit(b, k) < Pow2(k + 1)
    decreases k
  {
    if k > 0 {
      SetBitTop(b / 2, k - 1);
    }
  }

  lemma {:induction false} Pow2Monotone(m: nat, n: nat)
    requires m <= n
    ensures Pow2(m) <= Pow2(n)
    decreases n
  {
    if m < n {
      Pow2Monotone(m, n - 1);
    }
  }

  lemma ForwardTail(x: Seq16, rest: seq<Seq16>)
    requires Forward([x] + rest)
    ensures Forward(rest)
    ensures rest != [] ==> 1 <= ForwardDiff(x, rest[0]) <= MODULUS - 16
  {
    var all := [x] + rest;
    forall i | 0 <= i < |rest| - 1
      ensures 1 <= ForwardDiff(rest[i], rest[i + 1]) <= MODULUS - 16
    {
      assert all[i + 1] == rest[i] && all[i + 2] == rest[i + 1];
    }
    if rest != [] {
      assert all[0] == x && all[1] == rest[0];
    }
  }

  /** A number beyond all others in the mask is unpacked last. */
  lemma OneMoreInOrder(first: Seq16, bitmask: Seq16, x: Seq16, done: nat)
    requires var shift := Shift(first, x); done <= shift <= 15
    requires bitmask < Pow2(done)
    ensures var shift := Shift(first, x);
            SetBit(bitmask, shift) < MODULUS && SetBit(bitmask, shift) < Pow2(shift + 1) &&
            UnpackItem(Item(first, SetBit(bitmask, shift))) == UnpackItem(Item(first, bitmask)) + [x] &&
            Offset(first, shift + 1) == x
  {
    var shift := Shift(first, x);
    Pow2Monotone(done, shift);
    SetBit16(bitmask, shift);
    SetBitTop(bitmask, shift);
    BitsAppend(bitmask, shift, Wrap(first + 1));
    ShiftIsOffset(first, x);
    OffsetStep(first, shift);
  }

  /** The inner loop on a list in forward order, when the last number taken is `done`
      after the packet id: the numbers come out of the mask in the order they went in. */
  lemma {:induction false} AbsorbForward(first: Seq16, bitmask: Seq16, rest: seq<Seq16>, done: nat)
    requires done <= 16 && bitmask < Pow2(done)
    requires Forward([Offset(first, done)] + rest)
    ensures var (b, left) := Absorb(first, bitmask, rest);
            Forward(left) && UnpackItem(Item(first, b)) + left == UnpackItem(Item(first, bitmask)) + rest
    decreases |rest|
  {
    hide Forward, UnpackItem, SetBit, Pow2;
    ForwardTail(Offset(first, done), rest);
    if rest != [] {
      var shift := Shift(first, rest[0]);
      ShiftGrows(first, done, rest[0]);
      if shift <= 15 {
        OneMoreInOrder(first, bitmask, rest[0], done);
        assert [rest[0]] + rest[1..] == rest;
        AbsorbForward(first, SetBit(bitmask, shift), rest[1..], shift + 1);
        assert (UnpackItem(Item(first, bitmask)) + [rest[0]]) + rest[1..] == UnpackItem(Item(first, bitmask)) + rest;
      }
    }
  }

  /** A forward step from `done` after `first` lands strictly further from `first`. */
  lemma ShiftGrows(first: Seq16, done: nat, x: Seq16)
    requires done <= 16 && 1 <= ForwardDiff(Offset(first, done), x) <= MODULUS - 16
    ensures Shift(first, x) == done + ForwardDiff(Offset(first, done), x) - 1
  {
    var d: int := ForwardDiff(Offset(first, done), x);
    var f: int := first;
    var back := 0 - f - 1;
    DiffsComplement(Offset(first, done), x);
    WrapAdd(first + done, d);
    assert Wrap(first + done + d) == x;
    WrapAdd(first + done + d, back);
    assert Shift(first, x) == Wrap(done + d - 1);
  }

  /** Round trip in order: a list in forward order is unpacked exactly as it was. */
  lemma {:induction false} RoundTripList(ids: seq<Seq16>)
    requires Forward(ids)
    ensures Unpack(Pack(ids)) == ids
    decreases |ids|
  {
    if ids != [] {
      var (b, rest) := Absorb(ids[0], 0, ids[1..]);
      assert Offset(ids[0], 0) == ids[0] && [ids[0]] + ids[1..] == ids;
      AbsorbForward(ids[0], 0, ids[1..], 0);
      RoundTripList(rest);
      assert Pack(ids)[1..] == Pack(rest);
      assert UnpackItem(Item(ids[0], 0)) == [ids[0]];
    }
  }

  /** Out of order it may not be: the mask forgets the order of the numbers in it. */
  lemma RoundTripNeedsOrder()
    ensures Unpack(Pack([10, 14, 12])) == [10, 12, 14]
  {
    assert Pack([10, 14, 12]) == [Item(10, 10)] by {
      assert [10, 14, 12][1..] == [14, 12] && [14, 12][1..] == [12] && [12][1..] == [];
      assert SetBit(0, 3) == 8 && SetBit(8, 1) == 10;
      assert Absorb(10, 10, []) == (10, []);
      assert Absorb(10, 8, [12]) == (10, []);
      assert Absorb(10, 0, [14, 12]) == (10, []);
    }
    assert Bits(10, 11) == [12, 14] by {
      assert Bits(1, 14) == [14] + Bits(0, 15);
      assert Bits(2, 13) == [14];
      assert Bits(5, 12) == [12] + Bits(2, 13);
    }
    assert UnpackItem(Item(10, 10)) == [10, 12, 14];
  }
}
