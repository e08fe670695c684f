/**
 When the greedy packing of a NACK list uses as few items as possible: exactly when no
 rotation of the list that starts just before its first number packs better.
 */
module NackMinimal {
  import opened SeqNum
  import opened NackPacking

  /** How far an item reaches: its packet id and the 16 numbers after it. */
  const REACH := 16

  /** Walking forward from `start`, the numbers come in the order of the list, all within one
      turn of the number space. */
  predicate InTurn(start: Seq16, ids: seq<Seq16>) {
    forall i, j :: 0 <= i < j < |ids| ==> ForwardDiff(start, ids[i]) < ForwardDiff(start, ids[j])
  }

  /** In forward order within one turn. */
  predicate OneTurn(ids: seq<Seq16>) {
    ids == [] || InTurn(ids[0], ids)
  }

  ghost predicate CoversAll(items: seq<Item>, ids: seq<Seq16>) {
    forall x :: x in ids ==> exists i :: 0 <= i < |items| && Covers(items[i], x)
  }

  /** No set of items for the same numbers is smaller. */
  ghost predicate Minimal(ids: seq<Seq16>) {
    forall items: seq<Item> :: CoversAll(items, ids) ==> |Pack(ids)| <= |items|
  }

  /** The list read from its k-th number on, around the circle. */
  function Rotated(ids: seq<Seq16>, k: nat): seq<Seq16>
    requires k < |ids|
  {
    ids[k..] + ids[..k]
  }

  /** No rotation that starts at most 16 before the first number packs into fewer items. At most
      17 rotations have to be tried. */
  predicate NoBetterRotation(ids: seq<Seq16>) {
    forall k :: 0 <= k < |ids| && ForwardDiff(ids[k], ids[0]) <= REACH ==> |Pack(ids)| <= |Pack(Rotated(ids, k))|
  }

  // ---------------------------------------------------------------------------
  // Distances around the circle

  /** Two numbers no single item can cover. */
  predicate Apart(a: Seq16, b: Seq16) {
    REACH < ForwardDiff(a, b) < MODULUS - REACH
  }

  /** Distances from a common start subtract. */
  lemma DiffFrom(start: Seq16, a: Seq16, b: Seq16)
    ensures var x: int, y: int := ForwardDiff(start, a), ForwardDiff(start, b);
            ForwardDiff(a, b) == if x <= y then y - x else y - x + MODULUS
  {
  }

  lemma SharedIsNotApart(a: Seq16, b: Seq16, item: Item)
    requires Covers(item, a) && Covers(item, b)
    ensures !Apart(a, b)
  {
    CoverIsNear(item, a);
    CoverIsNear(item, b);
    DiffFrom(item.firstPid, a, b);
  }

  // ---------------------------------------------------------------------------
  // The heads of a packing

  /** The packet ids of a packing. */
  function Heads(items: seq<Item>): (r: seq<Seq16>)
    ensures |r| == |items|
  {
    if items == [] then [] else [items[0].firstPid] + Heads(items[1..])
  }

  /** The inner loop leaves a suffix of the list, from the first number out of reach on. */
  lemma {:induction false} AbsorbReach(start: Seq16, first: Seq16, bitmask: Seq16, rest: seq<Seq16>)
    requires InTurn(start, [first] + rest)
    ensures var left := Absorb(first, bitmask, rest).1;
            left == rest[|rest| - |left|..] &&
            (left != [] ==> ForwardDiff(start, left[0]) > ForwardDiff(start, first) + REACH)
    decreases |rest|
  {
    hide SetBit;
    if rest != [] {
      var all := [first] + rest;
      assert all[0] == first && all[1] == rest[0];
      DiffFrom(start, first, rest[0]);
      var shift := Shift(first, rest[0]);
      assert ForwardDiff(first, rest[0]) == shift as int + 1;
      if shift <= 15 {
        SetBit16(bitmask, shift);
        InTurnSkips(start, first, rest);
        AbsorbReach(start, first, SetBit(bitmask, shift), rest[1..]);
        var left := Absorb(first, SetBit(bitmask, shift), rest[1..]).1;
        assert rest[1..][|rest[1..]| - |left|..] == rest[|rest| - |left|..];
      }
    }
  }

  lemma InTurnSkips(start: Seq16, first: Seq16, rest: seq<Seq16>)
    requires rest != [] && InTurn(start, [first] + rest)
    ensures InTurn(start, [first] + rest[1..])
  {
    var all, next := [first] + rest, [first] + rest[1..];
    forall i, j | 0 <= i < j < |next|
      ensures ForwardDiff(start, next[i]) < ForwardDiff(start, next[j])
    {
      assert next[j] == all[j + 1] && next[i] == all[if i == 0 then 0 else i + 1];
    }
  }

  lemma InTurnSuffix(start: Seq16, ids: seq<Seq16>, k: nat)
    requires InTurn(start, ids) && k <= |ids|
    ensures InTurn(start, ids[k..])
  {
  }

  /** Each packet id lies more than 16 behind the one before it. */
  predicate Spread(start: Seq16, heads: seq<Seq16>) {
    forall i, j :: 0 <= i < j < |heads| ==> ForwardDiff(start, heads[j]) > ForwardDiff(start, heads[i]) + REACH
  }

  lemma {:induction false} HeadsSpread(start: Seq16, ids: seq<Seq16>)
    requires InTurn(start, ids)
    ensures var heads := Heads(Pack(ids));
            Spread(start, heads) && (ids != [] ==> heads != [] && heads[0] == ids[0]) &&
            forall x :: x in heads ==> x in ids
    decreases |ids|
  {
    hide Absorb;
    if ids != [] {
      var (b, left) := Absorb(ids[0], 0, ids[1..]);
      assert [ids[0]] + ids[1..] == ids;
      AbsorbReach(start, ids[0], 0, ids[1..]);
      var k := |ids| - |left|;
      assert left == ids[k..];
      InTurnSuffix(start, ids, k);
      HeadsSpread(start, left);
      var rest := Heads(Pack(left));
      assert Pack(ids)[1..] == Pack(left);
      assert Heads(Pack(ids)) == [ids[0]] + rest;
      SpreadMore(start, ids[0], rest);
      assert forall x :: x in left ==> x in ids;
    }
  }

  lemma SpreadMore(start: Seq16, first: Seq16, rest: seq<Seq16>)
    requires Spread(start, rest)
    requires rest != [] ==> ForwardDiff(start, rest[0]) > ForwardDiff(start, first) + REACH
    ensures Spread(start, [first] + rest)
  {
    var all := [first] + rest;
    forall i, j | 0 <= i < j < |all|
      ensures ForwardDiff(start, all[j]) > ForwardDiff(start, all[i]) + REACH
    {
      if i == 0 {
        assert all[j] == rest[j - 1] && (j == 1 || ForwardDiff(start, rest[j - 1]) > ForwardDiff(start, rest[0]) + REACH);
      } else {
        assert all[j] == rest[j - 1] && all[i] == rest[i - 1];
      }
    }
  }

  // ---------------------------------------------------------------------------
  // Items needed

  predicate PairwiseApart(xs: seq<Seq16>) {
    forall i, j :: 0 <= i < j < |xs| ==> Apart(xs[i], xs[j])
  }

  /** Numbers that are pairwise apart need an item each. */
  lemma {:induction false} OneItemEach(xs: seq<Seq16>, items: seq<Item>)
    requires PairwiseApart(xs) && CoversAll(items, xs)
    ensures |xs| <= |items|
    decreases |xs|
  {
    if xs != [] {
      assert xs[0] in xs;
      var i :| 0 <= i < |items| && Covers(items[i], xs[0]);
      var others := items[..i] + items[i + 1..];
      forall x | x in xs[1..]
        ensures exists j :: 0 <= j < |others| && Covers(others[j], x)
      {
        assert x in xs;
        var k :| 1 <= k < |xs| && xs[k] == x;
        assert Apart(xs[0], xs[k]);
        OtherItem(items, i, xs[0], x);
      }
      OneItemEach(xs[1..], others);
    }
  }

  /** What is apart from a number covered by one item is covered by another. */
  lemma OtherItem(items: seq<Item>, i: nat, a: Seq16, x: Seq16)
    requires i < |items| && Covers(items[i], a) && Apart(a, x)
    requires exists j :: 0 <= j < |items| && Covers(items[j], x)
    ensures var others := items[..i] + items[i + 1..];
            exists j :: 0 <= j < |others| && Covers(others[j], x)
  {
    var j :| 0 <= j < |items| && Covers(items[j], x);
    if j == i {
      SharedIsNotApart(a, x, items[i]);
    }
    AnotherItem(items, i, j, x);
  }

  lemma AnotherItem(items: seq<Item>, i: nat, j: nat, x: Seq16)
    requires i < |items| && j < |items| && i != j && Covers(items[j], x)
    ensures var others := items[..i] + items[i + 1..];
            exists k :: 0 <= k < |others| && Covers(others[k], x)
  {
    var others := items[..i] + items[i + 1..];
    assert others[if j < i then j else j - 1] == items[j];
  }

  /** Behind the first item of a list in turn, the packet ids are pairwise apart, also around
      the circle. */
  lemma LaterHeadsApart(heads: seq<Seq16>)
    requires heads != [] && Spread(heads[0], heads)
    ensures PairwiseApart(heads[1..])
    ensures forall x :: x in heads[1..] ==> ForwardDiff(heads[0], x) > REACH
  {
    var start, later := heads[0], heads[1..];
    assert ForwardDiff(start, start) == 0;
    forall i | 0 <= i < |later|
      ensures ForwardDiff(start, later[i]) > REACH
    {
      assert later[i] == heads[i + 1];
    }
    forall i, j | 0 <= i < j < |later|
      ensures Apart(later[i], later[j])
    {
      assert later[i] == heads[i + 1] && later[j] == heads[j + 1];
      DiffFrom(start, later[i], later[j]);
    }
  }

  // ---------------------------------------------------------------------------
  // The exact condition

  /** Of the numbers of the list an item covers, the one it reaches first. */
  lemma {:induction false} EarliestCovered(item: Item, ids: seq<Seq16>, n: nat) returns (k: nat)
    requires 0 < n <= |ids| && Covers(item, ids[0])
    ensures k < n && Covers(item, ids[k])
    ensures forall j :: 0 <= j < n && Covers(item, ids[j]) ==>
              ForwardDiff(item.firstPid, ids[k]) <= ForwardDiff(item.firstPid, ids[j])
    decreases n
  {
    hide Covers;
    if n == 1 {
      k := 0;
    } else {
      k := EarliestCovered(item, ids, n - 1);
      if Covers(item, ids[n - 1]) && ForwardDiff(item.firstPid, ids[n - 1]) < ForwardDiff(item.firstPid, ids[k]) {
        k := n - 1;
      }
    }
  }

  /** A rotation of a list in turn is in turn again, and holds the same numbers. */
  lemma RotatedInTurn(ids: seq<Seq16>, k: nat)
    requires OneTurn(ids) && k < |ids|
    ensures var r := Rotated(ids, k);
            |r| == |ids| && r[0] == ids[k] && OneTurn(r) && forall x :: x in r <==> x in ids
  {
    var start, r, n := ids[0], Rotated(ids, k), |ids|;
    assert ids == ids[..k] + ids[k..];
    forall i, j | 0 <= i < j < n
      ensures ForwardDiff(r[0], r[i]) < ForwardDiff(r[0], r[j])
    {
      RotatedAt(ids, k, i);
      RotatedAt(ids, k, j);
    }
  }

  /** The i-th number of the rotation and its distance from the new start. */
  lemma RotatedAt(ids: seq<Seq16>, k: nat, i: nat)
    requires OneTurn(ids) && k < |ids| && i < |ids|
    ensures var from: int := ForwardDiff(ids[0], ids[k]);
            var at := if i < |ids| - k then k + i else k + i - |ids|;
            var to: int := ForwardDiff(ids[0], ids[at]);
            Rotated(ids, k)[i] == ids[at] &&
            ForwardDiff(ids[k], ids[at]) == if i < |ids| - k then to - from else to - from + MODULUS
  {
    var at := if i < |ids| - k then k + i else k + i - |ids|;
    DiffFrom(ids[0], ids[k], ids[at]);
    assert i < |ids| - k ==> at == k || ForwardDiff(ids[0], ids[k]) < ForwardDiff(ids[0], ids[at]);
    assert i >= |ids| - k ==> ForwardDiff(ids[0], ids[at]) < ForwardDiff(ids[0], ids[k]);
  }

  /** The numbers an item covers lie within 16 of the earliest of them. */
  lemma WithinReach(item: Item, ids: seq<Seq16>, k: nat, x: Seq16)
    requires k < |ids| && x in ids && Covers(item, x) && Covers(item, ids[k])
    requires forall j :: 0 <= j < |ids| && Covers(item, ids[j]) ==>
               ForwardDiff(item.firstPid, ids[k]) <= ForwardDiff(item.firstPid, ids[j])
    ensures ForwardDiff(ids[k], x) <= REACH
  {
    var j :| 0 <= j < |ids| && ids[j] == x;
    CoverIsNear(item, x);
    DiffFrom(item.firstPid, ids[k], x);
  }

  /** For any set of items some rotation near the start packs into no more. */
  lemma RotationWins(ids: seq<Seq16>, items: seq<Item>) returns (k: nat)
    requires OneTurn(ids) && ids != [] && CoversAll(items, ids)
    ensures k < |ids| && ForwardDiff(ids[k], ids[0]) <= REACH && |Pack(Rotated(ids, k))| <= |items|
  {
    hide Pack, Covers;
    assert ids[0] in ids;
    var i :| 0 <= i < |items| && Covers(items[i], ids[0]);
    k := EarliestCovered(items[i], ids, |ids|);
    WithinReach(items[i], ids, k, ids[0]);
    RotatedInTurn(ids, k);
    var r := Rotated(ids, k);
    HeadsSpread(r[0], r);
    var heads := Heads(Pack(r));
    LaterHeadsApart(heads);
    var others := items[..i] + items[i + 1..];
    forall x | x in heads[1..]
      ensures exists j :: 0 <= j < |others| && Covers(others[j], x)
    {
      assert x in heads && x in ids;
      var j :| 0 <= j < |items| && Covers(items[j], x);
      if j == i {
        WithinReach(items[i], ids, k, x);
      }
      AnotherItem(items, i, j, x);
    }
    OneItemEach(heads[1..], others);
  }

  lemma {:induction false} UnpackedIsCovered(items: seq<Item>, x: Seq16)
    requires x in Unpack(items)
    ensures exists i :: 0 <= i < |items| && Covers(items[i], x)
  {
    if !Covers(items[0], x) {
      UnpackedIsCovered(items[1..], x);
      var i :| 0 <= i < |items[1..]| && Covers(items[1..][i], x);
      assert items[i + 1] == items[1..][i];
    }
  }

  lemma PackingCovers(packed: seq<Seq16>, ids: seq<Seq16>)
    requires forall x :: x in ids ==> x in packed
    ensures CoversAll(Pack(packed), ids)
  {
    forall x | x in ids
      ensures exists i :: 0 <= i < |Pack(packed)| && Covers(Pack(packed)[i], x)
    {
      RoundTripSet(packed, x);
      UnpackedIsCovered(Pack(packed), x);
    }
  }

  /** The greedy packing of a list in forward order within one turn uses as few items as possible
      exactly if none of the rotations near its start packs into fewer. */
  lemma PackMinimalIff(ids: seq<Seq16>)
    requires OneTurn(ids)
    ensures Minimal(ids) <==> NoBetterRotation(ids)
  {
    hide Pack, OneTurn, CoversAll;
    if Minimal(ids) {
      forall k | 0 <= k < |ids| && ForwardDiff(ids[k], ids[0]) <= REACH
        ensures |Pack(ids)| <= |Pack(Rotated(ids, k))|
      {
        RotatedInTurn(ids, k);
        PackingCovers(Rotated(ids, k), ids);
      }
    }
    if NoBetterRotation(ids) {
      forall items: seq<Item> | CoversAll(items, ids)
        ensures |Pack(ids)| <= |items|
      {
        if ids == [] {
          NothingToPack();
        } else {
          var k := RotationWins(ids, items);
        }
      }
    }
  }

  lemma NothingToPack()
    ensures |Pack([])| == 0
  {
  }

  /** In particular it is minimal if the list ends more than 16 before its start. */
  lemma PackIsMinimal(ids: seq<Seq16>)
    requires OneTurn(ids) && (ids != [] ==> ForwardDiff(ids[0], ids[|ids| - 1]) < MODULUS - REACH)
    ensures Minimal(ids)
  {
    hide Pack, Minimal;
    PackMinimalIff(ids);
    forall k | 0 <= k < |ids| && ForwardDiff(ids[k], ids[0]) <= REACH
      ensures |Pack(ids)| <= |Pack(Rotated(ids, k))|
    {
      OnlyTheStart(ids, k);
      assert Rotated(ids, k) == ids;
    }
  }

  lemma OnlyTheStart(ids: seq<Seq16>, k: nat)
    requires OneTurn(ids) && k < |ids| && ForwardDiff(ids[k], ids[0]) <= REACH
    requires ForwardDiff(ids[0], ids[|ids| - 1]) < MODULUS - REACH
    ensures k == 0
  {
    DiffFrom(ids[0], ids[k], ids[0]);
    assert ForwardDiff(ids[0], ids[0]) == 0;
    assert k < |ids| - 1 ==> ForwardDiff(ids[0], ids[k]) < ForwardDiff(ids[0], ids[|ids| - 1]);
  }

  // ---------------------------------------------------------------------------
  // Two lists that come back to their start

  /** Two numbers 16 apart around the wrap are packed in two items, while one covers them. */
  lemma MinimalityNeedsCondition()
    ensures OneTurn([0, 65520]) && !Minimal([0, 65520])
  {
    hide Pack, Covers;
    TwoItems();
    OneItem();
    var items := [Item(65520, 32768)];
    assert Covers(items[0], 0) && Covers(items[0], 65520);
    assert CoversAll(items, [0, 65520]);
  }

  lemma TwoItems()
    ensures |Pack([0, 65520])| == 2
  {
    assert [0, 65520][1..] == [65520] && [65520][1..] == [];
    assert Absorb(0, 0, [65520]) == (0, [65520]);
    assert Absorb(65520, 0, []) == (0, []);
    assert Pack([65520]) == [Item(65520, 0)] + Pack([]);
    assert Pack([0, 65520]) == [Item(0, 0)] + Pack([65520]);
  }

  lemma OneItem()
    ensures Covers(Item(65520, 32768), 0) && Covers(Item(65520, 32768), 65520)
  {
    hide Bit, Bits;
    HighBit();
    BitsMembers(32768, 65521, 0);
    assert Offset(65521, 15) == 0;
  }

  lemma HighBit()
    ensures Bit(32768, 15)
  {
    assert Bit(1, 0);
    assert Bit(16, 4);
    assert Bit(256, 8);
    assert Bit(4096, 12);
  }
}
