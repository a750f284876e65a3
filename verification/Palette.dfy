/** The per-section block palette of world_storage/Palette.hpp and Palette.cpp. */
module Palette {
  import opened Sequences
  import opened Words

  function BitsNeeded(n: nat): nat {
    if n <= 1 then 0 else 1 + BitsNeeded((n + 1) / 2)
  }

  /** BitsNeeded is the ceiling of the base-2 logarithm. */
  lemma {:induction false} BitsNeededIsCeilLog2(n: nat)
    requires n > 1
    ensures BitsNeeded(n) >= 1 && Pow2(BitsNeeded(n) - 1) < n <= Pow2(BitsNeeded(n))
  {
    if n > 2 { BitsNeededIsCeilLog2((n + 1) / 2); }
  }

  /** Width of an entry for a palette of `size` ids. */
  function BlockBits(size: nat): (bits: nat)
    ensures bits == 0 <==> size <= 1
    ensures bits <= 15
  {
    if size <= 1 then 0
    else
      var bytePerBlock := BitsNeeded(size);
      if bytePerBlock <= 4 then 4
      else if bytePerBlock <= 8 then bytePerBlock
      else 15
  }

  /** The widths in numbers: none for one id, 4 bits up to 16 ids, then one more for each doubling up to 256, then
      15. */
  lemma BlockBitsInNumbers(size: nat)
    ensures BlockBits(size) == if size <= 1 then 0
                               else if size <= 16 then 4
                               else if size <= 32 then 5
                               else if size <= 64 then 6
                               else if size <= 128 then 7
                               else if size <= 256 then 8
                               else 15
  {
    if size > 1 {
      var bits := BitsNeeded(size);
      BitsNeededIsCeilLog2(size);
      PowersUpTo256();
      if bits < 4 { Pow2Monotone(bits, 4); }
      if bits > 5 { Pow2Monotone(5, bits - 1); }
      if bits > 6 { Pow2Monotone(6, bits - 1); }
      if bits > 7 { Pow2Monotone(7, bits - 1); }
      if bits > 8 { Pow2Monotone(8, bits - 1); }
    }
  }

  lemma PowersUpTo256()
    ensures Pow2(3) == 8 && Pow2(4) == 16 && Pow2(5) == 32 && Pow2(6) == 64 && Pow2(7) == 128 && Pow2(8) == 256
  {
    assert Pow2(4) == 16;
    assert Pow2(6) == 64;
  }

  const MAX_LOCAL_IDS := 32768

  lemma Pow2Of15()
    ensures Pow2(15) == MAX_LOCAL_IDS
  {
    assert Pow2(5) == 32;
    assert Pow2(10) == 1024;
  }

  /** The width is enough for every index of the palette exactly while the palette has at most 2^15 ids. */
  lemma BlockBitsFit(size: nat)
    requires size > 1
    ensures size <= Pow2(BlockBits(size)) <==> size <= MAX_LOCAL_IDS
    ensures BlockBits(size) < 15 ==> size <= Pow2(BlockBits(size))
  {
    BitsNeededIsCeilLog2(size);
    Pow2Of15();
    if BitsNeeded(size) <= 4 { Pow2Monotone(BitsNeeded(size), 4); }
    if BlockBits(size) < 15 { Pow2Monotone(BlockBits(size), 15); }
  }

  /** std::find: the first index of `id`, or the length if it is absent. */
  function Find(ids: seq<int>, id: int): (i: nat)
    ensures i <= |ids|
    ensures i < |ids| ==> ids[i] == id
    ensures forall k :: 0 <= k < i ==> ids[k] != id
    ensures id in ids ==> i < |ids|
  {
    if ids == [] then 0 else if ids[0] == id then 0 else 1 + Find(ids[1..], id)
  }

  function Extended(ids: seq<int>, id: int): (r: seq<int>)
    ensures Distinct(ids) ==> Distinct(r)
    ensures ids <= r && Find(r, id) < |r|
  {
    if Find(ids, id) < |ids| then ids else
      var r := ids + [id];
      assert r[|ids|] == id;
      r
  }

  /** Pigeonhole: distinct ids below n are at most n. */
  lemma {:induction false} DistinctBounded(ids: seq<int>, n: nat)
    requires Distinct(ids) && forall i :: 0 <= i < |ids| ==> 0 <= ids[i] < n
    ensures |ids| <= n
  {
    if n > 0 {
      var k := Find(ids, n - 1);
      var rest := if k < |ids| then ids[..k] + ids[k + 1..] else ids;
      DistinctBounded(rest, n - 1);
    }
  }

  class BlockPalette {
    var nameToId: seq<int>

    ghost predicate Valid()
      reads this
    {
      Distinct(nameToId) && |nameToId| >= 1 && nameToId[0] == 0
    }

    constructor ()
      ensures Valid() && nameToId == [0]
    {
      nameToId := [0];
    }

    method Add(globalId: int)
      requires Valid()
      modifies this
      ensures Valid()
      ensures nameToId == Extended(old(nameToId), globalId)
    {
      if Find(nameToId, globalId) == |nameToId| {
        nameToId := nameToId + [globalId];
      }
    }

    /** An absent id gives the largest uint64, which is what -1 becomes. */
    function GetId(globalId: int): (r: nat)
      reads this
      ensures globalId in nameToId ==> r < |nameToId| && nameToId[r] == globalId
    {
      var i := Find(nameToId, globalId);
      if i == |nameToId| then 0xFFFF_FFFF_FFFF_FFFF else i
    }

    function GetGlobalId(localId: nat): int
      reads this
    {
      if localId >= |nameToId| then -1 else nameToId[localId]
    }

    function GetBits(): nat
      reads this
    {
      BlockBits(|nameToId|)
    }
  }
}
