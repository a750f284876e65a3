/** A 16x16x16 section of world_storage/Section.cpp: packed local ids over a growing palette, and two light
    arrays with incrementally kept counters. */
module Sections {
  import opened Sequences
  import opened Words
  import opened Positions
  import opened DynamicStorage
  import opened Palette

  const SECTION_WIDTH := 16
  const SECTION_3D_SIZE := 4096
  const UINT64 := 0x1_0000_0000_0000_0000

  /** Block ids of the protocol fit 15 bits. */
  predicate IsBlockId(id: int) {
    0 <= id < MAX_LOCAL_IDS
  }

  predicate Inside(pos: Position) {
    0 <= pos.x < SECTION_WIDTH && 0 <= pos.y < SECTION_WIDTH && 0 <= pos.z < SECTION_WIDTH
  }

  /** The cell of a position; a negative sum becomes a large unsigned number. */
  function BlockIdx(pos: Position): (i: nat)
    ensures Inside(pos) ==> i < SECTION_3D_SIZE
  {
    (pos.x + pos.z * 16 + pos.y * 256) % UINT64
  }

  /** Every cell belongs to exactly one inside position. */
  lemma CellsAndPositions(i: nat, pos: Position)
    requires i < SECTION_3D_SIZE && Inside(pos)
    ensures BlockIdx(pos) == i <==> pos == Position(i % 16, i / 256, i / 16 % 16)
  {
    hide BlockIdx;
    InsideIdx(pos);
    Coordinates(i, pos.x, pos.y, pos.z);
  }

  lemma Coordinates(i: nat, x: nat, y: nat, z: nat)
    requires x < 16 && z < 16
    ensures x + z * 16 + y * 256 == i <==> x == i % 16 && y == i / 256 && z == i / 16 % 16
  {
    SplitInTwo(i, x, z + y * 16);
    SplitInTwo(i / 16, z, y);
    assert i / 16 / 16 == i / 256;
  }

  lemma SplitInTwo(i: nat, low: nat, high: nat)
    requires low < 16
    ensures low + high * 16 == i <==> low == i % 16 && high == i / 16
  {}

  lemma InsideIdx(pos: Position)
    requires Inside(pos)
    ensures BlockIdx(pos) == pos.x + pos.z * 16 + pos.y * 256
  {}

  lemma CellsInjective(p: Position, q: Position)
    requires Inside(p) && Inside(q)
    ensures BlockIdx(p) == BlockIdx(q) <==> p == q
  {
    CellsAndPositions(BlockIdx(p), p);
    CellsAndPositions(BlockIdx(p), q);
  }

  /** Whether setBlock throws, with `ids` in the palette: the guard rejects a position only when all its coordinates
      are too large, or all are negative, and storage of width 0 takes anything. */
  function WriteOutcome(ids: seq<int>, pos: Position, block: int): Outcome {
    var all := Extended(ids, block);
    if pos.AtLeast(SECTION_WIDTH) || pos.Below(0) then OutOfRange
    else if BlockBits(|all|) == 0 then Done
    else if BlockIdx(pos) >= SECTION_3D_SIZE || Find(all, block) > Pow2(BlockBits(|all|)) - 1 then OutOfRange
    else Done
  }

  ghost predicate OnlyIds(ids: seq<int>) {
    forall k :: 0 <= k < |ids| ==> IsBlockId(ids[k])
  }

  /** With protocol ids alone the palette never grows too large for a write inside the section. */
  lemma InsideWriteDone(ids: seq<int>, pos: Position, block: int)
    requires Distinct(ids)
    ensures OnlyIds(ids) && IsBlockId(block) ==>
              OnlyIds(Extended(ids, block)) && (Inside(pos) ==> WriteOutcome(ids, pos, block) == Done)
  {
    hide BlockIdx;
    var all := Extended(ids, block);
    if OnlyIds(ids) && IsBlockId(block) {
      DistinctBounded(all, MAX_LOCAL_IDS);
      if |all| > 1 { BlockBitsFit(|all|); }
    }
  }

  /** Does a position outside the section share its index with one inside? */
  ghost predicate Aliased(pos: Position) {
    exists q: Position :: Inside(q) && q != pos && BlockIdx(q) == BlockIdx(pos)
  }

  lemma AliasedIff(pos: Position)
    requires !Inside(pos)
    ensures Aliased(pos) <==> BlockIdx(pos) < SECTION_3D_SIZE
  {
    var i := BlockIdx(pos);
    if i < SECTION_3D_SIZE {
      var q := Position(i % 16, i / 256, i / 16 % 16);
      CellsAndPositions(i, q);
      assert Inside(q) && q != pos && BlockIdx(q) == i;
    }
  }

  /** The guard of setBlock is not the range check it looks like. A write outside the section is let through exactly
      when its coordinates are mixed and either it is of the only block the section ever held, or its index is that of
      an inside position and there is an index for its block. */
  lemma OutsideWriteIff(ids: seq<int>, pos: Position, block: int)
    requires Distinct(ids) && ids != [] && !Inside(pos)
    ensures WriteOutcome(ids, pos, block) == Done <==>
            && !pos.AtLeast(SECTION_WIDTH) && !pos.Below(0)
            && (ids == [block] || (Aliased(pos) && Find(ids, block) < MAX_LOCAL_IDS))
  {
    hide BlockIdx, BlockBits, Aliased;
    AliasedIff(pos);
    var all := Extended(ids, block);
    FindExtended(ids, block);
    if |all| > 1 { FitsIff(|all|, Find(ids, block)); }
    if |all| == 1 { assert ids[0] == block; }
  }

  lemma FindExtended(ids: seq<int>, block: int)
    ensures Find(Extended(ids, block), block) == Find(ids, block)
  {
    assert Extended(ids, block)[Find(ids, block)] == block;
  }

  /** An index of a palette fits the entries exactly when it is below 2^15. */
  lemma FitsIff(size: nat, index: nat)
    requires size > 1 && index < size
    ensures index <= Pow2(BlockBits(size)) - 1 <==> index < MAX_LOCAL_IDS
  {
    BlockBitsFit(size);
    Pow2Of15();
    Pow2Monotone(BlockBits(size), 15);
  }

  /** Of each kind one: a write that changes another cell, one that silently does nothing, and one that throws, with
      the same guard passed. */
  lemma OutsideWrites()
    ensures WriteOutcome([0], Position(16, 0, 0), 5) == Done
              && BlockIdx(Position(16, 0, 0)) == BlockIdx(Position(0, 0, 1))
    ensures WriteOutcome([0], Position(0, 16, 0), 0) == Done && !Aliased(Position(0, 16, 0))
    ensures WriteOutcome([0], Position(0, 16, 0), 5) == OutOfRange
  {
    hide Aliased;
    AliasedIff(Position(16, 0, 0));
    AliasedIff(Position(0, 16, 0));
    OutsideWriteIff([0], Position(16, 0, 0), 5);
    OutsideWriteIff([0], Position(0, 16, 0), 0);
    OutsideWriteIff([0], Position(0, 16, 0), 5);
  }

  /** Number of cells with some light. */
  ghost function Lit(levels: seq<nat>): nat {
    if levels == [] then 0 else Lit(levels[..|levels| - 1]) + (if levels[|levels| - 1] > 0 then 1 else 0)
  }

  lemma {:induction false} LitAfterUpdate(levels: seq<nat>, i: nat, level: nat)
    requires i < |levels|
    ensures Lit(levels[i := level]) == Lit(levels) - (if levels[i] > 0 then 1 else 0) + (if level > 0 then 1 else 0)
  {
    var last := |levels| - 1;
    if i < last {
      LitAfterUpdate(levels[..last], i, level);
      assert levels[i := level][..last] == levels[..last][i := level];
    } else {
      assert levels[i := level][..last] == levels[..last];
    }
  }

  lemma {:induction false} LitBound(levels: seq<nat>)
    ensures Lit(levels) <= |levels|
  {
    if levels != [] { LitBound(levels[..|levels| - 1]); }
  }

  lemma {:induction false} LitFull(levels: seq<nat>)
    requires forall i :: 0 <= i < |levels| ==> levels[i] > 0
    ensures Lit(levels) == |levels|
  {
    if levels != [] { LitFull(levels[..|levels| - 1]); }
  }

  function Decremented(count: nat): nat { (count - 1) % UINT64 }
  function Incremented(count: nat): nat { (count + 1) % UINT64 }

  /** The counter update of setSkyLight and setBlockLight, for an old level `l`. */
  function Recounted(count: nat, l: nat, light: nat): nat {
    if l != 0 && light == 0 then Decremented(count)
    else if l == 0 && light != 0 then Incremented(count)
    else count
  }

  /** One write into a light array keeps the counter equal to the number of lit cells. */
  lemma RecountedIsLit(levels: seq<nat>, i: nat, light: nat)
    requires i < |levels| < UINT64
    ensures Recounted(Lit(levels), levels[i], light) == Lit(levels[i := light])
  {
    LitAfterUpdate(levels, i, light);
    LitBound(levels);
    LitBound(levels[i := light]);
  }

  /** The two tests of the byte-wise recount tell whether the two 4-bit entries of the byte are nonzero. */
  lemma LowNibbleTest(byte: Word)
    requires |byte| == 8
    ensures Value(And(byte, Cast(0x0F, 8))) >= 1 <==> Value(Field(byte, 0, 4)) > 0
  {
    assert Pow2(4) == 16;
    assert ShiftRight(byte, 0) == byte;
  }

  lemma CastDouble(v: nat, width: nat)
    ensures Cast(2 * v, width + 1) == [false] + Cast(v, width)
  {}

  lemma HighMask()
    ensures Cast(0xF0, 8) == seq(8, i => i >= 4)
  {
    CastDouble(0x78, 7);
    CastDouble(0x3C, 6);
    CastDouble(0x1E, 5);
    CastDouble(0x0F, 4);
    var nibble := Cast(0x0F, 4);
    assert Cast(0xF0, 8) == [false, false, false, false] + nibble;
    LowNibbleFull();
  }

  lemma LowNibbleFull()
    ensures Cast(0x0F, 4) == seq(4, i => true)
  {
    assert Pow2(4) == 16;
    MaskBits(4, 4);
  }

  lemma HighNibbleTest(byte: Word)
    requires |byte| == 8
    ensures Value(And(byte, Cast(0xF0, 8))) >= 1 <==> Value(Field(byte, 4, 4)) > 0
  {
    HighMask();
    FieldBits(byte, 4, 4);
    var tested, field := And(byte, Cast(0xF0, 8)), Field(byte, 4, 4);
    ValueZero(tested);
    ValueZero(field);
    assert forall i :: 0 <= i < 4 ==> tested[i + 4] == field[i];
    assert forall i :: 4 <= i < 8 ==> tested[i] == field[i - 4];
  }

  lemma FullByte()
    ensures Cast(0xFF, 8) == seq(8, i => true)
  {
    assert Pow2(8) == 256;
    MaskBits(8, 8);
  }

  lemma FullNibble(offset: nat)
    requires offset == 0 || offset == 4
    ensures Value(Field(Cast(0xFF, 8), offset, 4)) == 15
  {
    FullByte();
    FieldBits(Cast(0xFF, 8), offset, 4);
    MaskBits(4, 8);
    assert Field(Cast(0xFF, 8), offset, 4) == Mask(4, 8);
    FifteenInFour();
  }

  lemma FifteenInFour()
    ensures Value(Mask(4, 8)) == 15
  {
    assert Pow2(4) == 16 && Pow2(8) == 256;
    ValueOfCast(15, 8);
  }

  /** A light array: 4096 levels of 4 bits, two in a byte. */
  ghost predicate LightArray(s: Storage)
    reads s
  {
    s.Valid() && s.StoreTypeSize == 8 && s.ArraySize == SECTION_3D_SIZE && s.valueSize == 4
  }

  lemma LightLayout(s: Storage, k: nat)
    requires LightArray(s) && k < 2048
    ensures |s.store| == 2048 && |s.store[k]| == 8
    ensures s.Contents()[2 * k] == Value(Field(s.store[k], 0, 4))
    ensures s.Contents()[2 * k + 1] == Value(Field(s.store[k], 4, 4))
  {
    hide Value, Field, WordOf, OffsetOf;
    assert s.StoreTypeSize / s.valueSize == 2;
    NibblePlaces(k);
  }

  lemma NibblePlaces(k: nat)
    ensures WordOf(2 * k, 2) == k && OffsetOf(2 * k, 2, 4) == 0
    ensures WordOf(2 * k + 1, 2) == k && OffsetOf(2 * k + 1, 2, 4) == 4
  {}

  function Nibbles(byte: Word): nat
    requires |byte| == 8
  {
    (if Value(And(byte, Cast(0xF0, 8))) >= 1 then 1 else 0) + (if Value(And(byte, Cast(0x0F, 8))) >= 1 then 1 else 0)
  }

  lemma LitOfByte(s: Storage, k: nat)
    requires LightArray(s) && k < 2048
    ensures |s.store| == 2048 && |s.store[k]| == 8
    ensures Lit(s.Contents()[..2 * k + 2]) == Lit(s.Contents()[..2 * k]) + Nibbles(s.store[k])
  {
    hide Field, Value, Cast, And;
    LightLayout(s, k);
    LowNibbleTest(s.store[k]);
    HighNibbleTest(s.store[k]);
    LitOfTwo(s.Contents(), 2 * k);
  }

  lemma LitOfTwo(levels: seq<nat>, i: nat)
    requires i + 2 <= |levels|
    ensures Lit(levels[..i + 2]) == Lit(levels[..i]) + (if levels[i] > 0 then 1 else 0)
              + (if levels[i + 1] > 0 then 1 else 0)
  {
    assert levels[..i + 2][..i + 1] == levels[..i + 1];
    assert levels[..i + 1][..i] == levels[..i];
  }

  /** The recount loop of recalculateSkyLightCount and recalculateBlockLightCount. */
  method RecountLight(s: Storage) returns (count: nat)
    requires LightArray(s)
    ensures count == Lit(s.Contents())
  {
    LightLayout(s, 0);
    count := 0;
    var k := 0;
    while k < |s.store|
      invariant 0 <= k <= |s.store|
      invariant count == Lit(s.Contents()[..2 * k])
    {
      LitOfByte(s, k);
      count := count + Nibbles(s.store[k]);
      k := k + 1;
    }
    assert s.Contents()[..2 * k] == s.Contents();
  }

  method NewLight() returns (s: Storage)
    ensures fresh(s) && LightArray(s) && Lit(s.Contents()) == 0
  {
    s := new Storage(8, SECTION_3D_SIZE, 4);
    LitOfZeros(s.Contents());
  }

  /** Full light in every byte. */
  method FillLight(s: Storage)
    requires LightArray(s)
    modifies s
    ensures LightArray(s) && s.Contents() == seq(SECTION_3D_SIZE, i => 15)
  {
    hide Cast, Field, Value;
    LightLayout(s, 0);
    s.store := seq(|s.store|, i => Cast(0xFF, 8));
    FullNibble(0);
    FullNibble(4);
    forall i | 0 <= i < SECTION_3D_SIZE ensures s.Contents()[i] == 15 {
      assert i == 2 * (i / 2) || i == 2 * (i / 2) + 1;
      LightLayout(s, i / 2);
    }
  }

  ghost predicate AllBelow(contents: seq<nat>, n: nat) {
    forall i :: 0 <= i < |contents| ==> contents[i] < n
  }

  /** Local ids replaced by the global ids of the palette. */
  ghost function Named(contents: seq<nat>, ids: seq<int>): (b: seq<int>)
    requires AllBelow(contents, |ids|)
    ensures |b| == |contents|
  {
    seq(|contents|, i requires 0 <= i < |contents| => ids[contents[i]])
  }

  /** Writing the local id of a block writes the block; with a single id in the palette nothing needs writing. */
  lemma NamedUpdate(contents: seq<nat>, ids: seq<int>, idx: nat, block: int)
    requires AllBelow(contents, |ids|) && idx < |contents| && Find(ids, block) < |ids|
    ensures AllBelow(contents[idx := Find(ids, block)], |ids|)
    ensures Named(contents[idx := Find(ids, block)], ids) == Named(contents, ids)[idx := block]
    ensures |ids| == 1 ==> Named(contents, ids) == Named(contents, ids)[idx := block]
  {}

  /** A block array: 4096 local ids of the palette, in the width the palette asks for. */
  ghost predicate BlockArray(blocks: Storage, palette: BlockPalette)
    reads blocks, palette
  {
    && blocks.Valid() && blocks.StoreTypeSize == 64 && blocks.ArraySize == SECTION_3D_SIZE
    && palette.Valid()
    && blocks.valueSize == palette.GetBits()
    && AllBelow(blocks.Contents(), |palette.nameToId|)
  }

  method NewBlocks() returns (blocks: Storage, palette: BlockPalette)
    ensures fresh(blocks) && fresh(palette) && BlockArray(blocks, palette)
    ensures blocks.Contents() == seq(SECTION_3D_SIZE, i => 0) && palette.nameToId == [0]
  {
    blocks := new Storage(64, SECTION_3D_SIZE, 0);
    palette := new BlockPalette();
    assert AllBelow(blocks.Contents(), 1);
  }

  class Section {
    const blocks: Storage
    const blockPalette: BlockPalette
    const skyLight: Storage
    const blockLight: Storage
    var skyLightCount: nat
    var blockLightCount: nat

    ghost function Footprint(): set<object> {
      {this, blocks, blockPalette, skyLight, blockLight}
    }

    ghost predicate Valid()
      reads Footprint()
    {
      && blocks != skyLight && blocks != blockLight && skyLight != blockLight
      && BlockArray(blocks, blockPalette)
      && LightArray(skyLight) && LightArray(blockLight)
    }

    /** The block ids the section stands for, cell by cell. */
    ghost function Blocks(): (b: seq<int>)
      requires Valid()
      reads Footprint()
      ensures |b| == SECTION_3D_SIZE
    {
      Named(blocks.Contents(), blockPalette.nameToId)
    }

    ghost predicate OnlyBlockIds()
      reads blockPalette
    {
      OnlyIds(blockPalette.nameToId)
    }

    ghost predicate LightCounted()
      requires Valid()
      reads Footprint()
    {
      skyLightCount == Lit(skyLight.Contents()) && blockLightCount == Lit(blockLight.Contents())
    }

    constructor ()
      ensures Valid() && fresh(Footprint())
      ensures Blocks() == seq(SECTION_3D_SIZE, i => 0)
      ensures OnlyBlockIds() && LightCounted()
    {
      hide Storage.Valid, Storage.Contents, BlockPalette.Valid;
      var local, ids := NewBlocks();
      blocks, blockPalette := local, ids;
      var sky := NewLight();
      var block := NewLight();
      skyLight, blockLight := sky, block;
      skyLightCount, blockLightCount := 0, 0;
    }

    ghost function SetBlockOutcome(pos: Position, block: int): Outcome
      reads blockPalette
    {
      WriteOutcome(blockPalette.nameToId, pos, block)
    }

    /** The blocks after a write. */
    ghost function Written(pos: Position, block: int): (b: seq<int>)
      requires Valid()
      reads Footprint()
    {
      if SetBlockOutcome(pos, block) == Done && BlockIdx(pos) < SECTION_3D_SIZE then Blocks()[BlockIdx(pos) := block]
          else Blocks()
    }

    /** A write changes the one cell and nothing else; a write that throws changes no cell, though its block may stay in
        the palette. With block ids below 2^15 a write inside the section never throws. */
    method SetBlock(pos: Position, block: int) returns (r: Outcome)
      requires Valid()
      modifies blocks, blockPalette
      ensures Valid()
      ensures r == old(SetBlockOutcome(pos, block))
      ensures Blocks() == old(Written(pos, block))
      ensures blockPalette.nameToId == if pos.AtLeast(SECTION_WIDTH) || pos.Below(0) then old(blockPalette.nameToId)
                                       else Extended(old(blockPalette.nameToId), block)
      ensures old(OnlyBlockIds()) && IsBlockId(block) ==> OnlyBlockIds() && (Inside(pos) ==> r == Done)
    {
      hide Storage.Valid, Storage.Contents, Named, BlockIdx, BlockBits, Distinct, Extended, AllBelow, OnlyIds,
           IsBlockId;
      InsideWriteDone(blockPalette.nameToId, pos, block);
      if pos.AtLeast(SECTION_WIDTH) || pos.Below(0) { return OutOfRange; }
      var idx := BlockIdx(pos);
      Register(block);
      ghost var contents := blocks.Contents();
      r := blocks.Set(idx, blockPalette.GetId(block));
      if idx < SECTION_3D_SIZE {
        NamedUpdate(contents, blockPalette.nameToId, idx, block);
      }
    }

    /** The palette step of setBlock: make room for `block`, and widen the entries if the width changed. */
    method Register(block: int)
      requires Valid()
      modifies blocks, blockPalette
      ensures Valid() && Blocks() == old(Blocks())
      ensures blockPalette.nameToId == Extended(old(blockPalette.nameToId), block)
    {
      ghost var contents, oldIds := blocks.Contents(), blockPalette.nameToId;
      var oldBits := blockPalette.GetBits();
      blocks.ContentsBound();
      blockPalette.Add(block);
      assert blocks.Contents() == contents;
      if oldBits != blockPalette.GetBits() && blockPalette.GetBits() != 0 {
        ContentsFit(contents, |oldIds|, |blockPalette.nameToId|, oldBits);
        var done := blocks.SetValueSize(blockPalette.GetBits());
        assert done == Done;
      }
      assert blocks.Contents() == contents;
    }

    /** What reading a position gives, in the section or not. */
    ghost function BlockRead(pos: Position): Read<int>
      requires Valid()
      reads Footprint()
    {
      if pos.AtLeast(SECTION_WIDTH) then BadIndex
      else if blockPalette.GetBits() == 0 then Got(0)
      else if BlockIdx(pos) >= SECTION_3D_SIZE then BadIndex
      else Got(Blocks()[BlockIdx(pos)])
    }

    method GetBlock(pos: Position) returns (r: Read<int>)
      requires Valid()
      ensures r == BlockRead(pos)
      ensures Inside(pos) ==> r == Got(Blocks()[BlockIdx(pos)])
    {
      if pos.AtLeast(SECTION_WIDTH) { return BadIndex; }
      if blocks.valueSize == 0 { return Got(0); }
      var local := blocks.Get(BlockIdx(pos));
      if local.BadIndex? { return BadIndex; }
      r := Got(blockPalette.GetGlobalId(local.value));
    }

    /** The level is written and the counter follows it. A level above 15 is refused by the storage, but
        only after the counter has moved. */
    method SetSkyLight(pos: Position, light: nat) returns (r: Outcome)
      requires Valid()
      modifies this`skyLightCount, skyLight
      ensures Valid() && Blocks() == old(Blocks())
      ensures r == if BlockIdx(pos) >= SECTION_3D_SIZE || light > 15 then OutOfRange else Done
      ensures skyLight.Contents() == if r == Done then old(skyLight.Contents())[BlockIdx(pos) := light]
                else old(skyLight.Contents())
      ensures skyLightCount == if BlockIdx(pos) >= SECTION_3D_SIZE then old(skyLightCount)
                               else Recounted(old(skyLightCount), old(skyLight.Contents()[BlockIdx(pos)]), light)
      ensures old(LightCounted()) ==>
                (LightCounted() <==>
                   r == Done || BlockIdx(pos) >= SECTION_3D_SIZE || old(skyLight.Contents()[BlockIdx(pos)]) != 0)
      ensures old(LightCounted()) && light <= 15 ==> LightCounted()
    {
      hide Storage.Valid, Storage.Contents, Named, BlockPalette.Valid, AllBelow, Lit, BlockIdx;
      ghost var levels := skyLight.Contents();
      Pow2Of4();
      var idx := BlockIdx(pos);
      var l := skyLight.Get(idx);
      if l.BadIndex? { return OutOfRange; }
      if l.value != 0 && light == 0 { skyLightCount := Decremented(skyLightCount); }
      if l.value == 0 && light != 0 { skyLightCount := Incremented(skyLightCount); }
      r := skyLight.Set(idx, light);
      RecountedIsLit(levels, idx, light);
      LitAfterUpdate(levels, idx, light);
      assert blocks.Contents() == old(blocks.Contents());
    }

    /** As SetSkyLight, except that reading the old level first rejects positions with all coordinates too large. */
    method SetBlockLight(pos: Position, light: nat) returns (r: Outcome)
      requires Valid()
      modifies this`blockLightCount, blockLight
      ensures Valid() && Blocks() == old(Blocks())
      ensures r == if pos.AtLeast(SECTION_WIDTH) || BlockIdx(pos) >= SECTION_3D_SIZE || light > 15 then OutOfRange
                else Done
      ensures blockLight.Contents() == if r == Done then old(blockLight.Contents())[BlockIdx(pos) := light]
                else old(blockLight.Contents())
      ensures blockLightCount == if pos.AtLeast(SECTION_WIDTH) || BlockIdx(pos) >= SECTION_3D_SIZE
                then old(blockLightCount)
                                 else Recounted(old(blockLightCount), old(blockLight.Contents()[BlockIdx(pos)]), light)
      ensures old(LightCounted()) ==>
                (LightCounted() <==> r == Done || pos.AtLeast(SECTION_WIDTH) || BlockIdx(pos) >= SECTION_3D_SIZE
                                     || old(blockLight.Contents()[BlockIdx(pos)]) != 0)
      ensures old(LightCounted()) && light <= 15 ==> LightCounted()
    {
      hide Storage.Valid, Storage.Contents, Named, BlockPalette.Valid, AllBelow, Lit, BlockIdx;
      ghost var levels := blockLight.Contents();
      Pow2Of4();
      if pos.AtLeast(SECTION_WIDTH) { return OutOfRange; }
      var idx := BlockIdx(pos);
      var l := blockLight.Get(idx);
      if l.BadIndex? { return OutOfRange; }
      if l.value != 0 && light == 0 { blockLightCount := Decremented(blockLightCount); }
      if l.value == 0 && light != 0 { blockLightCount := Incremented(blockLightCount); }
      r := blockLight.Set(idx, light);
      RecountedIsLit(levels, idx, light);
      LitAfterUpdate(levels, idx, light);
      assert blocks.Contents() == old(blocks.Contents());
    }

    method RecalculateSkyLightCount()
      requires Valid()
      modifies this`skyLightCount
      ensures Valid() && skyLightCount == Lit(skyLight.Contents())
    {
      skyLightCount := RecountLight(skyLight);
    }

    method RecalculateBlockLightCount()
      requires Valid()
      modifies this`blockLightCount
      ensures Valid() && blockLightCount == Lit(blockLight.Contents())
    {
      blockLightCount := RecountLight(blockLight);
    }

    /** Every byte becomes 0xFF: full light everywhere, and the counter says so. */
    method RecalculateSkyLight()
      requires Valid()
      modifies this`skyLightCount, skyLight
      ensures Valid() && Blocks() == old(Blocks())
      ensures skyLight.Contents() == seq(SECTION_3D_SIZE, i => 15) && skyLightCount == SECTION_3D_SIZE
    {
      hide Storage.Valid, Storage.Contents, Named, BlockPalette.Valid, AllBelow, Lit;
      FillLight(skyLight);
      LitFull(skyLight.Contents());
      assert blocks.Contents() == old(blocks.Contents());
      RecalculateSkyLightCount();
    }
  }

  /** A write outside the section changes a cell exactly when it is let through, its index is that of an inside position
      and another block is there; then it changes that position and no other. Otherwise, let through or not, it does
      nothing. */
  lemma OutsideWriteChanges(s: Section, pos: Position, block: int)
    requires s.Valid() && !Inside(pos)
    ensures s.Written(pos, block) != s.Blocks() <==>
            s.SetBlockOutcome(pos, block) == Done && Aliased(pos) && s.Blocks()[BlockIdx(pos)] != block
    ensures forall q: Position :: Inside(q) ==>
              s.Written(pos, block)[BlockIdx(q)] == if s.SetBlockOutcome(pos, block) == Done
                  && BlockIdx(q) == BlockIdx(pos) then block
                                                    else s.Blocks()[BlockIdx(q)]
  {
    hide Section.Valid, Section.Blocks, WriteOutcome, BlockIdx, Aliased;
    AliasedIff(pos);
    if BlockIdx(pos) < SECTION_3D_SIZE {
      assert s.Blocks()[BlockIdx(pos) := block][BlockIdx(pos)] == block;
    }
  }

  lemma Pow2Of4()
    ensures Pow2(4) == 16
  {}

  datatype Write = Write(pos: Position, block: int)

  predicate LegalWrite(w: Write) {
    Inside(w.pos) && IsBlockId(w.block)
  }

  /** The block a cell holds after a run of writes: that of the last write to it. */
  function LastWrite(writes: seq<Write>, idx: nat, initial: int): int {
    if writes == [] then initial
    else
      var w := writes[|writes| - 1];
      if BlockIdx(w.pos) == idx then w.block else LastWrite(writes[..|writes| - 1], idx, initial)
  }

  /** A client that writes any sequence of blocks: no call throws, and every cell then reads its last write,
      however often the palette grew and the entries were re-packed on the way. */
  method WriteAll(section: Section, writes: seq<Write>) returns (noThrow: bool)
    requires section.Valid() && section.OnlyBlockIds()
    requires forall k :: 0 <= k < |writes| ==> LegalWrite(writes[k])
    modifies section.blocks, section.blockPalette
    ensures section.Valid() && section.OnlyBlockIds() && noThrow
    ensures forall i :: 0 <= i < SECTION_3D_SIZE ==>
              section.Blocks()[i] == LastWrite(writes, i, old(section.Blocks()[i]))
  {
    hide Section.Valid, Section.Blocks, Section.OnlyBlockIds, BlockIdx;
    noThrow := true;
    for k := 0 to |writes|
      invariant section.Valid() && section.OnlyBlockIds() && noThrow
      invariant forall i :: 0 <= i < SECTION_3D_SIZE ==>
                  section.Blocks()[i] == LastWrite(writes[..k], i, old(section.Blocks()[i]))
    {
      assert LegalWrite(writes[k]);
      var r := section.SetBlock(writes[k].pos, writes[k].block);
      noThrow := noThrow && r == Done;
      assert writes[..k + 1][..k] == writes[..k];
    }
    assert writes[..|writes|] == writes;
  }

  datatype Light = Sky(pos: Position, level: nat) | Block(pos: Position, level: nat)

  /** A client that sets any sequence of light levels from 0 to 15, anywhere: whatever is refused on the way, both
      counters are the numbers of lit cells in the end, and the blocks are as before. */
  method LightAll(section: Section, lights: seq<Light>)
    requires section.Valid() && section.LightCounted()
    requires forall k :: 0 <= k < |lights| ==> lights[k].level <= 15
    modifies section, section.skyLight, section.blockLight
    ensures section.Valid() && section.LightCounted() && section.Blocks() == old(section.Blocks())
  {
    hide Section.Valid, Section.Blocks, BlockIdx, Recounted;
    for k := 0 to |lights|
      invariant section.Valid() && section.LightCounted() && section.Blocks() == old(section.Blocks())
    {
      match lights[k]
      case Sky(pos, level) => var r := section.SetSkyLight(pos, level);
      case Block(pos, level) => var r := section.SetBlockLight(pos, level);
    }
  }

  lemma {:induction false} LitOfZeros(levels: seq<nat>)
    requires forall i :: 0 <= i < |levels| ==> levels[i] == 0
    ensures Lit(levels) == 0
  {
    if levels != [] { LitOfZeros(levels[..|levels| - 1]); }
  }

  /** Indices into a smaller palette fit the width of a larger one. */
  lemma ContentsFit(contents: seq<nat>, oldSize: nat, newSize: nat, oldBits: nat)
    requires oldSize <= newSize && newSize > 1 && oldBits <= 15
    requires AllBelow(contents, oldSize)
    requires oldBits > 0 ==> AllBelow(contents, Pow2(oldBits))
    requires oldBits == 0 ==> oldSize <= 1
    ensures AllBelow(contents, Pow2(BlockBits(newSize)))
  {
    BlockBitsFit(newSize);
    if BlockBits(newSize) == 15 { Pow2Monotone(oldBits, 15); }
  }
}
