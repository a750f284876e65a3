/** A chunk column of world_storage/ChunkColumn.cpp: 26 sections, of which the first holds y = -80..-65. */
module Columns {
  import opened Positions
  import opened DynamicStorage
  import opened Sections

  const CHUNK_HEIGHT_MIN := -64
  const CHUNK_HEIGHT_MAX := 320
  const NB_OF_SECTIONS := 26

  /** The stages of generation, in order. */
  datatype GenerationState =
    | INITIALIZED | RAW_GENERATION | LAKES | LOCAL_MODIFICATIONS | UNDERGROUND_STRUCTURES | SURFACE_STRUCTURES
    | STRONGHOLDS | UNDERGROUND_ORES | UNDERGROUND_DECORATION | FLUID_SPRINGS | VEGETAL_DECORATION
    | TOP_LAYER_MODIFICATION | READY

  predicate InColumn(pos: Position) {
    0 <= pos.x < SECTION_WIDTH && 0 <= pos.z < SECTION_WIDTH && CHUNK_HEIGHT_MIN <= pos.y < CHUNK_HEIGHT_MAX
  }

  /** The positions that have a cell: those of the column, and 16 more layers on top. */
  predicate InTower(pos: Position) {
    0 <= pos.x < SECTION_WIDTH && 0 <= pos.z < SECTION_WIDTH
        && CHUNK_HEIGHT_MIN <= pos.y < CHUNK_HEIGHT_MAX + SECTION_WIDTH
  }

  /** The section of a height: a truncating division, then a conversion to uint8_t. */
  function SectionIndex(pos: Position): (i: nat)
    ensures InTower(pos) ==> 1 <= i < NB_OF_SECTIONS
  {
    TruncDiv(pos.y - CHUNK_HEIGHT_MIN + SECTION_WIDTH, SECTION_WIDTH) % 256
  }

  function InSection(pos: Position): (local: Position)
    ensures InTower(pos) ==> Inside(local)
  {
    Position(pos.x, pos.y - CHUNK_HEIGHT_MIN, pos.z).Rem(SECTION_WIDTH)
  }

  /** Do two positions of a column address the same cell of the same section? */
  predicate SameCell(p: Position, q: Position) {
    SectionIndex(p) == SectionIndex(q) && BlockIdx(InSection(p)) == BlockIdx(InSection(q))
  }

  /** The conversion to uint8_t repeats after 256 sections. */
  predicate WrapsAround(d: int) {
    d % 4096 == 0
  }

  /** Above the world floor the conversion to uint8_t makes heights 4096 apart the same cell, and no others. */
  lemma HeightsAlias(p: Position, q: Position)
    requires 0 <= p.x < SECTION_WIDTH && 0 <= p.z < SECTION_WIDTH && CHUNK_HEIGHT_MIN <= p.y
    requires 0 <= q.x < SECTION_WIDTH && 0 <= q.z < SECTION_WIDTH && CHUNK_HEIGHT_MIN <= q.y
    ensures SameCell(p, q) <==> p.x == q.x && p.z == q.z && WrapsAround(p.y - q.y)
  {
    hide BlockIdx, SectionIndex, InSection, SectionOf, RowOf, WrapsAround, Inside;
    CellOf(p);
    CellOf(q);
    CellsInjective(InSection(p), InSection(q));
    SplitHeight(p.y + 64, q.y + 64);
    assert p.y + 64 - (q.y + 64) == p.y - q.y;
  }

  /** Section and row of a height above the world floor. */
  function SectionOf(a: nat): int { (a / 16 + 1) % 256 }
  function RowOf(a: nat): int { a % 16 }

  lemma CellOf(p: Position)
    requires 0 <= p.x < SECTION_WIDTH && 0 <= p.z < SECTION_WIDTH && CHUNK_HEIGHT_MIN <= p.y
    ensures Inside(InSection(p)) && InSection(p) == Position(p.x, RowOf(p.y + 64), p.z)
    ensures SectionIndex(p) == SectionOf(p.y + 64)
  {
    hide BlockIdx, TruncRem, TruncDiv;
    NextSection(p.y + 64);
  }

  lemma NextSection(a: nat)
    ensures (a + 16) / 16 == a / 16 + 1
  {}

  lemma SplitHeight(a: nat, b: nat)
    ensures SectionOf(a) == SectionOf(b) && RowOf(a) == RowOf(b) <==> WrapsAround(a - b)
  {
    if SectionOf(a) == SectionOf(b) && RowOf(a) == RowOf(b) { SameCellApart(a, b); }
    if WrapsAround(a - b) { ApartSameCell(b, (a - b) / 4096); }
  }

  lemma SameCellApart(a: nat, b: nat)
    requires SectionOf(a) == SectionOf(b) && RowOf(a) == RowOf(b)
    ensures WrapsAround(a - b)
  {
    var k := (a / 16 + 1) / 256 - (b / 16 + 1) / 256;
    assert a - b == 4096 * k;
  }

  lemma ApartSameCell(b: nat, k: int)
    requires b + 4096 * k >= 0
    ensures SectionOf(b + 4096 * k) == SectionOf(b) && RowOf(b + 4096 * k) == RowOf(b)
  {
    assert (b + 4096 * k) / 16 == b / 16 + 256 * k;
  }

  /** No two positions of a column, or above it, share a cell. */
  lemma CellsDistinct(p: Position, q: Position)
    requires InTower(p) && InTower(q)
    ensures SameCell(p, q) <==> p == q
  {
    hide SectionIndex, InSection, BlockIdx, SameCell;
    HeightsAlias(p, q);
    assert -4096 < p.y - q.y < 4096;
  }

  /** Where a position of the column is kept: section 1 holds y = -64..-49 and so on up to section 24 with 304..319,
      and in a section x changes fastest, then z, then y. */
  lemma CellInNumbers(p: Position)
    ensures InColumn(p) <==> 0 <= p.x < 16 && -64 <= p.y < 320 && 0 <= p.z < 16
    ensures InColumn(p) ==> SectionIndex(p) == (p.y + 80) / 16 && 1 <= SectionIndex(p) <= 24
    ensures InColumn(p) ==> BlockIdx(InSection(p)) == p.x + 16 * p.z + 256 * ((p.y + 64) % 16)
  {
    if InColumn(p) {
      hide BlockIdx;
      CellOf(p);
      InsideIdx(InSection(p));
    }
  }

  /** Fresh, empty sections that share nothing. */
  method NewSections() returns (list: seq<Section>, ghost repr: set<object>)
    ensures |list| == NB_OF_SECTIONS && fresh(repr)
    ensures forall i :: 0 <= i < |list| ==> list[i].Footprint() <= repr
    ensures forall i, j :: 0 <= i < j < |list| ==> list[i].Footprint() !! list[j].Footprint()
    ensures forall i :: 0 <= i < |list| ==>
              list[i].Valid() && list[i].OnlyBlockIds() && list[i].Blocks() == seq(SECTION_3D_SIZE, k => 0)
  {
    hide Section.Valid, Section.Blocks, Section.OnlyBlockIds, Section.Footprint;
    list, repr := [], {};
    while |list| < NB_OF_SECTIONS
      invariant |list| <= NB_OF_SECTIONS
      invariant fresh(repr)
      invariant forall i :: 0 <= i < |list| ==> list[i].Footprint() <= repr
      invariant forall i, j :: 0 <= i < j < |list| ==> list[i].Footprint() !! list[j].Footprint()
      invariant forall i :: 0 <= i < |list| ==>
                  list[i].Valid() && list[i].OnlyBlockIds() && list[i].Blocks() == seq(SECTION_3D_SIZE, k => 0)
    {
      var section := new Section();
      list := list + [section];
      repr := repr + section.Footprint();
    }
  }

  class ChunkColumn {
    const sections: seq<Section>
    var currentState: GenerationState
    ghost const Repr: set<object>

    ghost predicate Valid()
      reads Repr
    {
      && |sections| == NB_OF_SECTIONS
      && this in Repr
      && (forall i, j :: 0 <= i < j < |sections| ==> sections[i].Footprint() !! sections[j].Footprint())
      && (forall i :: 0 <= i < |sections| ==> this !in sections[i].Footprint() && sections[i].Footprint() <= Repr)
      && (forall i :: 0 <= i < |sections| ==> sections[i].Valid())
    }

    /** A column that only ever got block ids of the protocol. */
    ghost predicate Sound(): (sound: bool)
      reads Repr
      ensures sound ==> Valid()
    {
      Valid() && forall i :: 0 <= i < |sections| ==> sections[i].OnlyBlockIds()
    }

    ghost function BlockAt(pos: Position): int
      requires Valid() && InTower(pos)
      reads Repr
    {
      sections[SectionIndex(pos)].Blocks()[BlockIdx(InSection(pos))]
    }

    /** All cells above the floor, as a plain map from positions to block ids. */
    ghost function Tower(): (t: imap<Position, int>)
      requires Valid()
      reads Repr
      ensures forall p: Position :: p in t <==> InTower(p)
      ensures forall p: Position :: InTower(p) ==> t[p] == BlockAt(p)
    {
      imap pos: Position | InTower(pos) :: BlockAt(pos)
    }

    /** The column as a plain map from positions to block ids. */
    ghost function Blocks(): (b: imap<Position, int>)
      requires Valid()
      reads Repr
      ensures forall p: Position :: p in b <==> InColumn(p)
      ensures forall p: Position :: InColumn(p) ==> b[p] == BlockAt(p)
    {
      imap pos: Position | InColumn(pos) :: BlockAt(pos)
    }

    constructor ()
      ensures Sound() && fresh(Repr)
      ensures Blocks() == imap pos: Position | InColumn(pos) :: 0
      ensures currentState == INITIALIZED
    {
      hide Section.Valid, Section.Blocks, Section.OnlyBlockIds, Section.Footprint, SectionIndex, InSection, BlockIdx;
      var list, repr := NewSections();
      sections := list;
      currentState := INITIALIZED;
      Repr := {this} + repr;
    }

    /** Whether a write throws. */
    ghost function UpdateOutcome(pos: Position, id: int): Outcome
      requires Valid()
      reads Repr
    {
      if SectionIndex(pos) >= NB_OF_SECTIONS then OutOfRange
          else sections[SectionIndex(pos)].SetBlockOutcome(InSection(pos), id)
    }

    /** One write into one section, as the other sections see it. */
    method WriteSection(i: nat, local: Position, id: int) returns (r: Outcome)
      requires Valid() && i < NB_OF_SECTIONS
      modifies Repr - {this}
      ensures Valid() && (old(Sound()) && IsBlockId(id) ==> Sound() && (Inside(local) ==> r == Done))
      ensures r == old(sections[i].SetBlockOutcome(local, id))
      ensures sections[i].Blocks() == if r == Done && BlockIdx(local) < SECTION_3D_SIZE
                then old(sections[i].Blocks())[BlockIdx(local) := id]
                                      else old(sections[i].Blocks())
      ensures forall j :: 0 <= j < |sections| && j != i ==> sections[j].Blocks() == old(sections[j].Blocks())
    {
      hide Section.Valid, Section.Blocks, Section.OnlyBlockIds, Section.SetBlockOutcome;
      var section := sections[i];
      r := section.SetBlock(local, id);
      forall j | 0 <= j < |sections| && j != i
        ensures sections[j].Valid() && sections[j].Blocks() == old(sections[j].Blocks())
        ensures sections[j].OnlyBlockIds() == old(sections[j].OnlyBlockIds())
      {
        assert sections[j].Footprint() !! section.Footprint();
      }
    }

    /** A write anywhere, cell by cell. */
    method WriteCell(pos: Position, id: int) returns (r: Outcome)
      requires Valid()
      modifies Repr - {this}
      ensures Valid() && (old(Sound()) && IsBlockId(id) ==> Sound() && (InTower(pos) ==> r == Done))
      ensures r == old(UpdateOutcome(pos, id))
      ensures forall q :: InTower(q) ==> BlockAt(q) == if r == Done && SameCell(q, pos) then id else old(BlockAt(q))
    {
      hide Section.Valid, Section.Blocks, Section.OnlyBlockIds, Section.SetBlockOutcome, SectionIndex, InSection,
           BlockIdx, Sound;
      if SectionIndex(pos) >= NB_OF_SECTIONS { return OutOfRange; }
      r := WriteSection(SectionIndex(pos), InSection(pos), id);
    }

    /** In the column and in the layers on top, a write that does not throw is a point update of the map, and a block
        id of the protocol never throws. Anywhere else a write changes the one position whose cell it addresses, if
        there is one. */
    method UpdateBlock(pos: Position, id: int) returns (r: Outcome)
      requires Valid()
      modifies Repr - {this}
      ensures Valid() && (old(Sound()) && IsBlockId(id) ==> Sound() && (InTower(pos) ==> r == Done))
      ensures r == old(UpdateOutcome(pos, id))
      ensures forall q :: InTower(q) ==> BlockAt(q) == if r == Done && SameCell(q, pos) then id else old(BlockAt(q))
      ensures InColumn(pos) ==> Blocks() == if r == Done then old(Blocks())[pos := id] else old(Blocks())
      ensures InTower(pos) ==> Tower() == if r == Done then old(Tower())[pos := id] else old(Tower())
    {
      hide Valid, Sound, BlockAt, UpdateOutcome, SameCell;
      r := WriteCell(pos, id);
      if InTower(pos) {
        forall q | InTower(q) ensures SameCell(q, pos) <==> q == pos { CellsDistinct(q, pos); }
      }
    }

    /** What reading a position gives, in the column or not. */
    ghost function BlockRead(pos: Position): Read<int>
      requires Valid()
      reads Repr
    {
      if SectionIndex(pos) >= NB_OF_SECTIONS then BadIndex else sections[SectionIndex(pos)].BlockRead(InSection(pos))
    }

    method GetBlock(pos: Position) returns (r: Read<int>)
      requires Valid()
      ensures r == BlockRead(pos)
      ensures InTower(pos) ==> r == Got(BlockAt(pos))
    {
      hide Section.Valid, Section.Blocks, Section.BlockRead, SectionIndex, InSection, BlockIdx;
      if SectionIndex(pos) >= NB_OF_SECTIONS { return BadIndex; }
      r := sections[SectionIndex(pos)].GetBlock(InSection(pos));
    }
  }
}
