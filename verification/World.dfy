/** The chunk columns of one dimension (world_storage/Level.cpp) and block updates by world position
    (Dimension::updateBlock). */
module World {
  import opened Positions
  import opened DynamicStorage
  import opened Sections
  import opened Columns

  type ChunkPos = (int, int)

  function TransformBlockPosToChunkPos(x: int): int {
    if x < 0 then -1 + TruncDiv(x + 1, 16) else TruncDiv(x, 16)
  }

  function TransformChunkPosToRegionPos(x: int): int {
    if x < 0 then -1 + TruncDiv(x + 1, 32) else TruncDiv(x, 32)
  }

  /** The remainder of updateBlock, moved up when it came out negative. */
  function LocalCoordinate(x: int): int {
    var r := TruncRem(x, 16);
    if r < 0 then r + 16 else r
  }

  /** Conversion of an int64 coordinate to the int parameter of getChunkColumnFromBlockPos. */
  function ToInt32(x: int): (r: int)
    ensures -0x8000_0000 <= r < 0x8000_0000
    ensures -0x8000_0000 <= x < 0x8000_0000 ==> r == x
  {
    (x + 0x8000_0000) % 0x1_0000_0000 - 0x8000_0000
  }

  /** The truncating formulas are floor division and modulus, on both sides of zero. */
  lemma CoordinatesAreFloorAndMod(x: int)
    ensures TransformBlockPosToChunkPos(x) == x / 16 && LocalCoordinate(x) == x % 16
    ensures x == 16 * TransformBlockPosToChunkPos(x) + LocalCoordinate(x)
    ensures TransformChunkPosToRegionPos(x) == x / 32
  {}

  predicate Addressable(pos: Position) {
    && -0x8000_0000 <= pos.x < 0x8000_0000
    && -0x8000_0000 <= pos.z < 0x8000_0000
    && CHUNK_HEIGHT_MIN <= pos.y < CHUNK_HEIGHT_MAX
  }

  function ChunkOf(pos: Position): ChunkPos {
    (TransformBlockPosToChunkPos(ToInt32(pos.x)), TransformBlockPosToChunkPos(ToInt32(pos.z)))
  }

  /** The position an update really addresses: x and z are cut to 32 bits. */
  function Addressed(pos: Position): Position {
    Position(ToInt32(pos.x), pos.y, ToInt32(pos.z))
  }

  lemma AddressedSameCell(pos: Position)
    ensures ChunkOf(pos) == ChunkOf(Addressed(pos)) && Local(pos) == Local(Addressed(pos))
    ensures Addressable(pos) ==> Addressed(pos) == pos
    ensures CHUNK_HEIGHT_MIN <= pos.y < CHUNK_HEIGHT_MAX ==> Addressable(Addressed(pos))
  {
    hide ToInt32, TransformBlockPosToChunkPos, LocalCoordinate;
    CutCoordinate(pos.x);
    CutCoordinate(pos.z);
  }

  lemma CutCoordinate(x: int)
    ensures ToInt32(ToInt32(x)) == ToInt32(x) && LocalCoordinate(ToInt32(x)) == LocalCoordinate(x)
  {
    hide TransformBlockPosToChunkPos, LocalCoordinate;
    CoordinatesAreFloorAndMod(x);
    CoordinatesAreFloorAndMod(ToInt32(x));
    var k := 0x1000_0000 * ((x + 0x8000_0000) / 0x1_0000_0000);
    assert ToInt32(x) == x - 16 * k;
    SameRemainder(x, k);
  }

  lemma SameRemainder(x: int, k: int)
    ensures (x - 16 * k) % 16 == x % 16
  {}

  function Local(pos: Position): (local: Position)
    ensures CHUNK_HEIGHT_MIN <= pos.y < CHUNK_HEIGHT_MAX <==> InColumn(local)
  {
    CoordinatesAreFloorAndMod(pos.x);
    CoordinatesAreFloorAndMod(pos.z);
    Position(LocalCoordinate(pos.x), pos.y, LocalCoordinate(pos.z))
  }

  /** No two world positions share a chunk and a cell of it. */
  lemma PositionsDistinct(p: Position, q: Position)
    requires Addressable(p) && Addressable(q)
    ensures ChunkOf(p) == ChunkOf(q) && Local(p) == Local(q) <==> p == q
  {
    CoordinatesAreFloorAndMod(p.x);
    CoordinatesAreFloorAndMod(p.z);
    CoordinatesAreFloorAndMod(q.x);
    CoordinatesAreFloorAndMod(q.z);
  }

  /** An addressable position lies in the chunk of its floored coordinates, at their remainders. */
  lemma ChunkOfIsFloor(p: Position)
    requires Addressable(p)
    ensures ChunkOf(p) == (p.x / 16, p.z / 16) && Local(p) == Position(p.x % 16, p.y, p.z % 16)
  {
    CoordinatesAreFloorAndMod(p.x);
    CoordinatesAreFloorAndMod(p.z);
  }

  /** Does a write at `pos` address the cell of `q`? */
  predicate Hits(pos: Position, q: Position) {
    ChunkOf(q) == ChunkOf(pos) && SameCell(Local(q), Local(pos))
  }

  lemma HitsOne(pos: Position, q: Position)
    requires CHUNK_HEIGHT_MIN <= pos.y < CHUNK_HEIGHT_MAX && Addressable(q)
    ensures Hits(pos, q) <==> q == Addressed(pos)
  {
    hide ChunkOf, Local, Addressed, SameCell;
    AddressedSameCell(pos);
    CellsDistinct(Local(q), Local(pos));
    PositionsDistinct(q, Addressed(pos));
  }

  class Level {
    var columns: map<ChunkPos, ChunkColumn>
    ghost var Repr: set<object>

    ghost predicate Valid()
      reads this, Repr
    {
      && this in Repr
      && (forall c :: c in columns ==> columns[c].Repr <= Repr && this !in columns[c].Repr && columns[c].Valid())
      && (forall c, d :: c in columns && d in columns && c != d ==> columns[c].Repr !! columns[d].Repr)
    }

    /** A world that only ever got block ids of the protocol. */
    ghost predicate Sound(): (sound: bool)
      reads this, Repr
      ensures sound ==> Valid()
    {
      Valid() && forall c :: c in columns ==> columns[c].Sound()
    }

    ghost predicate Loaded(pos: Position)
      reads this
    {
      Addressable(pos) && ChunkOf(pos) in columns
    }

    ghost function BlockAt(pos: Position): int
      requires Valid() && Loaded(pos)
      reads this, Repr
    {
      columns[ChunkOf(pos)].BlockAt(Local(pos))
    }

    /** The world as one map from positions to block ids. */
    ghost function Blocks(): imap<Position, int>
      requires Valid()
      reads this, Repr
    {
      imap pos: Position | Loaded(pos) :: BlockAt(pos)
    }

    constructor ()
      ensures Sound() && fresh(Repr) && Blocks() == imap[]
    {
      columns := map[];
      Repr := {this};
    }

    /** A new column is all air; a position that already has a column keeps it. */
    method AddChunkColumn(pos: ChunkPos)
      requires Valid()
      modifies this
      ensures Valid() && fresh(Repr - old(Repr)) && (old(Sound()) ==> Sound())
      ensures columns.Keys == old(columns.Keys) + {pos}
      ensures forall p :: Loaded(p) ==> BlockAt(p) == if p in old(Blocks()) then old(Blocks())[p] else 0
    {
      hide ChunkColumn.Valid, ChunkColumn.Sound, ChunkColumn.BlockAt, ChunkColumn.Blocks, ChunkOf, Local;
      if pos !in columns {
        var column := new ChunkColumn();
        assert forall q :: InColumn(q) ==> q in column.Blocks() && column.BlockAt(q) == 0;
        columns := columns[pos := column];
        Repr := Repr + column.Repr;
        forall c | c in columns && c != pos
          ensures columns[c].Valid() && columns[c].Sound() == old(columns[c].Sound())
          ensures forall q :: InTower(q) ==> columns[c].BlockAt(q) == old(columns[c].BlockAt(q))
        {}
        assert Valid();
      }
    }

    /** One write into one chunk, as the whole world sees it. */
    method WriteChunk(chunk: ChunkPos, local: Position, id: int) returns (r: Outcome)
      requires Valid() && chunk in columns
      modifies Repr - {this}
      ensures Valid() && (old(Sound()) && IsBlockId(id) ==> Sound() && (InTower(local) ==> r == Done))
      ensures r == old(columns[chunk].UpdateOutcome(local, id))
      ensures forall q :: Loaded(q) ==>
                BlockAt(q) == if r == Done && ChunkOf(q) == chunk && SameCell(Local(q), local) then id
                    else old(BlockAt(q))
    {
      hide ChunkColumn.Valid, ChunkColumn.Sound, ChunkColumn.BlockAt, ChunkColumn.Blocks, ChunkColumn.Tower;
      hide ChunkColumn.UpdateOutcome, ChunkOf, Local, SameCell;
      var column := columns[chunk];
      r := column.UpdateBlock(local, id);
      forall c | c in columns && c != chunk
        ensures columns[c].Valid() && columns[c].Sound() == old(columns[c].Sound())
        ensures forall q :: InTower(q) ==> columns[c].BlockAt(q) == old(columns[c].BlockAt(q))
      {
        assert columns[c].Repr !! column.Repr;
      }
    }

    /** At a height of the world, a block update that does not throw is a point update of the world map, at the
        position cut to 32 bits, and one with a block id of the protocol does not throw. At any other height it changes
        the one position whose cell it addresses, if there is one. Without a column it throws and changes nothing. */
    method UpdateBlock(pos: Position, id: int) returns (r: Outcome)
      requires Valid()
      modifies Repr - {this}
      ensures Valid() && (old(Sound()) && IsBlockId(id) ==> Sound())
      ensures r == if ChunkOf(pos) in columns then old(columns[ChunkOf(pos)].UpdateOutcome(Local(pos), id))
                else OutOfRange
      ensures ChunkOf(pos) !in columns ==> Blocks() == old(Blocks())
      ensures ChunkOf(pos) in columns && CHUNK_HEIGHT_MIN <= pos.y < CHUNK_HEIGHT_MAX ==>
                && Blocks() == (if r == Done then old(Blocks())[Addressed(pos) := id] else old(Blocks()))
                && (old(Sound()) && IsBlockId(id) ==> r == Done)
      ensures !(CHUNK_HEIGHT_MIN <= pos.y < CHUNK_HEIGHT_MAX) ==>
                forall q :: Loaded(q) ==> BlockAt(q) == if r == Done && Hits(pos, q) then id else old(BlockAt(q))
      ensures old(Loaded(pos)) && r == Done ==> Blocks() == old(Blocks())[pos := id]
    {
      hide Valid, Sound, BlockAt, ChunkColumn.UpdateOutcome, ChunkOf, Local, Addressed, SameCell;
      AddressedSameCell(pos);
      if ChunkOf(pos) !in columns { return OutOfRange; }
      r := WriteChunk(ChunkOf(pos), Local(pos), id);
      if CHUNK_HEIGHT_MIN <= pos.y < CHUNK_HEIGHT_MAX {
        forall q | Loaded(q) ensures Hits(pos, q) <==> q == Addressed(pos) { HitsOne(pos, q); }
      }
    }

    method GetBlock(pos: Position) returns (r: Read<int>)
      requires Valid()
      ensures r == if ChunkOf(pos) in columns then columns[ChunkOf(pos)].BlockRead(Local(pos)) else BadIndex
      ensures Loaded(pos) ==> r == Got(BlockAt(pos))
    {
      if ChunkOf(pos) !in columns { return BadIndex; }
      r := columns[ChunkOf(pos)].GetBlock(Local(pos));
    }
  }

  /** The world map after a run of writes, one point update after the other. */
  ghost function Replay(world: imap<Position, int>, writes: seq<Write>): imap<Position, int> {
    if writes == [] then world
    else
      var w := writes[|writes| - 1];
      Replay(world, writes[..|writes| - 1])[w.pos := w.block]
  }

  /** Any run of updates in loaded chunks: none throws, and the world is the replayed map. */
  method UpdateAll(level: Level, writes: seq<Write>) returns (noThrow: bool)
    requires level.Sound()
    requires forall k :: 0 <= k < |writes| ==> level.Loaded(writes[k].pos) && IsBlockId(writes[k].block)
    modifies level.Repr - {level}
    ensures level.Sound() && noThrow
    ensures level.Blocks() == Replay(old(level.Blocks()), writes)
  {
    hide Level.Valid, Level.Sound, Level.BlockAt, ChunkColumn.UpdateOutcome, ChunkOf, SameCell;
    noThrow := true;
    for k := 0 to |writes|
      invariant level.Sound() && noThrow
      invariant level.Blocks() == Replay(old(level.Blocks()), writes[..k])
    {
      var r := level.UpdateBlock(writes[k].pos, writes[k].block);
      noThrow := noThrow && r == Done;
      assert writes[..k + 1][..k] == writes[..k];
    }
    assert writes[..|writes|] == writes;
  }

  /** Is write `k` the last one to the position? */
  ghost predicate IsLastWrite(writes: seq<Write>, k: nat, pos: Position)
    requires k < |writes|
  {
    writes[k].pos == pos && forall j :: k < j < |writes| ==> writes[j].pos != pos
  }

  /** In a replayed map every position holds the last block written there, or its old one. */
  lemma {:induction false} ReplayIsLastWrite(world: imap<Position, int>, writes: seq<Write>, pos: Position)
    requires pos in world
    ensures pos in Replay(world, writes)
    ensures (forall k :: 0 <= k < |writes| ==> writes[k].pos != pos) ==> Replay(world, writes)[pos] == world[pos]
    ensures forall k :: 0 <= k < |writes| && IsLastWrite(writes, k, pos) ==>
              Replay(world, writes)[pos] == writes[k].block
  {
    if writes != [] {
      var front := writes[..|writes| - 1];
      ReplayIsLastWrite(world, front, pos);
      assert forall k :: 0 <= k < |front| ==> front[k] == writes[k];
    }
  }
}
