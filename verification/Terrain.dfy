/** What the stages of overworld generation share: a generator, its block ids, and columns as maps. */
module Terrain {
  import opened Positions
  import opened Sections
  import opened Columns

  /** The protocol ids that generation uses; the lake stage tests for stone with the literal 1. */
  datatype BlockIds = BlockIds(air: int, stone: int, bedrock: int, water: int, sand: int, grass: int, dirt: int,
                               log: int, leaves: int) {
    predicate Valid() {
      && air == 0 && stone == 1
      && IsBlockId(bedrock) && IsBlockId(water) && IsBlockId(sand) && IsBlockId(grass) && IsBlockId(dirt)
      && IsBlockId(log) && IsBlockId(leaves)
      && |{air, stone, bedrock, water, sand, grass, dirt, log, leaves}| == 9
    }
  }

  /** What generation depends on: the chunk's position, the block ids, and what the noise of the generator decides:
      blocks, and by world position where trees may grow and how tall they are. The height a tree asks for is by
      local position. */
  datatype Setting = Setting(gen: Position -> int, chunkX: int, chunkZ: int, ids: BlockIds,
                             wantsTree: Position -> bool, growSpace: Position -> int, treeSize: Position -> int) {
    ghost predicate Valid() {
      && ids.Valid() && (forall p :: IsBlockId(gen(p)))
      && (forall p :: growSpace(p) <= 6) && (forall p :: treeSize(p) <= 7)
    }

    /** The world position of a position of the chunk. */
    function InWorld(p: Position): Position {
      At(p.x + chunkX * SECTION_WIDTH, p.y, p.z + chunkZ * SECTION_WIDTH)
    }
  }

  /** The generator's block for a position of the chunk. */
  function Generated(w: Setting, p: Position): int {
    w.gen(w.InWorld(p))
  }

  type Column = imap<Position, int>

  ghost predicate IsColumn(b: Column) {
    forall p: Position :: p in b <==> InColumn(p)
  }

  ghost predicate BedrockFloor(b: Column, ids: BlockIds)
    requires IsColumn(b)
  {
    forall p: Position :: InColumn(p) && p.y == CHUNK_HEIGHT_MIN ==> b[p] == ids.bedrock
  }

  function At(x: int, y: int, z: int): Position { Position(x, y, z) }

  predicate InPlane(x: int, z: int) {
    0 <= x < SECTION_WIDTH && 0 <= z < SECTION_WIDTH
  }

  /** A write in the column, which is all that most stages need. */
  method Place(c: ChunkColumn, p: Position, id: int)
    requires c.Sound() && InColumn(p) && IsBlockId(id)
    modifies c.Repr - {c}
    ensures c.Sound() && c.Blocks() == old(c.Blocks())[p := id]
  {
    hide ChunkColumn.Valid, ChunkColumn.Sound, ChunkColumn.Blocks, ChunkColumn.Tower, ChunkColumn.UpdateOutcome,
         SameCell;
    var r := c.UpdateBlock(p, id);
  }

  /** A write in the column or in the layers on top of it. */
  method PlaceInTower(c: ChunkColumn, p: Position, id: int)
    requires c.Sound() && InTower(p) && IsBlockId(id)
    modifies c.Repr - {c}
    ensures c.Sound() && c.Tower() == old(c.Tower())[p := id]
  {
    hide ChunkColumn.Valid, ChunkColumn.Sound, ChunkColumn.Blocks, ChunkColumn.Tower, ChunkColumn.UpdateOutcome,
         SameCell;
    var r := c.UpdateBlock(p, id);
  }
}
