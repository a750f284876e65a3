/** The stages of overworld generation (world_storage/ChunkColumn.cpp), for an arbitrary block generator. */
module Generation {
  import opened Positions
  import opened DynamicStorage
  import opened Sections
  import opened Columns
  import opened Terrain
  import opened Trees

  const WATER_LEVEL := 86

  // ----- What each stage does, position by position -----

  /** Raw generation: the generator's block, with bedrock at the bottom. */
  ghost function Raw(w: Setting): Column {
    imap p: Position | InColumn(p) :: if p.y == CHUNK_HEIGHT_MIN then w.ids.bedrock else Generated(w, p)
  }

  /** Is there stone between y and the water level? */
  ghost predicate StoneAbove(b: Column, x: int, y: int, z: int)
    requires IsColumn(b) && InPlane(x, z) && CHUNK_HEIGHT_MIN <= y
  {
    exists k :: y <= k <= WATER_LEVEL && b[At(x, k, z)] == 1
  }

  /** Lakes: water from the water level down to the first stone, but not below y = 1. */
  ghost function Flooded(b: Column, ids: BlockIds): Column
    requires IsColumn(b)
  {
    imap p: Position | InColumn(p) ::
      if 0 < p.y <= WATER_LEVEL && !StoneAbove(b, p.x, p.y, p.z) then ids.water else b[p]
  }

  /** Where the grass stage stops in one column of blocks, going down from y, and whether it has seen water. */
  datatype Stop = Bottom | Stone(y: int, wet: bool)

  ghost function Scan(b: Column, x: int, z: int, y: int, wet: bool, ids: BlockIds): (s: Stop)
    requires IsColumn(b) && InPlane(x, z) && y < CHUNK_HEIGHT_MAX
    ensures s.Stone? ==> CHUNK_HEIGHT_MIN <= s.y <= y && b[At(x, s.y, z)] == ids.stone
    ensures forall k :: CHUNK_HEIGHT_MIN <= k <= y && (s.Stone? ==> s.y < k) ==> b[At(x, k, z)] != ids.stone
    ensures s.Stone? && !s.wet ==> !wet && forall k :: s.y < k <= y ==> b[At(x, k, z)] != ids.water
    decreases y - CHUNK_HEIGHT_MIN
  {
    if y < CHUNK_HEIGHT_MIN then Bottom
    else if b[At(x, y, z)] == ids.stone then Stone(y, wet)
    else Scan(b, x, z, y - 1, wet || b[At(x, y, z)] == ids.water, ids)
  }

  ghost function Grassed(b: Column, ids: BlockIds): Column
    requires IsColumn(b)
  {
    imap p: Position | InColumn(p) ::
      match Scan(b, p.x, p.z, CHUNK_HEIGHT_MAX - 2, false, ids)
      case Bottom => b[p]
      case Stone(y, wet) =>
        if wet then (if p.y == y then ids.sand else b[p])
        else if p.y == y then ids.grass
        else if p.y == y - 1 || p.y == y - 2 then ids.dirt
        else b[p]
  }

  /** Lakes in numbers: in each column of blocks, water from y = 86 down to the highest stone, or down to 1 if there is
      no stone from 1 to 86; nothing else changes. */
  lemma LakesInNumbers(b: Column, ids: BlockIds, x: int, z: int) returns (top: int)
    requires IsColumn(b) && 0 <= x < 16 && 0 <= z < 16
    ensures 0 <= top <= 86 && (top > 0 ==> b[At(x, top, z)] == 1)
    ensures forall k :: top < k <= 86 ==> b[At(x, k, z)] != 1
    ensures forall y :: -64 <= y < 320 ==>
              Flooded(b, ids)[At(x, y, z)] == if top < y <= 86 then ids.water else b[At(x, y, z)]
  {
    top := 86;
    while top > 0 && b[At(x, top, z)] != 1
      invariant 0 <= top <= 86 && forall k :: top < k <= 86 ==> b[At(x, k, z)] != 1
    {
      top := top - 1;
    }
    forall y | -64 <= y < 320
      ensures Flooded(b, ids)[At(x, y, z)] == if top < y <= 86 then ids.water else b[At(x, y, z)]
    {
      if 0 < y <= top { assert StoneAbove(b, x, y, z); }
    }
  }

  lemma {:induction false} ScanSeesWater(b: Column, x: int, z: int, y: int, wet: bool, ids: BlockIds)
    requires IsColumn(b) && InPlane(x, z) && y < CHUNK_HEIGHT_MAX
    ensures var s := Scan(b, x, z, y, wet, ids);
            s.Stone? && s.wet ==> wet || exists k :: s.y < k <= y && b[At(x, k, z)] == ids.water
    decreases y - CHUNK_HEIGHT_MIN
  {
    if y >= CHUNK_HEIGHT_MIN && b[At(x, y, z)] != ids.stone {
      ScanSeesWater(b, x, z, y - 1, wet || b[At(x, y, z)] == ids.water, ids);
    }
  }

  /** The surface in numbers: at the highest stone up to y = 318, sand if there is water above it, and otherwise grass,
      with dirt in the two blocks below; nothing else changes, and without stone nothing does. */
  lemma SurfaceInNumbers(b: Column, ids: BlockIds, x: int, z: int) returns (top: int)
    requires IsColumn(b) && 0 <= x < 16 && 0 <= z < 16
    ensures -65 <= top <= 318 && (top > -65 ==> b[At(x, top, z)] == ids.stone)
    ensures forall k :: top < k <= 318 ==> b[At(x, k, z)] != ids.stone
    ensures var wet := exists k :: top < k <= 318 && b[At(x, k, z)] == ids.water;
            forall y :: -64 <= y < 320 ==>
              Grassed(b, ids)[At(x, y, z)] == if top == -65 then b[At(x, y, z)]
                                              else if y == top then (if wet then ids.sand else ids.grass)
                                              else if !wet && top - 2 <= y < top then ids.dirt
                                              else b[At(x, y, z)]
  {
    hide Scan;
    var s := Scan(b, x, z, CHUNK_HEIGHT_MAX - 2, false, ids);
    ScanSeesWater(b, x, z, CHUNK_HEIGHT_MAX - 2, false, ids);
    top := if s.Stone? then s.y else -65;
  }

  /** Some column of blocks has its first stone, with no water above, low enough for dirt to reach the floor. */
  ghost predicate FloorExposed(b: Column, ids: BlockIds)
    requires IsColumn(b)
  {
    exists x, z :: InPlane(x, z) && var stop := Scan(b, x, z, CHUNK_HEIGHT_MAX - 2, false, ids);
                                    stop.Stone? && !stop.wet && stop.y <= CHUNK_HEIGHT_MIN + 2
  }

  /** On its own the grass stage keeps the floor exactly when no column of blocks is exposed. */
  lemma GrassKeepsFloorIff(b: Column, ids: BlockIds)
    requires ids.Valid() && IsColumn(b) && BedrockFloor(b, ids)
    ensures BedrockFloor(Grassed(b, ids), ids) <==> !FloorExposed(b, ids)
  {
    var grassed := Grassed(b, ids);
    if FloorExposed(b, ids) {
      var x, z :| InPlane(x, z) && var stop := Scan(b, x, z, CHUNK_HEIGHT_MAX - 2, false, ids);
                                   stop.Stone? && !stop.wet && stop.y <= CHUNK_HEIGHT_MIN + 2;
      assert b[At(x, CHUNK_HEIGHT_MIN, z)] == ids.bedrock;
      assert grassed[At(x, CHUNK_HEIGHT_MIN, z)] == ids.dirt;
    } else {
      forall p: Position | InColumn(p) && p.y == CHUNK_HEIGHT_MIN ensures grassed[p] == ids.bedrock {
        assert InPlane(p.x, p.z);
        assert b[At(p.x, CHUNK_HEIGHT_MIN, p.z)] == ids.bedrock;
      }
    }
  }

  /** After the lake stage no column of blocks is exposed: without stone in 1..86 it is water there. */
  lemma LakesCoverFloor(b: Column, ids: BlockIds)
    requires ids.Valid() && IsColumn(b)
    ensures !FloorExposed(Flooded(b, ids), ids)
  {
    var flooded := Flooded(b, ids);
    forall x, z | InPlane(x, z)
      ensures var stop := Scan(flooded, x, z, CHUNK_HEIGHT_MAX - 2, false, ids);
              stop.Stone? && !stop.wet ==> stop.y > CHUNK_HEIGHT_MIN + 2
    {
      if StoneAbove(b, x, 1, z) {
        var k :| 1 <= k <= WATER_LEVEL && b[At(x, k, z)] == 1;
        assert StoneAbove(b, x, k, z);
        assert flooded[At(x, k, z)] == ids.stone;
      } else {
        assert flooded[At(x, 1, z)] == ids.water;
      }
    }
  }

  lemma FloodedKeepsFloor(b: Column, ids: BlockIds)
    requires IsColumn(b) && BedrockFloor(b, ids)
    ensures BedrockFloor(Flooded(b, ids), ids)
  {}

  /** The floor of bedrock survives the lake and grass stages of any column that has one, whatever else it holds. */
  lemma BedrockFloorSurvives(b: Column, ids: BlockIds)
    requires ids.Valid() && IsColumn(b) && BedrockFloor(b, ids)
    ensures BedrockFloor(Grassed(Flooded(b, ids), ids), ids)
  {
    FloodedKeepsFloor(b, ids);
    LakesCoverFloor(b, ids);
    GrassKeepsFloorIff(Flooded(b, ids), ids);
  }

  // ----- The sequence of stages -----

  function Rank(s: GenerationState): nat {
    match s
    case INITIALIZED => 0
    case RAW_GENERATION => 1
    case LAKES => 2
    case LOCAL_MODIFICATIONS => 3
    case UNDERGROUND_STRUCTURES => 4
    case SURFACE_STRUCTURES => 5
    case STRONGHOLDS => 6
    case UNDERGROUND_ORES => 7
    case UNDERGROUND_DECORATION => 8
    case FLUID_SPRINGS => 9
    case VEGETAL_DECORATION => 10
    case TOP_LAYER_MODIFICATION => 11
    case READY => 12
  }

  /** The blocks after the stage that leaves state `s`, for the stages that do not grow trees. */
  ghost function AfterStage(w: Setting, s: GenerationState, b: Column): (r: Column)
    requires IsColumn(b)
    ensures IsColumn(r)
  {
    match s
    case INITIALIZED => Raw(w)
    case RAW_GENERATION => Flooded(b, w.ids)
    case LAKES => Grassed(b, w.ids)
    case _ => b
  }

  /** The stages before rank `goal`, run in order from rank `from`. */
  ghost function Staged(w: Setting, b: Column, from: nat, goal: nat): (r: Column)
    requires IsColumn(b)
    ensures IsColumn(r)
    decreases goal - from
  {
    if from >= goal then b
    else if from == 0 then Staged(w, AfterStage(w, INITIALIZED, b), 1, goal)
    else if from == 1 then Staged(w, AfterStage(w, RAW_GENERATION, b), 2, goal)
    else if from == 2 then Staged(w, AfterStage(w, LAKES, b), 3, goal)
    else Staged(w, b, from + 1, goal)
  }

  /** The rank of the state that the tree stage leaves. */
  const TREES := 9

  /** What the stage that leaves state `s` may make of a column: trees grow in one of them, by the noise. */
  ghost predicate StageMakes(w: Setting, s: GenerationState, b: Column, r: Column)
    requires IsColumn(b) && IsColumn(r)
  {
    if s == FLUID_SPRINGS then Decorated(w, b, r) else r == AfterStage(w, s, b)
  }

  /** What the stages from rank `from` to rank `goal` may make of a column. */
  ghost predicate StagesMake(w: Setting, b: Column, from: nat, r: Column, goal: nat)
    requires IsColumn(b) && IsColumn(r)
  {
    if from <= TREES < goal then Decorated(w, Staged(w, b, from, TREES), r) else r == Staged(w, b, from, goal)
  }

  lemma {:induction false} StagedStep(w: Setting, b: Column, from: nat, s: GenerationState)
    requires IsColumn(b) && from <= Rank(s)
    ensures Staged(w, b, from, Rank(s) + 1) == AfterStage(w, s, Staged(w, b, from, Rank(s)))
    decreases Rank(s) - from
  {
    hide Raw, Flooded, Grassed;
    if from < Rank(s) {
      var next := if from == 0 then AfterStage(w, INITIALIZED, b)
                  else if from == 1 then AfterStage(w, RAW_GENERATION, b)
                  else if from == 2 then AfterStage(w, LAKES, b)
                  else b;
      StagedStep(w, next, from + 1, s);
    }
  }

  /** One more stage. */
  lemma StagesMakeStep(w: Setting, b: Column, from: nat, r: Column, s: GenerationState, next: Column)
    requires IsColumn(b) && IsColumn(r) && IsColumn(next) && from <= Rank(s)
    ensures StagesMake(w, b, from, r, Rank(s)) && StageMakes(w, s, r, next) ==>
              StagesMake(w, b, from, next, Rank(s) + 1)
  {
    hide Decorated, Staged, Raw, Flooded, Grassed;
    StagedStep(w, b, from, s);
  }

  lemma NoStages(w: Setting, b: Column, from: nat)
    requires IsColumn(b)
    ensures StagesMake(w, b, from, b, from)
  {}

  /** What each stage relies on from the ones before it. */
  ghost predicate StageInvariant(w: Setting, b: Column, rank: nat)
    requires IsColumn(b)
  {
    && (rank >= 1 ==> BedrockFloor(b, w.ids))
    && (rank == 2 ==> !FloorExposed(b, w.ids))
  }

  lemma {:induction false} StagedKeepsInvariant(w: Setting, b: Column, from: nat, goal: nat)
    requires w.Valid() && IsColumn(b) && StageInvariant(w, b, from) && from <= goal
    ensures StageInvariant(w, Staged(w, b, from, goal), goal)
    decreases goal - from
  {
    hide BedrockFloor, FloorExposed, Raw, Flooded, Grassed;
    if from < goal {
      if from == 0 {
        RawHasFloor(w);
        StagedKeepsInvariant(w, AfterStage(w, INITIALIZED, b), 1, goal);
      } else if from == 1 {
        FloodedKeepsFloor(b, w.ids);
        LakesCoverFloor(b, w.ids);
        StagedKeepsInvariant(w, AfterStage(w, RAW_GENERATION, b), 2, goal);
      } else if from == 2 {
        GrassKeepsFloorIff(b, w.ids);
        StagedKeepsInvariant(w, AfterStage(w, LAKES, b), 3, goal);
      } else {
        StagedKeepsInvariant(w, b, from + 1, goal);
      }
    }
  }

  lemma RawHasFloor(w: Setting)
    ensures BedrockFloor(Raw(w), w.ids)
  {}

  /** From any state to any later one, whatever trees grew. */
  lemma StagesKeepInvariant(w: Setting, b: Column, from: nat, r: Column, goal: nat)
    requires w.Valid() && IsColumn(b) && IsColumn(r) && from <= goal && StageInvariant(w, b, from)
    ensures StagesMake(w, b, from, r, goal) ==> StageInvariant(w, r, goal)
  {
    hide BedrockFloor, Decorated, Staged, FloorExposed;
    if from <= TREES < goal {
      StagedKeepsInvariant(w, b, from, TREES);
      if Decorated(w, Staged(w, b, from, TREES), r) { DecoratedKeepsFloor(w, Staged(w, b, from, TREES), r); }
    } else {
      StagedKeepsInvariant(w, b, from, goal);
    }
  }

  /** From a new column, every later state has a floor of bedrock, for every generator and whatever trees grew. */
  lemma GeneratedColumnsHaveFloor(w: Setting, b: Column, r: Column, goal: GenerationState)
    requires w.Valid() && IsColumn(b) && IsColumn(r) && goal != INITIALIZED
    ensures StagesMake(w, b, 0, r, Rank(goal)) ==> BedrockFloor(r, w.ids)
  {
    StagesKeepInvariant(w, b, 0, r, Rank(goal));
  }

  // ----- The stages as they run -----

  method PlaceGenerated(c: ChunkColumn, w: Setting)
    requires c.Sound() && w.Valid()
    modifies c.Repr - {c}
    ensures c.Sound()
    ensures forall p: Position :: InColumn(p) ==> c.Blocks()[p] == Generated(w, p)
  {
    hide ChunkColumn.Valid, ChunkColumn.Sound, ChunkColumn.Blocks, ChunkColumn.BlockAt, ChunkColumn.BlockRead;
    for y := CHUNK_HEIGHT_MIN to CHUNK_HEIGHT_MAX
      invariant c.Sound()
      invariant forall p: Position :: InColumn(p) && p.y < y ==> c.Blocks()[p] == Generated(w, p)
    {
      for z := 0 to SECTION_WIDTH
        invariant c.Sound()
        invariant forall p: Position :: InColumn(p) && (p.y < y || (p.y == y && p.z < z)) ==>
                    c.Blocks()[p] == Generated(w, p)
      {
        PlaceRow(c, w, y, z);
      }
    }
  }

  /** The inner loop: one row of generated blocks. */
  method PlaceRow(c: ChunkColumn, w: Setting, y: int, z: int)
    requires c.Sound() && w.Valid() && CHUNK_HEIGHT_MIN <= y < CHUNK_HEIGHT_MAX && 0 <= z < SECTION_WIDTH
    modifies c.Repr - {c}
    ensures c.Sound()
    ensures forall p: Position :: InColumn(p) ==>
              c.Blocks()[p] == if p.y == y && p.z == z then Generated(w, p) else old(c.Blocks())[p]
  {
    hide ChunkColumn.Valid, ChunkColumn.Sound, ChunkColumn.Blocks, ChunkColumn.BlockAt, ChunkColumn.BlockRead;
    for x := 0 to SECTION_WIDTH
      invariant c.Sound()
      invariant forall p: Position :: InColumn(p) ==>
                  c.Blocks()[p] == if p.y == y && p.z == z && p.x < x then Generated(w, p) else old(c.Blocks())[p]
    {
      var block := Generated(w, At(x, y, z));
      Place(c, At(x, y, z), block);
    }
  }

  method PlaceBedrock(c: ChunkColumn, w: Setting)
    requires c.Sound() && w.Valid()
    modifies c.Repr - {c}
    ensures c.Sound()
    ensures forall p: Position :: InColumn(p) ==>
              c.Blocks()[p] == if p.y == CHUNK_HEIGHT_MIN then w.ids.bedrock else old(c.Blocks())[p]
  {
    hide ChunkColumn.Valid, ChunkColumn.Sound, ChunkColumn.Blocks, ChunkColumn.BlockAt, ChunkColumn.BlockRead;
    for x := 0 to SECTION_WIDTH
      invariant c.Sound()
      invariant forall p: Position :: InColumn(p) ==>
                  c.Blocks()[p] == if p.y == CHUNK_HEIGHT_MIN && p.x < x then w.ids.bedrock else old(c.Blocks())[p]
    {
      for z := 0 to SECTION_WIDTH
        invariant c.Sound()
        invariant forall p: Position :: InColumn(p) ==>
                    c.Blocks()[p] == if p.y == CHUNK_HEIGHT_MIN && (p.x < x || (p.x == x && p.z < z)) then w.ids.bedrock
                                     else old(c.Blocks())[p]
      {
        Place(c, At(x, CHUNK_HEIGHT_MIN, z), w.ids.bedrock);
      }
    }
  }

  method GenerateRawGeneration(c: ChunkColumn, w: Setting)
    requires c.Sound() && w.Valid()
    modifies c, c.Repr
    ensures c.Sound() && c.Blocks() == AfterStage(w, INITIALIZED, old(c.Blocks())) && c.currentState == RAW_GENERATION
  {
    hide ChunkColumn.Valid, ChunkColumn.Sound, ChunkColumn.Blocks, ChunkColumn.BlockAt;
    PlaceGenerated(c, w);
    PlaceBedrock(c, w);
    SetState(c, RAW_GENERATION);
  }

  method SetState(c: ChunkColumn, s: GenerationState)
    requires c.Sound()
    modifies c
    ensures c.Sound() && c.Blocks() == old(c.Blocks()) && c.Tower() == old(c.Tower()) && c.currentState == s
  {
    hide Section.Valid, Section.Blocks, Section.OnlyBlockIds, Section.Footprint, SectionIndex, InSection, BlockIdx;
    c.currentState := s;
  }

  /** The inner loop of the lake stage: one column of blocks, downwards, stopping at stone. */
  method FloodOne(c: ChunkColumn, w: Setting, x: int, z: int)
    requires c.Sound() && w.Valid() && InPlane(x, z)
    modifies c.Repr - {c}
    ensures c.Sound()
    ensures forall p: Position :: InColumn(p) ==>
              c.Blocks()[p] == if p.x == x && p.z == z then Flooded(old(c.Blocks()), w.ids)[p] else old(c.Blocks())[p]
  {
    hide ChunkColumn.Valid, ChunkColumn.Sound, ChunkColumn.Blocks, ChunkColumn.BlockAt, ChunkColumn.BlockRead;
    ghost var before := c.Blocks();
    var y := WATER_LEVEL;
    while 0 < y
      invariant c.Sound() && 0 <= y <= WATER_LEVEL
      invariant !StoneAbove(before, x, y + 1, z)
      invariant forall p: Position :: InColumn(p) ==>
                  c.Blocks()[p] == if p.x == x && p.z == z && y < p.y <= WATER_LEVEL then w.ids.water else before[p]
    {
      var here := c.GetBlock(At(x, y, z));
      if here.value == 1 { break; }
      Place(c, At(x, y, z), w.ids.water);
      y := y - 1;
    }
    forall k | y < k <= WATER_LEVEL ensures !StoneAbove(before, x, k, z) {}
    assert forall k :: 0 < k <= y ==> StoneAbove(before, x, k, z);
  }

  method GenerateLakes(c: ChunkColumn, w: Setting)
    requires c.Sound() && w.Valid()
    modifies c, c.Repr
    ensures c.Sound() && c.Blocks() == AfterStage(w, RAW_GENERATION, old(c.Blocks())) && c.currentState == LAKES
  {
    hide ChunkColumn.Valid, ChunkColumn.Sound, ChunkColumn.Blocks, ChunkColumn.BlockAt;
    ghost var before := c.Blocks();
    for z := 0 to SECTION_WIDTH
      invariant c.Sound()
      invariant forall p: Position :: InColumn(p) ==>
                  c.Blocks()[p] == if p.z < z then Flooded(before, w.ids)[p] else before[p]
      modifies c.Repr - {c}
    {
      for x := 0 to SECTION_WIDTH
        invariant c.Sound()
        invariant forall p: Position :: InColumn(p) ==>
                    c.Blocks()[p] == if p.z < z || (p.z == z && p.x < x) then Flooded(before, w.ids)[p] else before[p]
      {
        FloodedIsLocal(before, c.Blocks(), w.ids, x, z);
        FloodOne(c, w, x, z);
      }
    }
    SetState(c, LAKES);
  }

  /** The lake stage looks only at the column of blocks it changes; so does the grass stage. */
  lemma FloodedIsLocal(a: Column, b: Column, ids: BlockIds, x: int, z: int)
    requires IsColumn(a) && IsColumn(b) && InPlane(x, z)
    requires forall k :: CHUNK_HEIGHT_MIN <= k < CHUNK_HEIGHT_MAX ==> a[At(x, k, z)] == b[At(x, k, z)]
    ensures forall p: Position :: InColumn(p) && p.x == x && p.z == z ==> Flooded(a, ids)[p] == Flooded(b, ids)[p]
  {
    forall p: Position | InColumn(p) && p.x == x && p.z == z ensures Flooded(a, ids)[p] == Flooded(b, ids)[p] {
      assert p == At(x, p.y, z);
      assert StoneAbove(a, x, p.y, z) == StoneAbove(b, x, p.y, z);
    }
  }

  /** Grass, and two blocks of dirt below it where there is room. */
  method PlaceGrass(c: ChunkColumn, w: Setting, x: int, y: int, z: int)
    requires c.Sound() && w.Valid() && InColumn(At(x, y, z))
    modifies c.Repr - {c}
    ensures c.Sound()
    ensures forall p: Position :: InColumn(p) ==>
              c.Blocks()[p] == if p.x == x && p.z == z && p.y == y then w.ids.grass
                               else if p.x == x && p.z == z && (p.y == y - 1 || p.y == y - 2) then w.ids.dirt
                               else old(c.Blocks())[p]
  {
    hide ChunkColumn.Valid, ChunkColumn.Sound, ChunkColumn.Blocks, ChunkColumn.BlockAt, ChunkColumn.BlockRead;
    Place(c, At(x, y, z), w.ids.grass);
    if y - 1 >= CHUNK_HEIGHT_MIN { Place(c, At(x, y - 1, z), w.ids.dirt); }
    if y - 2 >= CHUNK_HEIGHT_MIN { Place(c, At(x, y - 2, z), w.ids.dirt); }
  }

  /** The grass stage in one column of blocks, once it is known where the scan stops. */
  lemma GrassedInColumn(b: Column, ids: BlockIds, x: int, z: int, stop: Stop)
    requires IsColumn(b) && InPlane(x, z) && Scan(b, x, z, CHUNK_HEIGHT_MAX - 2, false, ids) == stop
    ensures forall p: Position :: InColumn(p) && p.x == x && p.z == z ==>
              Grassed(b, ids)[p] == match stop
                                    case Bottom => b[p]
                                    case Stone(y, wet) =>
                                      if wet then (if p.y == y then ids.sand else b[p])
                                      else if p.y == y then ids.grass
                                      else if p.y == y - 1 || p.y == y - 2 then ids.dirt
                                      else b[p]
  {}

  lemma ScanStep(b: Column, x: int, z: int, y: int, wet: bool, ids: BlockIds)
    requires IsColumn(b) && InPlane(x, z) && y < CHUNK_HEIGHT_MAX
    ensures Scan(b, x, z, y, wet, ids) ==
            if y < CHUNK_HEIGHT_MIN then Bottom
            else if b[At(x, y, z)] == ids.stone then Stone(y, wet)
            else Scan(b, x, z, y - 1, wet || b[At(x, y, z)] == ids.water, ids)
  {}

  /** The inner loop of the grass stage: down one column of blocks to its first stone. */
  method GrassOne(c: ChunkColumn, w: Setting, x: int, z: int)
    requires c.Sound() && w.Valid() && InPlane(x, z)
    modifies c.Repr - {c}
    ensures c.Sound()
    ensures forall p: Position :: InColumn(p) ==>
              c.Blocks()[p] == if p.x == x && p.z == z then Grassed(old(c.Blocks()), w.ids)[p] else old(c.Blocks())[p]
  {
    hide ChunkColumn.Valid, ChunkColumn.Sound, ChunkColumn.Blocks, ChunkColumn.BlockAt, ChunkColumn.BlockRead, Grassed,
         Scan;
    ghost var before := c.Blocks();
    var ids := w.ids;
    var lastBlock := 0;
    var y := CHUNK_HEIGHT_MAX - 2;
    while CHUNK_HEIGHT_MIN <= y
      invariant c.Sound() && c.Blocks() == before
      invariant CHUNK_HEIGHT_MIN - 1 <= y <= CHUNK_HEIGHT_MAX - 2
      invariant lastBlock == ids.air || lastBlock == ids.water
      invariant Scan(before, x, z, CHUNK_HEIGHT_MAX - 2, false, ids)
                  == Scan(before, x, z, y, lastBlock == ids.water, ids)
    {
      ScanStep(before, x, z, y, lastBlock == ids.water, ids);
      var block := c.GetBlock(At(x, y, z));
      if block.value == ids.air {
        y := y - 1;
        continue;
      }
      if block.value == ids.water {
        lastBlock := ids.water;
        y := y - 1;
        continue;
      }
      if block.value == ids.stone && lastBlock == ids.water {
        GrassedInColumn(before, ids, x, z, Stone(y, true));
        Place(c, At(x, y, z), ids.sand);
        return;
      }
      if block.value == ids.stone && lastBlock == ids.air {
        GrassedInColumn(before, ids, x, z, Stone(y, false));
        PlaceGrass(c, w, x, y, z);
        return;
      }
      y := y - 1;
    }
    ScanStep(before, x, z, y, lastBlock == ids.water, ids);
    GrassedInColumn(before, ids, x, z, Bottom);
  }

  lemma {:induction false} ScanIsLocal(a: Column, b: Column, ids: BlockIds, x: int, z: int, y: int, wet: bool)
    requires IsColumn(a) && IsColumn(b) && InPlane(x, z) && y < CHUNK_HEIGHT_MAX
    requires forall k :: CHUNK_HEIGHT_MIN <= k < CHUNK_HEIGHT_MAX ==> a[At(x, k, z)] == b[At(x, k, z)]
    ensures Scan(a, x, z, y, wet, ids) == Scan(b, x, z, y, wet, ids)
    decreases y - CHUNK_HEIGHT_MIN
  {
    if CHUNK_HEIGHT_MIN <= y {
      assert a[At(x, y, z)] == b[At(x, y, z)];
      ScanIsLocal(a, b, ids, x, z, y - 1, wet || a[At(x, y, z)] == ids.water);
    }
  }

  lemma GrassedIsLocal(a: Column, b: Column, ids: BlockIds, x: int, z: int)
    requires IsColumn(a) && IsColumn(b) && InPlane(x, z)
    requires forall k :: CHUNK_HEIGHT_MIN <= k < CHUNK_HEIGHT_MAX ==> a[At(x, k, z)] == b[At(x, k, z)]
    ensures forall p: Position :: InColumn(p) && p.x == x && p.z == z ==> Grassed(a, ids)[p] == Grassed(b, ids)[p]
  {
    hide Scan;
    ScanIsLocal(a, b, ids, x, z, CHUNK_HEIGHT_MAX - 2, false);
    forall p: Position | InColumn(p) && p.x == x && p.z == z ensures Grassed(a, ids)[p] == Grassed(b, ids)[p] {
      assert p == At(x, p.y, z);
    }
  }

  method GenerateLocalModifications(c: ChunkColumn, w: Setting)
    requires c.Sound() && w.Valid()
    modifies c, c.Repr
    ensures c.Sound() && c.Blocks() == AfterStage(w, LAKES, old(c.Blocks())) && c.currentState == LOCAL_MODIFICATIONS
  {
    hide ChunkColumn.Valid, ChunkColumn.Sound, ChunkColumn.Blocks, ChunkColumn.BlockAt;
    ghost var before := c.Blocks();
    for z := 0 to SECTION_WIDTH
      invariant c.Sound()
      invariant forall p: Position :: InColumn(p) ==>
                  c.Blocks()[p] == if p.z < z then Grassed(before, w.ids)[p] else before[p]
      modifies c.Repr - {c}
    {
      for x := 0 to SECTION_WIDTH
        invariant c.Sound()
        invariant forall p: Position :: InColumn(p) ==>
                    c.Blocks()[p] == if p.z < z || (p.z == z && p.x < x) then Grassed(before, w.ids)[p] else before[p]
      {
        GrassedIsLocal(before, c.Blocks(), w.ids, x, z);
        GrassOne(c, w, x, z);
      }
    }
    SetState(c, LOCAL_MODIFICATIONS);
  }

  function NextState(s: GenerationState): (n: GenerationState)
    ensures s != READY ==> Rank(n) == Rank(s) + 1
  {
    match s
    case INITIALIZED => RAW_GENERATION
    case RAW_GENERATION => LAKES
    case LAKES => LOCAL_MODIFICATIONS
    case LOCAL_MODIFICATIONS => UNDERGROUND_STRUCTURES
    case UNDERGROUND_STRUCTURES => SURFACE_STRUCTURES
    case SURFACE_STRUCTURES => STRONGHOLDS
    case STRONGHOLDS => UNDERGROUND_ORES
    case UNDERGROUND_ORES => UNDERGROUND_DECORATION
    case UNDERGROUND_DECORATION => FLUID_SPRINGS
    case FLUID_SPRINGS => VEGETAL_DECORATION
    case VEGETAL_DECORATION => TOP_LAYER_MODIFICATION
    case TOP_LAYER_MODIFICATION => READY
    case READY => READY
  }

  lemma RankInjective(a: GenerationState, b: GenerationState)
    ensures Rank(a) == Rank(b) ==> a == b
  {}

  method GenerateVegetalDecoration(c: ChunkColumn, w: Setting)
    requires c.Sound() && w.Valid()
    modifies c, c.Repr
    ensures c.Sound() && Decorated(w, old(c.Blocks()), c.Blocks()) && c.currentState == VEGETAL_DECORATION
    ensures NoSpaceLeft(old(c.Blocks()), c.Tower(), w, [])
  {
    hide ChunkColumn.Valid, ChunkColumn.Sound, ChunkColumn.Blocks, ChunkColumn.BlockAt, ChunkColumn.Tower, Decorated,
         NoSpaceLeft;
    ghost var trees := GrowTrees(c, w);
    SetState(c, VEGETAL_DECORATION);
  }

  /** One turn of the stage loop. Apart from the first three stages and the trees, stages only advance the state. */
  method RunStage(c: ChunkColumn, w: Setting)
    requires c.Sound() && w.Valid() && c.currentState != READY
    modifies c, c.Repr
    ensures c.Sound() && StageMakes(w, old(c.currentState), old(c.Blocks()), c.Blocks())
    ensures c.currentState == NextState(old(c.currentState))
  {
    hide ChunkColumn.Valid, ChunkColumn.Sound, ChunkColumn.Blocks, ChunkColumn.BlockAt, Raw, Flooded, Grassed,
         Decorated;
    if c.currentState == INITIALIZED {
      GenerateRawGeneration(c, w);
    } else if c.currentState == RAW_GENERATION {
      GenerateLakes(c, w);
    } else if c.currentState == LAKES {
      GenerateLocalModifications(c, w);
    } else if c.currentState == FLUID_SPRINGS {
      GenerateVegetalDecoration(c, w);
    } else {
      SetState(c, NextState(c.currentState));
    }
  }

  /** Generation ends exactly at the goal (or stays where it was, if that is further), having run every stage
      in between once and in order. From a new column the floor is bedrock at every goal. */
  method GenerateOverworld(c: ChunkColumn, w: Setting, goalState: GenerationState)
    requires c.Sound() && w.Valid()
    modifies c, c.Repr
    ensures c.Sound()
    ensures c.currentState == if Rank(old(c.currentState)) < Rank(goalState) then goalState else old(c.currentState)
    ensures StagesMake(w, old(c.Blocks()), Rank(old(c.currentState)), c.Blocks(), Rank(c.currentState))
    ensures old(c.currentState) == INITIALIZED && goalState != INITIALIZED ==> BedrockFloor(c.Blocks(), w.ids)
  {
    hide ChunkColumn.Valid, ChunkColumn.Sound, ChunkColumn.Blocks, ChunkColumn.BlockAt, BedrockFloor, StagesMake,
         StageMakes;
    NoStages(w, c.Blocks(), Rank(c.currentState));
    while Rank(c.currentState) < Rank(goalState)
      invariant c.Sound() && Rank(old(c.currentState)) <= Rank(c.currentState)
      invariant Rank(old(c.currentState)) < Rank(goalState) ==> Rank(c.currentState) <= Rank(goalState)
      invariant Rank(old(c.currentState)) >= Rank(goalState) ==> c.currentState == old(c.currentState)
      invariant StagesMake(w, old(c.Blocks()), Rank(old(c.currentState)), c.Blocks(), Rank(c.currentState))
      decreases Rank(goalState) - Rank(c.currentState)
    {
      ghost var before, s := c.Blocks(), c.currentState;
      RunStage(c, w);
      StagesMakeStep(w, old(c.Blocks()), Rank(old(c.currentState)), before, s, c.Blocks());
    }
    RankInjective(c.currentState, goalState);
    if old(c.currentState) == INITIALIZED && goalState != INITIALIZED {
      GeneratedColumnsHaveFloor(w, old(c.Blocks()), c.Blocks(), goalState);
    }
  }
}
