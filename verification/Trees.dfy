/** Oak trees (generation/features/tree/oak.cpp) and the stage that grows them. */
module Trees {
  import opened Positions
  import opened DynamicStorage
  import opened Sections
  import opened Columns
  import opened Terrain

  /** The height at which the search for ground starts. */
  const SEARCH_TOP := CHUNK_HEIGHT_MAX - 5

  // ----- The shape of a tree -----

  datatype TreeBlock = TreeBlock(pos: Position, block: int)

  predicate InTrunk(size: int, d: Position) {
    d.x == 0 && d.z == 0 && 0 <= d.y <= size
  }

  /** Two wide layers of leaves around the top of the trunk. */
  predicate InWideLayer(size: int, d: Position) {
    0 <= d.y && size - 2 <= d.y <= size - 1 && -2 <= d.x <= 2 && -2 <= d.z <= 2 && !(d.x == 0 && d.z == 0)
  }

  /** Two layers in the form of a cross, at the last block of the trunk and above it. */
  predicate InCrossLayer(size: int, d: Position) {
    0 <= d.y && size <= d.y <= size + 1 && -1 <= d.x <= 1 && -1 <= d.z <= 1 && (d.x == 0 || d.z == 0)
    && !(d.x == 0 && d.z == 0 && d.y == size)
  }

  predicate InTree(size: int, d: Position) {
    InTrunk(size, d) || InWideLayer(size, d) || InCrossLayer(size, d)
  }

  function BlockOfTree(ids: BlockIds, size: int, d: Position): int {
    if InTrunk(size, d) then ids.log else ids.leaves
  }

  /** The block `t` belongs to a tree of this size. */
  predicate IsTreeBlock(ids: BlockIds, size: int, t: TreeBlock) {
    InTree(size, t.pos) && t.block == BlockOfTree(ids, size, t.pos)
  }

  method WideLayer(ids: BlockIds, size: int, y: int) returns (layer: seq<TreeBlock>)
    requires 0 <= y && size - 2 <= y <= size - 1
    ensures forall t :: t in layer <==> t.pos.y == y && InWideLayer(size, t.pos) && t.block == ids.leaves
    ensures |layer| == 24
  {
    layer := [];
    for x := -2 to 3
      invariant |layer| == 5 * (x + 2) - if x > 0 then 1 else 0
      invariant forall t :: t in layer
                  <==> t.pos.y == y && InWideLayer(size, t.pos) && t.block == ids.leaves && t.pos.x < x
    {
      for z := -2 to 3
        invariant |layer| == 5 * (x + 2) + (z + 2) - if x > 0 || (x == 0 && z > 0) then 1 else 0
        invariant forall t :: t in layer <==> t.pos.y == y && InWideLayer(size, t.pos) && t.block == ids.leaves
                                              && (t.pos.x < x || (t.pos.x == x && t.pos.z < z))
      {
        if x == 0 && z == 0 { continue; }
        layer := layer + [TreeBlock(At(x, y, z), ids.leaves)];
      }
    }
  }

  /** The leaves of a cross before row `x`; the middle of the lower cross is the top of the trunk. */
  function CrossRows(x: int, onTrunk: bool): nat {
    if x <= -1 then 0 else if x == 0 then 1 else (if onTrunk then 2 else 3) + x
  }

  method CrossLayer(ids: BlockIds, size: int, y: int) returns (layer: seq<TreeBlock>)
    requires 0 <= y && size <= y <= size + 1
    ensures forall t :: t in layer <==> t.pos.y == y && InCrossLayer(size, t.pos) && t.block == ids.leaves
    ensures |layer| == if y == size then 4 else 5
  {
    layer := [];
    for x := -1 to 2
      invariant |layer| == CrossRows(x, y == size)
      invariant forall t :: t in layer
                  <==> t.pos.y == y && InCrossLayer(size, t.pos) && t.block == ids.leaves && t.pos.x < x
    {
      for z := -1 to 2
        invariant |layer| == CrossRows(x, y == size)
                           + if x == 0 then z + 1 - (if y == size && z > 0 then 1 else 0) else if z > 0 then 1 else 0
        invariant forall t :: t in layer <==> t.pos.y == y && InCrossLayer(size, t.pos) && t.block == ids.leaves
                                              && (t.pos.x < x || (t.pos.x == x && t.pos.z < z))
      {
        if x == 0 && z == 0 && y == size { continue; }
        if x * x == z * z && x != 0 && z != 0 { continue; }
        layer := layer + [TreeBlock(At(x, y, z), ids.leaves)];
      }
    }
  }

  /** The loops list every block of the tree, and nothing else: a trunk of size + 1 logs, two layers of 24 leaves around
      it, one of 4 and one of 5. */
  method GetTree(ids: BlockIds, size: int) returns (tree: seq<TreeBlock>)
    ensures forall t :: t in tree <==> IsTreeBlock(ids, size, t)
    ensures size >= 2 ==> |tree| == (size + 1) + 24 + 24 + 4 + 5
  {
    hide InWideLayer, InCrossLayer;
    tree := [];
    TopOf(size);
    var y := 0;
    while y <= size + 1
      invariant 0 <= y && (size >= 0 ==> y <= size + 2)
      invariant size >= 2 ==> |tree| == LogsBelow(size, y) + LeavesBelow(size, y)
      invariant forall t :: t in tree <==> IsTreeBlock(ids, size, t) && t.pos.y < y
    {
      LayerOf(size, y);
      var layer := [];
      if y <= size { layer := [TreeBlock(At(0, y, 0), ids.log)]; }
      if size - 2 <= y <= size - 1 {
        var wide := WideLayer(ids, size, y);
        layer := layer + wide;
      }
      if y >= size {
        var cross := CrossLayer(ids, size, y);
        layer := layer + cross;
      }
      assert forall t :: t in layer <==> IsTreeBlock(ids, size, t) && t.pos.y == y;
      tree := tree + layer;
      y := y + 1;
    }
  }

  function LogsBelow(size: nat, y: nat): nat { if y <= size + 1 then y else size + 1 }

  function LeavesBelow(size: nat, y: nat): nat
    requires size >= 2
  {
    if y <= size - 2 then 0
    else if y == size - 1 then 24
    else if y == size then 48
    else if y == size + 1 then 52
    else 57
  }

  /** Trunk and leaves lie apart, and each layer belongs to its heights. */
  lemma LayerOf(size: int, y: int)
    ensures forall d: Position :: d.y == y && InWideLayer(size, d) ==> size - 2 <= y <= size - 1 && !InTrunk(size, d)
    ensures forall d: Position :: d.y == y && InCrossLayer(size, d) ==> y >= size && !InTrunk(size, d)
  {}

  lemma TopOf(size: int)
    ensures forall d: Position :: InTree(size, d) ==> 0 <= d.y <= size + 1
  {}

  // ----- Where trees grow -----

  /** Is a tree planned at `p`? Its ground is the highest block of its column of blocks that is not air. */
  ghost predicate Planned(b: Column, w: Setting, p: Position)
    requires IsColumn(b)
  {
    && Plantable(p)
    && (b[At(p.x, p.y - 1, p.z)] == w.ids.grass || b[At(p.x, p.y - 1, p.z)] == w.ids.dirt)
    && w.wantsTree(w.InWorld(At(p.x, p.y - 1, p.z)))
    && forall k :: p.y <= k <= SEARCH_TOP ==> b[At(p.x, k, p.z)] == w.ids.air
  }

  /** Positions a tree can be planned at. */
  predicate Plantable(p: Position) {
    InPlane(p.x, p.z) && CHUNK_HEIGHT_MIN <= p.y - 1 <= SEARCH_TOP
  }

  /** Below the highest block that is not air nothing is planned, and above it only on that block. */
  lemma PlannedOnTop(b: Column, w: Setting, q: Position, y: int)
    requires IsColumn(b) && InPlane(q.x, q.z) && CHUNK_HEIGHT_MIN <= y <= SEARCH_TOP
    requires b[At(q.x, y, q.z)] != w.ids.air && w.ids.air != w.ids.grass && w.ids.air != w.ids.dirt
    requires forall k :: y < k <= SEARCH_TOP ==> b[At(q.x, k, q.z)] == w.ids.air
    ensures Planned(b, w, q) <==>
            && q.y == y + 1 && w.wantsTree(w.InWorld(At(q.x, y, q.z)))
            && (b[At(q.x, y, q.z)] == w.ids.grass || b[At(q.x, y, q.z)] == w.ids.dirt)
  {}

  lemma NothingPlanned(b: Column, w: Setting, q: Position)
    requires IsColumn(b) && InPlane(q.x, q.z) && w.ids.air != w.ids.grass && w.ids.air != w.ids.dirt
    requires forall k :: CHUNK_HEIGHT_MIN <= k <= SEARCH_TOP ==> b[At(q.x, k, q.z)] == w.ids.air
    ensures !Planned(b, w, q)
  {}

  function Offset(q: Position, p: Position): Position {
    Position(q.x - p.x, q.y - p.y, q.z - p.z)
  }

  function TreeSize(w: Setting, p: Position): int {
    w.treeSize(w.InWorld(p))
  }

  /** A chunk with the layers on top of it: a tree may look and grow above the column. */
  ghost predicate IsTower(t: Column) {
    forall p: Position :: p in t <==> InTower(p)
  }

  /** The 24 positions around the trunk, `y` above its lowest block. */
  predicate Around(p: Position, y: int, q: Position) {
    q.y == p.y + y && p.x - 2 <= q.x <= p.x + 2 && p.z - 2 <= q.z <= p.z + 2 && !(q.x == p.x && q.z == p.z)
  }

  ghost predicate NoLogAt(t: Column, w: Setting, q: Position)
    requires IsTower(t)
  {
    InPlane(q.x, q.z) && (InTower(q) ==> t[q] != w.ids.log)
  }

  /** Is there air where the trunk needs it, and no log around, inside the chunk? */
  ghost predicate LayerFree(t: Column, w: Setting, p: Position, y: int)
    requires IsTower(t)
  {
    var trunk := At(p.x, p.y + y, p.z);
    InTower(trunk) && t[trunk] == w.ids.air && forall q :: Around(p, y, q) ==> NoLogAt(t, w, q)
  }

  ghost predicate HasSpace(t: Column, w: Setting, p: Position)
    requires IsTower(t)
  {
    forall y :: 0 <= y <= w.growSpace(p) ==> LayerFree(t, w, p, y)
  }

  predicate NearTrunk(p: Position, height: int, q: Position) {
    && (q.x, q.z) != (p.x, p.z) && p.y <= q.y <= p.y + height
    && p.x - 2 <= q.x <= p.x + 2 && p.z - 2 <= q.z <= p.z + 2
  }

  /** Where a tree has space it stands whole in the chunk: two blocks from every side, and no log is within two
      blocks of its trunk as high as it asked for. */
  lemma SpaceInNumbers(t: Column, w: Setting, p: Position)
    requires IsTower(t) && w.Valid() && Plantable(p) && HasSpace(t, w, p) && w.growSpace(p) >= 0
    ensures 2 <= p.x <= 13 && -63 <= p.y <= 316 && 2 <= p.z <= 13
    ensures forall d :: InTree(TreeSize(w, p), d) ==> InTower(Position(p.x + d.x, p.y + d.y, p.z + d.z))
    ensures forall q :: NearTrunk(p, w.growSpace(p), q) ==> t[q] != w.ids.log
  {
    assert LayerFree(t, w, p, 0);
    assert Around(p, 0, At(p.x - 2, p.y, p.z - 2)) && NoLogAt(t, w, At(p.x - 2, p.y, p.z - 2));
    assert Around(p, 0, At(p.x + 2, p.y, p.z + 2)) && NoLogAt(t, w, At(p.x + 2, p.y, p.z + 2));
    forall q | NearTrunk(p, w.growSpace(p), q) ensures t[q] != w.ids.log {
      assert LayerFree(t, w, p, q.y - p.y);
      assert Around(p, q.y - p.y, q) && NoLogAt(t, w, q);
    }
  }

  // ----- What growing does -----

  /** After a tree grew at `p`: its blocks replace everything but logs. */
  ghost function Grown(t: Column, w: Setting, p: Position): (r: Column)
    requires IsTower(t)
    ensures IsTower(r)
  {
    imap q: Position | InTower(q) :: GrownAt(t[q], w, p, q)
  }

  function GrownAt(block: int, w: Setting, p: Position, q: Position): int {
    if InTree(TreeSize(w, p), Offset(q, p)) && block != w.ids.log then BlockOfTree(w.ids, TreeSize(w, p), Offset(q, p))
        else block
  }

  /** After several trees grew, one after the other. */
  ghost function GrownAll(t: Column, w: Setting, trees: seq<Position>): (r: Column)
    requires IsTower(t)
    ensures IsTower(r)
  {
    if trees == [] then t else Grown(GrownAll(t, w, trees[..|trees| - 1]), w, trees[|trees| - 1])
  }

  /** The trees grew in turn, each where it was planned and where there was space when its turn came. */
  ghost predicate GrewInTurn(b: Column, t: Column, w: Setting, trees: seq<Position>)
    requires IsColumn(b) && IsTower(t)
  {
    forall k :: 0 <= k < |trees| ==> Planned(b, w, trees[k]) && HasSpace(GrownAll(t, w, trees[..k]), w, trees[k])
  }

  lemma GrewOnce(b: Column, t: Column, w: Setting, trees: seq<Position>, p: Position)
    requires IsColumn(b) && IsTower(t) && GrewInTurn(b, t, w, trees)
    requires Planned(b, w, p) && HasSpace(GrownAll(t, w, trees), w, p)
    ensures GrewInTurn(b, t, w, trees + [p]) && GrownAll(t, w, trees + [p]) == Grown(GrownAll(t, w, trees), w, p)
  {
    hide Planned, HasSpace, Grown;
    var all := trees + [p];
    assert all[..|trees|] == trees;
    forall k | 0 <= k < |all| ensures Planned(b, w, all[k]) && HasSpace(GrownAll(t, w, all[..k]), w, all[k]) {
      if k < |trees| { assert all[..k] == trees[..k]; }
    }
  }

  /** Growing never brings back air, and never takes away a log. */
  ghost predicate OnlyFills(t: Column, r: Column, ids: BlockIds)
    requires IsTower(t) && IsTower(r)
  {
    forall q: Position :: InTower(q) ==> (t[q] != ids.air ==> r[q] != ids.air) && (t[q] == ids.log ==> r[q] == ids.log)
  }

  lemma GrownOnlyFills(t: Column, w: Setting, p: Position)
    requires IsTower(t) && w.ids.Valid()
    ensures OnlyFills(t, Grown(t, w, p), w.ids)
  {
    hide InTree;
  }

  /** So space that is lost stays lost. */
  lemma NoSpaceStays(t: Column, r: Column, w: Setting, p: Position)
    requires IsTower(t) && IsTower(r) && OnlyFills(t, r, w.ids)
    ensures HasSpace(r, w, p) ==> HasSpace(t, w, p)
  {
    if HasSpace(r, w, p) {
      forall y | 0 <= y <= w.growSpace(p) ensures LayerFree(t, w, p, y) {
        assert LayerFree(r, w, p, y);
        forall q | Around(p, y, q) ensures NoLogAt(t, w, q) { assert NoLogAt(r, w, q); }
      }
    }
  }

  /** A tree with a trunk takes the space it grew in. */
  predicate TakesSpace(w: Setting, p: Position) {
    TreeSize(w, p) >= 0 && w.growSpace(p) >= 0
  }

  lemma GrownTakesSpace(t: Column, w: Setting, p: Position)
    requires IsTower(t) && w.ids.Valid() && Plantable(p) && TakesSpace(w, p)
    ensures !HasSpace(Grown(t, w, p), w, p)
  {
    assert Offset(p, p) == Position(0, 0, 0) && InTrunk(TreeSize(w, p), Offset(p, p));
    assert At(p.x, p.y + 0, p.z) == p && InTower(p);
    assert Grown(t, w, p)[p] == w.ids.log;
    assert !LayerFree(Grown(t, w, p), w, p, 0);
  }

  /** No planned tree that would take space has any left, except where one still waits. */
  ghost predicate NoSpaceLeft(b: Column, t: Column, w: Setting, waiting: seq<Position>)
    requires IsColumn(b) && IsTower(t)
  {
    forall p :: Planned(b, w, p) && TakesSpace(w, p) && HasSpace(t, w, p) ==> p in waiting
  }

  lemma SpaceShrinks(b: Column, t: Column, w: Setting, waiting: seq<Position>)
    requires IsColumn(b) && IsTower(t) && w.ids.Valid() && waiting != [] && NoSpaceLeft(b, t, w, waiting)
    ensures NoSpaceLeft(b, Grown(t, w, waiting[0]), w, waiting[1..])
  {
    hide HasSpace, Grown, OnlyFills, TakesSpace, BlockIds.Valid;
    GrownOnlyFills(t, w, waiting[0]);
    var r := Grown(t, w, waiting[0]);
    forall q | Planned(b, w, q) && TakesSpace(w, q) && HasSpace(r, w, q) ensures q in waiting[1..] {
      NoSpaceStays(t, r, w, q);
      if q == waiting[0] { GrownTakesSpace(t, w, q); }
    }
  }

  // ----- The chunk before and after -----

  /** The blocks of a tower that lie in the column. */
  ghost function Bottom(t: Column): (b: Column)
    requires IsTower(t)
    ensures IsColumn(b)
  {
    imap q: Position | InColumn(q) :: t[q]
  }

  /** The column `r` is `b` with some planned trees: what differs is a block of such a tree, and was no log. */
  ghost predicate Decorated(w: Setting, b: Column, r: Column)
    requires IsColumn(b) && IsColumn(r)
  {
    forall q: Position :: InColumn(q) && r[q] != b[q] ==>
      b[q] != w.ids.log && exists p :: Planned(b, w, p) && InTree(TreeSize(w, p), Offset(q, p))
                                       && r[q] == BlockOfTree(w.ids, TreeSize(w, p), Offset(q, p))
  }

  lemma {:induction false} GrownAllIsDecorated(w: Setting, t: Column, trees: seq<Position>)
    requires IsTower(t) && forall k :: 0 <= k < |trees| ==> Planned(Bottom(t), w, trees[k])
    ensures Decorated(w, Bottom(t), Bottom(GrownAll(t, w, trees)))
  {
    hide Planned, InTree, BlockOfTree;
    if trees != [] {
      var front, p := trees[..|trees| - 1], trees[|trees| - 1];
      GrownAllIsDecorated(w, t, front);
      var b, r, after := Bottom(t), Bottom(GrownAll(t, w, front)), Bottom(GrownAll(t, w, trees));
      forall q: Position | InColumn(q) && after[q] != b[q]
        ensures b[q] != w.ids.log && exists p :: Planned(b, w, p) && InTree(TreeSize(w, p), Offset(q, p))
                                                 && after[q] == BlockOfTree(w.ids, TreeSize(w, p), Offset(q, p))
      {
        assert after[q] == GrownAt(r[q], w, p, q);
        if after[q] == r[q] { assert r[q] != b[q]; }
      }
    }
  }

  /** Trees stand on the ground and grow up, so a floor at the bottom of the world stays. */
  lemma DecoratedKeepsFloor(w: Setting, b: Column, r: Column)
    requires IsColumn(b) && IsColumn(r) && BedrockFloor(b, w.ids) && Decorated(w, b, r)
    ensures BedrockFloor(r, w.ids)
  {
    forall q: Position, p | InColumn(q) && q.y == CHUNK_HEIGHT_MIN && Planned(b, w, p)
      ensures !InTree(TreeSize(w, p), Offset(q, p))
    {}
  }

  // ----- The stage as it runs -----

  /** The tower `r` is `t` after one block of a tree at `p`. */
  ghost predicate Placed(t: Column, r: Column, log: int, p: Position, block: TreeBlock)
    requires IsTower(t) && IsTower(r)
  {
    forall q: Position :: InTower(q) ==> r[q] == if Offset(q, p) == block.pos && t[q] != log then block.block else t[q]
  }

  /** The tower `r` is `t` after those blocks of a tree at `p` that are `done`. */
  ghost predicate PartlyGrown(t: Column, r: Column, ids: BlockIds, size: int, p: Position, done: set<Position>)
    requires IsTower(t) && IsTower(r)
  {
    forall q: Position :: InTower(q) ==>
      r[q] == if Offset(q, p) in done && t[q] != ids.log then BlockOfTree(ids, size, Offset(q, p)) else t[q]
  }

  ghost function PositionsOf(tree: seq<TreeBlock>): set<Position> {
    set k | 0 <= k < |tree| :: tree[k].pos
  }

  lemma OneMore(tree: seq<TreeBlock>, i: nat)
    requires i < |tree|
    ensures PositionsOf(tree[..i + 1]) == PositionsOf(tree[..i]) + {tree[i].pos}
  {
    assert tree[..i + 1] == tree[..i] + [tree[i]];
    assert tree[..i + 1][i] == tree[i];
    forall k | 0 <= k < i ensures tree[..i][k].pos in PositionsOf(tree[..i + 1]) {
      assert tree[..i + 1][k] == tree[..i][k];
    }
  }

  lemma GrowsOn(t: Column, r: Column, s: Column, ids: BlockIds, size: int, p: Position, done: set<Position>,
      block: TreeBlock)
    requires IsTower(t) && IsTower(r) && IsTower(s)
    requires PartlyGrown(t, r, ids, size, p, done) && Placed(r, s, ids.log, p, block) && IsTreeBlock(ids, size, block)
    ensures PartlyGrown(t, s, ids, size, p, done + {block.pos})
  {
    hide InTree;
  }

  lemma FullyGrown(t: Column, r: Column, w: Setting, p: Position, tree: seq<TreeBlock>)
    requires IsTower(t) && IsTower(r) && PartlyGrown(t, r, w.ids, TreeSize(w, p), p, PositionsOf(tree))
    requires forall block :: block in tree <==> IsTreeBlock(w.ids, TreeSize(w, p), block)
    ensures r == Grown(t, w, p)
  {
    hide InTree, BlockOfTree;
    var size := TreeSize(w, p);
    forall d ensures d in PositionsOf(tree) <==> InTree(size, d) {
      if InTree(size, d) { assert TreeBlock(d, BlockOfTree(w.ids, size, d)) in tree; }
      if d in PositionsOf(tree) {
        var k :| 0 <= k < |tree| && tree[k].pos == d;
        assert tree[k] in tree;
      }
    }
  }

  /** One block of a tree; nothing outside the chunk is written, and no log is replaced. */
  method PlaceTreeBlock(c: ChunkColumn, log: int, p: Position, t: TreeBlock)
    requires c.Sound() && Plantable(p) && 0 <= t.pos.y <= 8 && IsBlockId(t.block)
    modifies c.Repr - {c}
    ensures c.Sound() && Placed(old(c.Tower()), c.Tower(), log, p, t)
  {
    hide ChunkColumn.Valid, ChunkColumn.Sound, ChunkColumn.BlockRead, ChunkColumn.Blocks, ChunkColumn.BlockAt;
    var pos := At(p.x + t.pos.x, p.y + t.pos.y, p.z + t.pos.z);
    assert forall q: Position :: Offset(q, p) == t.pos <==> q == pos;
    if pos.x < 0 || pos.x >= SECTION_WIDTH || pos.z < 0 || pos.z >= SECTION_WIDTH { return; }
    var here := c.GetBlock(pos);
    if here.value == log { return; }
    PlaceInTower(c, pos, t.block);
  }

  /** The blocks of the tree at `p`, one after the other. */
  method GrowTree(c: ChunkColumn, w: Setting, p: Position)
    requires c.Sound() && w.Valid() && Plantable(p)
    modifies c.Repr - {c}
    ensures c.Sound() && c.Tower() == Grown(old(c.Tower()), w, p)
  {
    hide ChunkColumn.Valid, ChunkColumn.Sound, ChunkColumn.Tower, InTree, BlockOfTree, Placed, PartlyGrown, Grown,
         Plantable;
    hide Setting.Valid, PositionsOf;
    ghost var before := c.Tower();
    var size := w.treeSize(w.InWorld(p));
    var tree := GetTree(w.ids, size);
    TreeFits(w, p);
    NothingGrown(before, w.ids, size, p);
    assert tree[..0] == [];
    for i := 0 to |tree|
      invariant c.Sound() && PartlyGrown(before, c.Tower(), w.ids, size, p, PositionsOf(tree[..i]))
    {
      assert IsTreeBlock(w.ids, size, tree[i]);
      ghost var now := c.Tower();
      PlaceTreeBlock(c, w.ids.log, p, tree[i]);
      GrowsOn(before, now, c.Tower(), w.ids, size, p, PositionsOf(tree[..i]), tree[i]);
      OneMore(tree, i);
    }
    assert tree[..|tree|] == tree;
    FullyGrown(before, c.Tower(), w, p, tree);
  }

  lemma NothingGrown(t: Column, ids: BlockIds, size: int, p: Position)
    requires IsTower(t)
    ensures PartlyGrown(t, t, ids, size, p, PositionsOf([]))
  {}

  /** The blocks of a tree are protocol ids, at most 8 above its lowest. */
  lemma TreeFits(w: Setting, p: Position)
    requires w.Valid()
    ensures forall d :: InTree(TreeSize(w, p), d) ==> 0 <= d.y <= 8 && IsBlockId(BlockOfTree(w.ids, TreeSize(w, p), d))
  {}

  /** Are there no logs in one row of the layer, and is all of the row inside the chunk? */
  method IsRowFree(c: ChunkColumn, w: Setting, p: Position, y: int, x: int) returns (free: bool)
    requires c.Sound() && Plantable(p) && 0 <= y <= 6 && -2 <= x <= 2
    ensures free <==> forall q :: Around(p, y, q) && q.x == p.x + x ==> NoLogAt(c.Tower(), w, q)
  {
    hide ChunkColumn.Valid, ChunkColumn.Sound, ChunkColumn.BlockRead, ChunkColumn.Tower, ChunkColumn.BlockAt;
    ghost var t := c.Tower();
    for z := -2 to 3
      invariant c.Sound() && c.Tower() == t
      invariant forall q :: Around(p, y, q) && q.x == p.x + x && q.z < p.z + z ==> NoLogAt(t, w, q)
    {
      if x == 0 && z == 0 { continue; }
      ghost var q := At(p.x + x, p.y + y, p.z + z);
      assert Around(p, y, q) && q.x == p.x + x;
      if p.x + x < 0 || p.x + x >= SECTION_WIDTH || p.z + z < 0 || p.z + z >= SECTION_WIDTH {
        assert !NoLogAt(t, w, q);
        return false;
      }
      var near := c.GetBlock(At(p.x + x, p.y + y, p.z + z));
      if near.value == w.ids.log {
        assert !NoLogAt(t, w, q);
        return false;
      }
    }
    free := true;
  }

  method IsLayerFree(c: ChunkColumn, w: Setting, p: Position, y: int) returns (free: bool)
    requires c.Sound() && Plantable(p) && 0 <= y <= 6
    ensures free <==> LayerFree(c.Tower(), w, p, y)
  {
    hide ChunkColumn.Valid, ChunkColumn.Sound, ChunkColumn.BlockRead, ChunkColumn.Tower, ChunkColumn.BlockAt, NoLogAt;
    ghost var t := c.Tower();
    var block := c.GetBlock(At(p.x, p.y + y, p.z));
    if block.value != w.ids.air { return false; }
    for x := -2 to 3
      invariant c.Sound() && c.Tower() == t
      invariant forall q :: Around(p, y, q) && q.x < p.x + x ==> NoLogAt(t, w, q)
    {
      var row := IsRowFree(c, w, p, y, x);
      if !row { return false; }
    }
    free := true;
  }

  lemma TowerIsTower(c: ChunkColumn)
    requires c.Valid()
    ensures IsTower(c.Tower())
  {}

  /** The test of filterTreeGrowSpace for one position. */
  method IsFree(c: ChunkColumn, w: Setting, p: Position) returns (free: bool)
    requires c.Sound() && Plantable(p) && w.growSpace(p) <= 6
    ensures free <==> HasSpace(c.Tower(), w, p)
  {
    hide ChunkColumn.Valid, ChunkColumn.Sound, ChunkColumn.Tower, ChunkColumn.BlockAt, LayerFree, IsTower, Plantable,
         InTower;
    ghost var t := c.Tower();
    TowerIsTower(c);
    var y := 0;
    while y <= w.growSpace(p)
      invariant 0 <= y && c.Sound() && c.Tower() == t
      invariant forall k :: 0 <= k < y ==> LayerFree(t, w, p, k)
    {
      var layer := IsLayerFree(c, w, p, y);
      if !layer { return false; }
      y := y + 1;
    }
    free := true;
  }

  class OakTree {
    const chunk: ChunkColumn
    const w: Setting
    var positions: seq<Position>

    ghost predicate Valid()
      reads this, chunk.Repr
    {
      chunk.Sound() && w.Valid() && this !in chunk.Repr && forall p :: p in positions ==> Plantable(p)
    }

    constructor (chunk: ChunkColumn, w: Setting)
      requires chunk.Sound() && w.Valid()
      ensures Valid() && this.chunk == chunk && this.w == w && positions == []
    {
      this.chunk, this.w, positions := chunk, w, [];
    }

    /** The search finds exactly the planned positions. */
    method GetPosForTreeGeneration()
      requires Valid() && positions == []
      modifies this
      ensures Valid()
      ensures forall p :: p in positions <==> Planned(chunk.Blocks(), w, p)
    {
      hide ChunkColumn.Valid, ChunkColumn.Sound, ChunkColumn.Blocks, ChunkColumn.BlockAt, ChunkColumn.BlockRead;
      for z := 0 to SECTION_WIDTH
        invariant Valid()
        invariant forall p :: p in positions <==> Planned(chunk.Blocks(), w, p) && p.z < z
      {
        for x := 0 to SECTION_WIDTH
          invariant Valid()
          invariant forall p :: p in positions <==> Planned(chunk.Blocks(), w, p) && (p.z < z || (p.z == z && p.x < x))
        {
          ghost var before := positions;
          var found, p := GroundOf(x, z);
          if found { positions := positions + [p]; }
        }
      }
    }

    /** The search in one column of blocks, from the top down. */
    method GroundOf(x: int, z: int) returns (found: bool, p: Position)
      requires Valid() && InPlane(x, z)
      ensures found ==> p.x == x && p.z == z
      ensures forall q: Position :: q.x == x && q.z == z ==> (Planned(chunk.Blocks(), w, q) <==> found && q == p)
    {
      hide ChunkColumn.Valid, ChunkColumn.Sound, ChunkColumn.Blocks, ChunkColumn.BlockAt, ChunkColumn.BlockRead,
           Planned;
      found, p := false, At(x, 0, z);
      var y := SEARCH_TOP;
      while CHUNK_HEIGHT_MIN <= y
        invariant CHUNK_HEIGHT_MIN - 1 <= y <= SEARCH_TOP
        invariant forall k :: y < k <= SEARCH_TOP ==> chunk.Blocks()[At(x, k, z)] == w.ids.air
      {
        var block := chunk.GetBlock(At(x, y, z));
        if block.value == w.ids.air {
          y := y - 1;
          continue;
        }
        forall q: Position | q.x == x && q.z == z { PlannedOnTop(chunk.Blocks(), w, q, y); }
        if (block.value == w.ids.grass || block.value == w.ids.dirt) && w.wantsTree(w.InWorld(At(x, y, z))) {
          found, p := true, At(x, y + 1, z);
        }
        return;
      }
      forall q: Position | q.x == x && q.z == z { NothingPlanned(chunk.Blocks(), w, q); }
    }

    /** Keeps exactly the positions with space, as the chunk is now. */
    method FilterTreeGrowSpace()
      requires Valid()
      modifies this
      ensures Valid() && |positions| <= |old(positions)|
      ensures forall p :: p in positions <==> p in old(positions) && HasSpace(chunk.Tower(), w, p)
    {
      hide ChunkColumn.Valid, ChunkColumn.Sound, ChunkColumn.Tower, ChunkColumn.BlockAt, HasSpace, Plantable, IsTower,
           InTower;
      ghost var t := chunk.Tower();
      TowerIsTower(chunk);
      var kept := [];
      for i := 0 to |positions|
        invariant positions == old(positions) && |kept| <= i && chunk.Sound() && chunk.Tower() == t
        invariant forall p :: p in kept <==> p in positions[..i] && HasSpace(t, w, p)
      {
        var free := IsFree(chunk, w, positions[i]);
        assert positions[..i + 1] == positions[..i] + [positions[i]];
        if free { kept := kept + [positions[i]]; }
      }
      assert positions[..|positions|] == positions;
      positions := kept;
    }

    /** The first position grows its tree. */
    method GenerateTree()
      requires Valid() && positions != []
      modifies this, chunk.Repr - {chunk}
      ensures Valid() && positions == old(positions)[1..]
      ensures chunk.Tower() == Grown(old(chunk.Tower()), w, old(positions)[0])
    {
      hide ChunkColumn.Valid, ChunkColumn.Sound, ChunkColumn.Tower, ChunkColumn.BlockAt, Grown, Setting.Valid,
           Plantable;
      GrowTree(chunk, w, positions[0]);
      positions := positions[1..];
    }
  }

  /** The stage: trees grow one after the other, each where it was planned and there is still space, until no planned
      position has space. */
  method GrowTrees(c: ChunkColumn, w: Setting) returns (ghost trees: seq<Position>)
    requires c.Sound() && w.Valid()
    modifies c.Repr - {c}
    ensures c.Sound() && c.Tower() == GrownAll(old(c.Tower()), w, trees)
    ensures GrewInTurn(old(c.Blocks()), old(c.Tower()), w, trees)
    ensures NoSpaceLeft(old(c.Blocks()), c.Tower(), w, [])
    ensures Decorated(w, old(c.Blocks()), c.Blocks())
  {
    hide ChunkColumn.Valid, ChunkColumn.Sound, ChunkColumn.Blocks, ChunkColumn.Tower, ChunkColumn.BlockAt;
    hide Planned, Decorated, HasSpace, Grown, GrewInTurn, GrownAll, NoSpaceLeft, Turn, Setting.Valid, Plantable, Bottom;
    ghost var blocks, tower := c.Blocks(), c.Tower();
    BlocksAreBottom(c);
    var oakTree := new OakTree(c, w);
    oakTree.GetPosForTreeGeneration();
    ghost var planned := oakTree.positions;
    oakTree.FilterTreeGrowSpace();
    trees := [];
    TurnsBegin(blocks, tower, w, planned, oakTree.positions);
    while oakTree.positions != []
      invariant oakTree.Valid() && oakTree.chunk == c && oakTree.w == w
      invariant Turn(blocks, tower, c.Tower(), w, trees, oakTree.positions)
      decreases |oakTree.positions|
    {
      ghost var now, waiting := c.Tower(), oakTree.positions;
      oakTree.GenerateTree();
      oakTree.FilterTreeGrowSpace();
      TurnPasses(blocks, tower, now, w, trees, waiting, oakTree.positions);
      trees := trees + [waiting[0]];
    }
    BlocksAreBottom(c);
    TurnsEnd(tower, c.Tower(), w, trees);
  }

  /** Between two turns: the trees that grew, and the positions that wait. */
  ghost predicate Turn(b: Column, t: Column, now: Column, w: Setting, trees: seq<Position>, waiting: seq<Position>)
    requires IsColumn(b) && IsTower(t) && IsTower(now)
  {
    && now == GrownAll(t, w, trees) && GrewInTurn(b, t, w, trees) && NoSpaceLeft(b, now, w, waiting)
    && forall p :: p in waiting ==> Planned(b, w, p) && HasSpace(now, w, p)
  }

  lemma TurnsBegin(b: Column, t: Column, w: Setting, planned: seq<Position>, kept: seq<Position>)
    requires IsColumn(b) && IsTower(t) && forall p :: p in planned <==> Planned(b, w, p)
    requires forall p :: p in kept <==> p in planned && HasSpace(t, w, p)
    ensures Turn(b, t, t, w, [], kept)
  {
    hide Planned, HasSpace;
  }

  /** The first position that waits gets its tree; only positions without space are given up. */
  lemma TurnPasses(b: Column, t: Column, now: Column, w: Setting, trees: seq<Position>, waiting: seq<Position>,
      kept: seq<Position>)
    requires IsColumn(b) && IsTower(t) && IsTower(now) && w.Valid() && waiting != []
               && Turn(b, t, now, w, trees, waiting)
    requires forall p :: p in kept <==> p in waiting[1..] && HasSpace(Grown(now, w, waiting[0]), w, p)
    ensures Turn(b, t, Grown(now, w, waiting[0]), w, trees + [waiting[0]], kept)
  {
    hide Planned, HasSpace, Grown, GrownAll, GrewInTurn, BlockIds.Valid, TakesSpace;
    GrewOnce(b, t, w, trees, waiting[0]);
    SpaceShrinks(b, now, w, waiting);
  }

  lemma TurnsEnd(t: Column, now: Column, w: Setting, trees: seq<Position>)
    requires IsTower(t) && IsTower(now)
    ensures Turn(Bottom(t), t, now, w, trees, []) ==>
              && now == GrownAll(t, w, trees) && GrewInTurn(Bottom(t), t, w, trees)
              && NoSpaceLeft(Bottom(t), now, w, []) && Decorated(w, Bottom(t), Bottom(now))
  {
    hide Planned, HasSpace, Decorated, Bottom, NoSpaceLeft;
    if Turn(Bottom(t), t, now, w, trees, []) { GrownAllIsDecorated(w, t, trees); }
  }

  lemma BlocksAreBottom(c: ChunkColumn)
    requires c.Valid()
    ensures c.Blocks() == Bottom(c.Tower())
  {
    hide ChunkColumn.Valid, ChunkColumn.Blocks, ChunkColumn.Tower, ChunkColumn.BlockAt;
  }
}
