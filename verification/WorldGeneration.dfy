/** Chunks that are generated one by one fit together: raw generation puts the generator's world into the level. */
module WorldGeneration {
  import opened Positions
  import opened Columns
  import opened Terrain
  import opened Generation
  import opened World

  /** Raw generation of the column of a world position puts the generator's block for that very position there, apart
      from the bedrock at the bottom. */
  lemma RawIsTheGeneratorsWorld(w: Setting, q: Position)
    requires Addressable(q) && (w.chunkX, w.chunkZ) == ChunkOf(q)
    ensures Raw(w)[Local(q)] == if q.y == -64 then w.ids.bedrock else w.gen(q)
  {
    ChunkOfIsFloor(q);
    assert w.InWorld(Local(q)) == q by {
      assert q.x == 16 * (q.x / 16) + q.x % 16 && q.z == 16 * (q.z / 16) + q.z % 16;
    }
  }
}
