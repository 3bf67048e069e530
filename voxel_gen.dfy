/** The older design's terrain generator: grass on even layers, air on odd
    ones, whatever the column. */
module VoxelGen {
  import opened Coords
  import opened VoxelBase

  /** Rust's `a % 2` on i32: the remainder takes the sign of a, so it is -1
      for negative odd a. */
  function RemTwo(a: int): (r: int)
    ensures a >= 0 ==> 0 <= r < 2
    ensures a < 0 ==> -2 < r <= 0
    ensures (a - r) % 2 == 0
  {
    if a >= 0 then a % 2 else -((-a) % 2)
  }

  /** The voxel generated at a world position. */
  function GenerateTerrain(pos: IVec3): (v: Voxel)
    ensures v == GRASS_BLOCK || v == AIR
    ensures v == GRASS_BLOCK <==> pos.y % 2 == 0
  {
    if RemTwo(pos.y) == 0 then GRASS_BLOCK else AIR
  }

  /** Grass exactly on even layers, air exactly on odd ones, below zero as
      above it. */
  lemma GrassIffEven(pos: IVec3)
    ensures GenerateTerrain(pos) == GRASS_BLOCK <==> pos.y % 2 == 0
    ensures GenerateTerrain(pos) == AIR <==> pos.y % 2 != 0
  {
    if pos.y < 0 {
      assert (-pos.y) % 2 == 0 <==> pos.y % 2 == 0;
    }
  }

  /** An odd layer below zero leaves remainder -1, which is not 0, so it is
      air. */
  lemma NegativeOddLayerIsAir()
    ensures RemTwo(-1) == -1
    ensures GenerateTerrain(IVec3(0, -1, 0)) == AIR
    ensures GenerateTerrain(IVec3(0, -2, 0)) == GRASS_BLOCK
  {
  }

  /** The column never matters: positions on one layer get the same voxel. */
  lemma LayerOnly(p: IVec3, q: IVec3)
    requires p.y == q.y
    ensures GenerateTerrain(p) == GenerateTerrain(q)
  {
  }
}
