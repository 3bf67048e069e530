/** The older voxel design: chunk and world positions are both plain integer
    vectors, and a voxel is described by its opacity and its shape. */
module VoxelBase {
  import opened Coords

  /** Side length of the older design's chunk storage: the chunk with a
      one-voxel border on every side. */
  const PADDED_CHUNK_SIZE: int := CHUNK_SIZE + 2

  /** The chunk holding a world position: glam's `IVec3 / 16`, which
      truncates each component toward zero. */
  function WorldPosToChunkPos(w: IVec3): (c: IVec3)
    ensures TruncatedQuotient(w.x, c.x) && TruncatedQuotient(w.y, c.y) && TruncatedQuotient(w.z, c.z)
  {
    IVec3(DivChunk(w.x), DivChunk(w.y), DivChunk(w.z))
  }

  /** The world position of a chunk's origin voxel, which lies in that
      chunk. */
  function ChunkPosToWorldPos(c: IVec3): (w: IVec3)
    ensures WorldPosToChunkPos(w) == c
  {
    DivChunkOfMultiple(c.x);
    DivChunkOfMultiple(c.y);
    DivChunkOfMultiple(c.z);
    IVec3(16 * c.x, 16 * c.y, 16 * c.z)
  }

  /** Truncation puts the voxels just below zero into chunk 0, together with
      the first sixteen non-negative ones: -1 and 15 share a chunk. */
  lemma WorldPosTruncates()
    ensures WorldPosToChunkPos(IVec3(-1, -1, -1)) == IVec3(0, 0, 0)
    ensures WorldPosToChunkPos(IVec3(15, 15, 15)) == IVec3(0, 0, 0)
    ensures WorldPosToChunkPos(IVec3(-16, -17, 16)) == IVec3(-1, -1, 1)
  {
  }

  /** For a non-negative world position the chunk's origin is at most the
      position, and the position lies less than a chunk beyond it. */
  lemma NonNegativeWithinChunk(w: IVec3)
    requires w.x >= 0 && w.y >= 0 && w.z >= 0
    ensures var o := ChunkPosToWorldPos(WorldPosToChunkPos(w));
            && o.x <= w.x < o.x + CHUNK_SIZE
            && o.y <= w.y < o.y + CHUNK_SIZE
            && o.z <= w.z < o.z + CHUNK_SIZE
  {
  }

  /** The geometry class of a voxel. */
  datatype VoxelShape = Empty | Default | Custom

  /** What the voxel trait exposes: whether the voxel is opaque and its
      shape. */
  datatype Voxel = Voxel(isOpaque: bool, shape: VoxelShape)

  /** The grass block: opaque, with the default cube shape. */
  const GRASS_BLOCK: Voxel := Voxel(true, Default)
  /** Air: transparent, with no shape. */
  const AIR: Voxel := Voxel(false, Empty)

  /** A voxel has no geometry exactly when its shape is empty. */
  predicate HasNoGeometry(v: Voxel): (b: bool)
    ensures v == AIR ==> b
    ensures v == GRASS_BLOCK ==> !b
  {
    v.shape == Empty
  }

  /** Air draws nothing and grass draws a cube; which of the two a voxel is
      shows in its geometry. */
  lemma GrassAndAirGeometry(v: Voxel)
    requires v == GRASS_BLOCK || v == AIR
    ensures HasNoGeometry(v) <==> v == AIR
    ensures HasNoGeometry(v) <==> !v.isOpaque
  {
  }
}
