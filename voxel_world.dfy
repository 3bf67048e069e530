/** The older design's world: the generated chunks by chunk position, and
    the positions whose chunks are loaded. */
module VoxelWorlds {
  import opened Options
  import opened Coords
  import opened Mesh
  import opened VoxelBase
  import opened VoxelStorage
  import opened VoxelGen
  import opened VoxelMeshing
  import opened VoxelChunks

  /** The range of Rust's i32, the component type of a world position. */
  predicate IsI32(i: int)
  {
    -0x8000_0000 <= i < 0x8000_0000
  }

  /** A chunk exactly as creating it leaves it: generated by the default
      terrain generator at its own position, with no mesh yet. */
  ghost predicate Pristine(c: VoxelChunk, pos: IVec3)
    reads c, c.voxels
  {
    && c.Valid() && c.offset == pos && c.mesh == None
    && c.voxels[..] == Writes(pos, GenerateTerrain, VOXEL_COUNT)
    && c.empty == NoneShaped(pos, GenerateTerrain, VOXEL_COUNT)
  }

  /** The chunk position p relative to the player's chunk. */
  function Relative(player: IVec3, p: IVec3): IVec3
  {
    IVec3(p.x - player.x, p.y - player.y, p.z - player.z)
  }

  /** p lies in the half-open cube [lo, hi)^3 around the player's chunk. */
  predicate InView(player: IVec3, lo: int, hi: int, p: IVec3)
  {
    var r := Relative(player, p);
    lo <= r.x < hi && lo <= r.y < hi && lo <= r.z < hi
  }

  /** The view cube around the player for view distance d, with hi the
      distance converted to i32 and lo its negation, is half-open: for a
      positive hi it reaches hi chunks below the player on each axis but
      only hi - 1 above. A distance of at least 2^31 and below 2^32 converts
      to a negative hi, and then the cube holds nothing. */
  lemma ViewIsHalfOpen(player: IVec3, d: nat, lo: int, hi: int)
    requires hi == AsI32(d) && lo == NegI32(hi)
    ensures hi > 0 ==> InView(player, lo, hi, IVecAdd(player, IVec3(lo, lo, lo)))
    ensures hi > 0 ==> InView(player, lo, hi, IVecAdd(player, IVec3(hi - 1, hi - 1, hi - 1)))
    ensures !InView(player, lo, hi, IVecAdd(player, IVec3(hi, 0, 0)))
    ensures 0x8000_0000 <= d < 0x1_0000_0000 ==> hi < 0
    ensures hi <= 0 ==> forall p :: !InView(player, lo, hi, p)
  {
  }

  class VoxelWorld {
    var chunks: map<IVec3, VoxelChunk>
    var loadedChunks: set<IVec3>

    /** Every chunk is well formed and sits under its own position, so
        distinct positions hold distinct chunks. */
    ghost predicate Valid()
      reads this, chunks.Values
    {
      forall k | k in chunks :: chunks[k].Valid() && chunks[k].offset == k
    }

    /** An empty world: no chunks, none loaded. */
    constructor New()
      ensures Valid() && chunks == map[] && loadedChunks == {}
    {
      chunks := map[];
      loadedChunks := {};
    }

    /** The chunk at pos, or None when none was created there. */
    function GetChunk(pos: IVec3): (r: Option<VoxelChunk>)
      reads this
      ensures r.Some? <==> pos in chunks
      ensures r.Some? ==> r.value == chunks[pos] && r.value in chunks.Values
    {
      if pos in chunks then Some(chunks[pos]) else None
    }

    /** Generates the chunk at pos unless there is one already; says whether
        there was. An existing chunk is kept as it is. */
    method CreateChunk(pos: IVec3) returns (existed: bool)
      requires Valid()
      modifies this
      ensures Valid() && loadedChunks == old(loadedChunks)
      ensures existed <==> pos in old(chunks)
      ensures existed ==> chunks == old(chunks)
      ensures !existed ==> pos in chunks && chunks == old(chunks)[pos := chunks[pos]] && fresh(chunks[pos]) && Pristine(chunks[pos], pos)
      ensures GetChunk(pos).Some?
    {
      if pos !in chunks {
        var chunk := new VoxelChunk.New(pos, GenerateTerrain);
        chunks := chunks[pos := chunk];
        existed := false;
      } else {
        existed := true;
      }
    }

    /** Whether the chunk at pos is loaded. */
    predicate IsChunkLoaded(pos: IVec3): (b: bool)
      reads this
      ensures b <==> pos in loadedChunks
    {
      pos in loadedChunks
    }

    /** Marks the chunk at pos loaded; nothing is ever unmarked. */
    method MarkChunkLoaded(pos: IVec3)
      modifies this
      ensures loadedChunks == old(loadedChunks) + {pos} && chunks == old(chunks)
      ensures IsChunkLoaded(pos) && old(loadedChunks) <= loadedChunks
    {
      loadedChunks := loadedChunks + {pos};
    }

    /** Creates every chunk of the half-open cube [-d, d)^3 around the
        player's chunk, d being the view distance converted to i32; chunks
        already there stay as they are, and nothing is marked loaded. */
    method GetAndLoadChunksInViewDistance(viewDistance: nat, playerChunkPos: IVec3)
      requires Valid()
      modifies this
      ensures Valid() && loadedChunks == old(loadedChunks)
      ensures forall p :: p in chunks <==> p in old(chunks) || InView(playerChunkPos, NegI32(AsI32(viewDistance)), AsI32(viewDistance), p)
      ensures forall p | p in old(chunks) :: chunks[p] == old(chunks)[p]
      ensures forall p | p in chunks && p !in old(chunks) :: fresh(chunks[p]) && Pristine(chunks[p], p)
    {
      var lo, hi := NegI32(AsI32(viewDistance)), AsI32(viewDistance);
      var x := lo;
      while x < hi
        invariant x == lo || lo <= x <= hi
        invariant Valid() && loadedChunks == old(loadedChunks)
        invariant forall p :: p in chunks <==> p in old(chunks) || (InView(playerChunkPos, lo, hi, p) && Relative(playerChunkPos, p).x < x)
        invariant forall p | p in old(chunks) :: chunks[p] == old(chunks)[p]
        invariant forall p | p in chunks && p !in old(chunks) :: fresh(chunks[p]) && Pristine(chunks[p], p)
        decreases hi - x
      {
        CreateSlice(playerChunkPos, lo, hi, x);
        x := x + 1;
      }
    }

    /** The cube's chunks with relative first coordinate x. */
    method CreateSlice(player: IVec3, lo: int, hi: int, x: int)
      requires Valid() && lo <= x < hi
      modifies this
      ensures Valid() && loadedChunks == old(loadedChunks)
      ensures forall p :: p in chunks <==> p in old(chunks) || (InView(player, lo, hi, p) && Relative(player, p).x == x)
      ensures forall p | p in old(chunks) :: chunks[p] == old(chunks)[p]
      ensures forall p | p in chunks && p !in old(chunks) :: fresh(chunks[p]) && Pristine(chunks[p], p)
    {
      var y := lo;
      while y < hi
        invariant lo <= y <= hi
        invariant Valid() && loadedChunks == old(loadedChunks)
        invariant forall p :: p in chunks <==> p in old(chunks) || (InView(player, lo, hi, p) && Relative(player, p).x == x && Relative(player, p).y < y)
        invariant forall p | p in old(chunks) :: chunks[p] == old(chunks)[p]
        invariant forall p | p in chunks && p !in old(chunks) :: fresh(chunks[p]) && Pristine(chunks[p], p)
      {
        CreateColumn(player, lo, hi, x, y);
        y := y + 1;
      }
    }

    /** The cube's chunks with relative first coordinates x and y. */
    method CreateColumn(player: IVec3, lo: int, hi: int, x: int, y: int)
      requires Valid() && lo <= x < hi && lo <= y < hi
      modifies this
      ensures Valid() && loadedChunks == old(loadedChunks)
      ensures forall p :: p in chunks <==> p in old(chunks) || (InView(player, lo, hi, p) && Relative(player, p).x == x && Relative(player, p).y == y)
      ensures forall p | p in old(chunks) :: chunks[p] == old(chunks)[p]
      ensures forall p | p in chunks && p !in old(chunks) :: fresh(chunks[p]) && Pristine(chunks[p], p)
    {
      var z := lo;
      while z < hi
        invariant lo <= z <= hi
        invariant Valid() && loadedChunks == old(loadedChunks)
        invariant forall p :: p in chunks <==> p in old(chunks) || (InView(player, lo, hi, p) && Relative(player, p).x == x && Relative(player, p).y == y && Relative(player, p).z < z)
        invariant forall p | p in old(chunks) :: chunks[p] == old(chunks)[p]
        invariant forall p | p in chunks && p !in old(chunks) :: fresh(chunks[p]) && Pristine(chunks[p], p)
      {
        var chunkPosition := IVecAdd(player, IVec3(x, y, z));
        assert Relative(player, chunkPosition) == IVec3(x, y, z);
        var _ := CreateChunk(chunkPosition);
        var chunk := GetChunk(chunkPosition);
        assert chunk.Some?;
        z := z + 1;
      }
    }

    /** The voxel at a world position: None when the position's chunk was
        not created; otherwise the raw world coordinates index that chunk,
        so only coordinates in [0, 16) find anything, and only in chunk
        (0, 0, 0). */
    function Get(pos: IVec3): (r: Option<Voxel>)
      reads this, chunks.Values, set k | k in chunks :: chunks[k].voxels
      requires Valid() && IsI32(pos.x) && IsI32(pos.y) && IsI32(pos.z)
      ensures WorldPosToChunkPos(pos) !in chunks ==> r == None
      ensures r.Some? <==> WorldPosToChunkPos(pos) in chunks && 0 <= pos.x < CHUNK_SIZE && 0 <= pos.y < CHUNK_SIZE && 0 <= pos.z < CHUNK_SIZE
      ensures r.Some? ==> WorldPosToChunkPos(pos) == IVec3(0, 0, 0) && r.value == chunks[IVec3(0, 0, 0)].voxels[Linearize(pos.x, pos.y, pos.z)]
    {
      var cp := WorldPosToChunkPos(pos);
      if cp !in chunks then None
      else chunks[cp].TryGetAt(pos.x, pos.y, pos.z)
    }

    /** The mesh of the chunk at pos, cached or built now, or None when no
        chunk was created there; only that chunk's cache changes. */
    method GetMesh(pos: IVec3) returns (r: Option<MeshData>)
      requires Valid()
      modifies chunks.Values
      ensures Valid()
      ensures r.None? <==> pos !in chunks
      ensures pos in chunks && old(chunks[pos].mesh).Some? ==> r == old(chunks[pos].mesh)
      ensures pos in chunks && old(chunks[pos].mesh).None? ==> r == Some(VoxelChunkMesh(chunks[pos].voxels[..]))
      ensures pos in chunks ==> chunks[pos].mesh == r
      ensures forall k | k in chunks && k != pos :: chunks[k].mesh == old(chunks[k].mesh)
      ensures forall k | k in chunks :: chunks[k].empty == old(chunks[k].empty) && chunks[k].offset == old(chunks[k].offset)
      ensures forall k | k in chunks :: chunks[k].voxels == old(chunks[k].voxels) && chunks[k].voxels[..] == old(chunks[k].voxels[..])
    {
      if pos !in chunks {
        return None;
      }
      var m := chunks[pos].GetOrCreateMesh();
      r := Some(m);
    }
  }
}
