/** The mesher of a chunk: walks every cell in x, y, z order and every face
    direction, appending a quad for each face the occlusion rule shows. */
module Mesher {
  import opened SeqFacts
  import opened Options
  import opened Coords
  import opened Blocks
  import opened Chunk
  import opened Mesh
  import opened WorldAccess
  import opened Meshing

  /** Builds the mesh of a chunk: every solid cell, every direction, a face
      wherever the neighbour is open. */
  method GetMesh(chunk: ChunkData, chunkPos: ChunkPos, registry: BlockRegistry, world: ExcavateManufacturateWorld)
    returns (mesh: MeshData)
    requires chunk.Valid() && world.Valid()
    requires RegistryCovers(Scene(chunk.blocks, chunkPos, world.cells), registry)
    ensures mesh == ChunkMesh(Scene(chunk.blocks, chunkPos, world.cells), registry)
  {
    ghost var s := Scene(chunk.blocks, chunkPos, world.cells);
    ghost var t := Rule(s);
    ghost var m := MeshRule(s, registry);
    world.ValidCells();
    var builder := new ChunkMeshBuilder();
    assert QuadsOf(s, registry, []) == [];
    var x := 0;
    while x < CHUNK_SIZE
      invariant 0 <= x <= CHUNK_SIZE
      invariant fresh(builder) && Built(builder, s, registry, m, WalkFaces(t, 256 * x))
    {
      EmitSlice(chunk, chunkPos, registry, world, s, t, m, builder, x);
      assert 256 * x + 256 == 256 * (x + 1);
      x := x + 1;
    }
    assert 256 * x == VOLUME;
    mesh := builder.Data();
    ChunkFacesDrawable(s, registry);
    assert ChunkMesh(s, registry) == MeshOf(QuadsOf(s, registry, WalkFaces(t, VOLUME)));
  }

  /** The cells with first coordinate x, appended to the builder. */
  method EmitSlice(chunk: ChunkData, chunkPos: ChunkPos, registry: BlockRegistry, world: ExcavateManufacturateWorld,
                   ghost s: Scene, ghost t: FaceTest, ghost m: FacesMesh, builder: ChunkMeshBuilder, x: int)
    requires Ready(chunk, chunkPos, registry, world, s) && Decides(t, s) && Renders(m, s, registry) && 0 <= x < CHUNK_SIZE
    requires Built(builder, s, registry, m, WalkFaces(t, 256 * x))
    modifies builder
    ensures Built(builder, s, registry, m, WalkFaces(t, 256 * x + 256))
  {
    var y := 0;
    while y < CHUNK_SIZE
      invariant 0 <= y <= CHUNK_SIZE
      invariant Built(builder, s, registry, m, WalkFaces(t, 256 * x + 16 * y))
    {
      EmitColumn(chunk, chunkPos, registry, world, s, t, m, builder, x, y);
      assert 256 * x + 16 * y + 16 == 256 * x + 16 * (y + 1);
      y := y + 1;
    }
    assert 256 * x + 16 * y == 256 * x + 256;
  }

  /** The cells with first coordinates x and y, appended to the builder. */
  method EmitColumn(chunk: ChunkData, chunkPos: ChunkPos, registry: BlockRegistry, world: ExcavateManufacturateWorld,
                    ghost s: Scene, ghost t: FaceTest, ghost m: FacesMesh, builder: ChunkMeshBuilder, x: int, y: int)
    requires Ready(chunk, chunkPos, registry, world, s) && Decides(t, s) && Renders(m, s, registry)
    requires 0 <= x < CHUNK_SIZE && 0 <= y < CHUNK_SIZE
    requires Built(builder, s, registry, m, WalkFaces(t, 256 * x + 16 * y))
    modifies builder
    ensures Built(builder, s, registry, m, WalkFaces(t, 256 * x + 16 * y + 16))
  {
    var z := 0;
    while z < CHUNK_SIZE
      invariant 0 <= z <= CHUNK_SIZE
      invariant Built(builder, s, registry, m, WalkFaces(t, 256 * x + 16 * y + z))
    {
      EmitCell(chunk, chunkPos, registry, world, s, t, m, builder, IVec3(x, y, z));
      assert Rank(IVec3(x, y, z)) + 1 == 256 * x + 16 * y + (z + 1);
      z := z + 1;
    }
    assert 256 * x + 16 * y + z == 256 * x + 16 * y + 16;
  }

  /** Whether the face of a cell toward one table direction shows: reads the
      chunk itself inside the border and the world beyond it. */
  method NeighbourOpen(chunk: ChunkData, chunkPos: ChunkPos, world: ExcavateManufacturateWorld,
                       offset: IVec3, step: IVec3) returns (open: bool)
    requires chunk.Valid() && world.Valid() && ValidView(world.cells)
    ensures open == FaceVisible(Scene(chunk.blocks, chunkPos, world.cells), offset, step)
  {
    var neighbor := IVecAdd(offset, step);
    if InChunk(neighbor) {
      var cell := chunk.TryGetFromRawOffset(neighbor);
      open := cell.Some? && cell.value.None?;
    } else {
      var b := world.GetBlock(BlockAdd(BlockFromChunk(chunkPos), BlockFromIVec(neighbor)));
      open := !(b.Some? && b.value.Some?);
    }
  }

  /** The faces of one cell, appended to the builder. */
  method EmitCell(chunk: ChunkData, chunkPos: ChunkPos, registry: BlockRegistry, world: ExcavateManufacturateWorld,
                  ghost s: Scene, ghost t: FaceTest, ghost m: FacesMesh, builder: ChunkMeshBuilder, offset: IVec3)
    requires Ready(chunk, chunkPos, registry, world, s) && Decides(t, s) && Renders(m, s, registry) && InChunk(offset)
    requires Built(builder, s, registry, m, WalkFaces(t, Rank(offset)))
    modifies builder
    ensures Built(builder, s, registry, m, WalkFaces(t, Rank(offset) + 1))
  {
    WalkStep(t, offset);
    if chunk.blocks[Indexify(offset)].None? {
      CellFacesBounded(t, s, offset);
      assert WalkFaces(t, Rank(offset) + 1) == WalkFaces(t, Rank(offset));
    } else {
      EmitSolidCell(chunk, chunkPos, registry, world, s, t, m, builder, offset, WalkFaces(t, Rank(offset)));
    }
  }

  /** The faces of a solid cell, direction by direction, appended to the
      builder. */
  method EmitSolidCell(chunk: ChunkData, chunkPos: ChunkPos, registry: BlockRegistry, world: ExcavateManufacturateWorld,
                       ghost s: Scene, ghost t: FaceTest, ghost m: FacesMesh, builder: ChunkMeshBuilder, offset: IVec3, ghost before: seq<Face>)
    requires Ready(chunk, chunkPos, registry, world, s) && Decides(t, s) && Renders(m, s, registry) && InChunk(offset)
    requires chunk.blocks[Indexify(offset)].Some?
    requires Built(builder, s, registry, m, before)
    modifies builder
    ensures Built(builder, s, registry, m, before + DirFaces(t, offset, NEIGHBOR_COUNT))
  {
    assert before + DirFaces(t, offset, 0) == before;
    var d := 0;
    while d < NEIGHBOR_COUNT
      invariant 0 <= d <= NEIGHBOR_COUNT
      invariant Built(builder, s, registry, m, before + DirFaces(t, offset, d))
    {
      EmitFace(chunk, chunkPos, registry, world, s, t, m, builder, offset, d, before);
      d := d + 1;
    }
  }

  /** The face of a solid cell toward table direction d, appended to the
      builder when the neighbour there is open. */
  method EmitFace(chunk: ChunkData, chunkPos: ChunkPos, registry: BlockRegistry, world: ExcavateManufacturateWorld,
                  ghost s: Scene, ghost t: FaceTest, ghost m: FacesMesh, builder: ChunkMeshBuilder, offset: IVec3, d: int,
                  ghost before: seq<Face>)
    requires Ready(chunk, chunkPos, registry, world, s) && Decides(t, s) && Renders(m, s, registry) && InChunk(offset)
    requires chunk.blocks[Indexify(offset)].Some? && 0 <= d < NEIGHBOR_COUNT
    requires Built(builder, s, registry, m, before + DirFaces(t, offset, d))
    modifies builder
    ensures Built(builder, s, registry, m, before + DirFaces(t, offset, d + 1))
  {
    var e := Neighbor(d);
    var addFace := NeighbourOpen(chunk, chunkPos, world, offset, e.offset);
    ghost var done := before + DirFaces(t, offset, d);
    assert addFace == Emits(s, offset, d);
    if addFace {
      var f := Face(offset, d);
      ConcatAssoc(before, DirFaces(t, offset, d), [f]);
      EmitOne(s, registry, done, f);
      var data := GetBlockData(registry, chunk.blocks[Indexify(offset)].value.id);
      NeighborOffsetsAreAxisUnits();
      builder.AddFace(e.geometry, e.normals, e.uvs, offset, GetCoords(data.textures, e.face), registry.atlasSize);
    } else {
      assert done == before + DirFaces(t, offset, d + 1);
    }
  }
}
