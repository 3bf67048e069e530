# excavate_manufacturate, core model

A Dafny model of the sequential core of the excavate_manufacturate voxel
engine, with proofs of what each operation promises. The repository holds
two designs side by side, and each is modelled as its files are written.

- **The current design** (`src/util`, `src/world`). It covers:
  - block and chunk coordinates (`Coords`);
  - the render distance (`RenderDistances`);
  - the dense 16x16x16 chunk with its block counter (`Chunk`);
  - the static block textures and the block registry (`Blocks`);
  - the six-direction face table and the mesh builder (`Mesh`);
  - the face-culling mesher, as a specification (`Meshing`) and as the
    triple loop that feeds the builder (`Mesher`);
  - the world map from chunk position to chunk (`WorldAccess`);
  - the overworld terrain bands (`Worldgen`);
  - the generation scheduler and its merge step (`Generation`);
  - the spawn queue and shown-chunk bookkeeping (`Render`);
  - the cube scan that the last two share (`CubeScan`).
- **The older design** (`src/voxel`). It covers:
  - world and chunk positions (`VoxelBase`);
  - the parity generator (`VoxelGen`);
  - the padded 18x18x18 voxel array and its generation walk
    (`VoxelStorage`);
  - the chunk class with its emptiness flag and mesh cache (`VoxelChunks`);
  - the older mesher (`VoxelMeshing`);
  - the chunk map with its loaded set (`VoxelWorlds`).

Objects whose fields the source updates in place are classes: `ChunkData`,
`ChunkMeshBuilder`, `ExcavateManufacturateWorld`, `RenderDistance`,
`ChunkGeneration`, `ChunkStreaming`, `VoxelChunk`, `VoxelMeshBuilder` and
`VoxelWorld`. Their loops are methods with invariants, each proved against a
specification function whose properties are lemmas. Coordinates are
unbounded integers. The `usize` casts in chunk indexing and the `usize` to
`i32` casts of the render and view distances are written out.

Behaviour worth knowing before reading the contracts:

- **Chunk of a block position.** `ChunkPos::from` divides by 16 truncating toward zero, while `as_chunk_offset` takes the Euclidean remainder. The two disagree below zero: x = -1 and x = 15 address the same cell of chunk 0. This is kept and proved (`Coords.NegativeAliasesPositive`, `WorldAccess.SetAliasesAcrossZero`).
- **Writing a block into a missing chunk.** `set_block` creates a fresh empty chunk holding the block when the block is solid, and returns false only for air.
- **Terrain bands.** The overworld generator compares n = y + h(x, z) with 20, 29 and 30.
- **Registry.** The registry is a map from `u8` block ids (the source's `BlockId`) to static block data. The id constants in src/world/block/excavatemanufacturate_blocks.rs:4-6 are strings, and STONE, which the registry and the terrain generator use, is declared nowhere, so the numbering GRASS = 0, DIRT = 1, BEDROCK = 2 and STONE = 3 is this model's choice. An unknown id is a precondition, since the source panics on one.
- **Older design.** It is modelled as written, with these consequences:
  - slot collisions in the padded array;
  - an emptiness flag that also counts overwritten voxels;
  - a view cube that is half-open;
  - a world lookup that only ever finds chunk (0, 0, 0).

## Model

| member | source | states |
|---|---|---|
| Coords.IVecAdd | src/util/block_pos.rs:89-95 | the sum minus the second operand is the first, componentwise |
| Coords.DivChunk | src/util/chunk_pos.rs:28-32 | the result is the quotient by 16 truncated toward zero |
| Coords.RemChunk | src/util/block_pos.rs:17-23 | the Euclidean remainder lies in [0, 16) and differs from the input by a multiple of 16 |
| Coords.AsI32 | src/world/render_distance.rs:19-21 | the `as i32` cast: in i32 range, equal to n below 2^31, congruent to n modulo 2^32 |
| Coords.AsChunkOffset | src/util/block_pos.rs:17-23 | every component lies in [0, 16), including for negative inputs, and p minus the offset is a multiple of 16 per component |
| Coords.AsChunkOffsetIdempotent | src/util/block_pos.rs:17-23 | taking the offset twice is taking it once |
| Coords.AsChunkOffsetWrapsNegative | src/util/block_pos.rs:17-23 | (-1, 0, 0) has offset (15, 0, 0) |
| Coords.TouchedShape | src/util/block_pos.rs:25-64 | the touched list has 1 to 4 entries, starts with the block's chunk, has length 1 exactly off the chunk border, and every entry is at summed axis distance at most 1 from the block's chunk: that chunk itself or one of its face neighbours |
| Coords.TouchedDistinct | src/util/block_pos.rs:33-64 | the touched chunk positions are pairwise distinct |
| Coords.TouchedNeighbours | src/util/block_pos.rs:33-61 | the +axis neighbour is listed iff that offset component is 15, the -axis neighbour iff it is 0 |
| Coords.BorderNeighboursFacts | src/util/block_pos.rs:39-59 | one axis contributes nothing, its + neighbour exactly at 15, or its - neighbour exactly at 0 |
| Coords.GetTouchedChunkPositions | src/util/block_pos.rs:33-64 | the push sequence is the list expression Touched: the block's chunk, then at most one neighbour per axis in the order x, y, z (+ before -); 1 to 4 distinct positions, of length 1 iff off the border, with each axis neighbour present exactly when the offset is 15 or 0 |
| Coords.BlockFromIVec | src/util/block_pos.rs:71-75 | converting a vector and reading it back gives the vector |
| Coords.BlockFromChunk | src/util/block_pos.rs:83-87 | the block origin of chunk c is 16 c and has offset zero |
| Coords.ChunkFromBlock | src/util/chunk_pos.rs:28-32 | each component is the block component divided by 16, truncated toward zero |
| Coords.ChunkInner | src/util/chunk_pos.rs:13-19 | `inner` returns the components the position was made from |
| Coords.LocalFrom | src/util/chunk_pos.rs:72-76 | the local position plus the player's chunk is the world chunk position |
| Coords.ChunkFromBlockTruncates | src/util/chunk_pos.rs:28-32 | (-1, 0, 0) lies in chunk (0, 0, 0) and (-17, 0, 0) in chunk (-1, 0, 0) |
| Coords.ChunkOfChunkOrigin | src/util/chunk_pos.rs:28-32 | the chunk of a chunk's block origin is that chunk |
| Coords.DivChunkOfMultiple | src/util/chunk_pos.rs:28-32 | 16 k divided by 16 is k |
| Coords.ReconstructComponent | src/util/block_pos.rs:17-23 | 16 (a / 16) + (a mod 16) == a iff a is non-negative or a multiple of 16 |
| Coords.ReconstructBlockPos | src/util/chunk_pos.rs:28-32 | chunk origin plus chunk offset gives p back iff every component is non-negative or a multiple of 16 |
| Coords.ReconstructNonNegative | src/util/chunk_pos.rs:28-32 | for non-negative p, chunk origin plus offset is p |
| Coords.ReconstructFailsBelowZero | src/util/block_pos.rs:17-23 | for (-1, 0, 0), chunk origin plus offset is (15, 0, 0) |
| Coords.ChunkAndOffsetIdentifyNonNegative | src/util/chunk_pos.rs:28-32 | non-negative positions with equal chunk and offset are equal |
| Coords.NegativeAliasesPositive | src/util/chunk_pos.rs:28-32 | (-1, 0, 0) and (15, 0, 0) have the same chunk and the same offset |
| Coords.BlockAddSubCancel | src/util/block_pos.rs:89-109 | (p + q) - q == p |
| Coords.ChunkAddSubCancel | src/util/chunk_pos.rs:34-54 | (a + b) - b == a |
| Coords.LocalOfPlayerIsZero | src/util/chunk_pos.rs:72-76 | the player's own chunk is at local position zero |
| Coords.WrapI32 | src/world/render_distance.rs:23-25 | in i32 range, equal to n inside it, congruent to n modulo 2^32 (the release-build wrap of i32 arithmetic) |
| Coords.NegI32 | src/world/generation.rs:66-67 | the i32 negation of a release build: the wrapped -n on i32 inputs, and -n for every input above i32::MIN |
| Coords.AbsI32 | src/world/render_distance.rs:27-29 | the i32 absolute value of a release build: the wrapped |n| on i32 inputs, negative exactly at i32::MIN, and |n| above it |
| Coords.IsOnChunkBorder | src/util/block_pos.rs:25-31 | true exactly when some component's offset within the chunk is 0 or 15 |
| Coords.BlockInner | src/util/block_pos.rs:66-68 | the vector has the position's components |
| Coords.BlockAdd | src/util/block_pos.rs:89-95 | the inverse law: the sum minus the second position is the first, componentwise (with Coords.BlockAddSubCancel) |
| Coords.BlockSub | src/util/block_pos.rs:103-109 | the inverse law: the difference plus the second position is the first, componentwise (with Coords.BlockAddSubCancel) |
| Coords.ChunkAdd | src/util/chunk_pos.rs:34-40 | the inverse law: the sum minus the second position is the first, componentwise (with Coords.ChunkAddSubCancel) |
| Coords.ChunkSub | src/util/chunk_pos.rs:48-54 | the inverse law: the difference plus the second position is the first, componentwise (with Coords.ChunkAddSubCancel) |
| Coords.DistanceSquared | src/world/generation.rs:89-93 | non-negative, and zero exactly when the two positions coincide |
| RenderDistances.RenderDistance.constructor | src/world/render_distance.rs:11-13 | the distance is the one given |
| RenderDistances.RenderDistance.SetTo | src/world/render_distance.rs:15-17 | the distance is overwritten, and reads back through `chunks` whenever it fits in i32 |
| RenderDistances.RenderDistance.Chunks | src/world/render_distance.rs:19-21 | equals the distance below 2^31, and never exceeds it |
| RenderDistances.RenderDistance.Blocks | src/world/render_distance.rs:23-25 | in i32 range; 16 times the distance below 2^27; otherwise the i32 product wrapped modulo 2^32, as in release builds |
| RenderDistances.SetupRenderDistance | src/world/render_distance.rs:32-41 | the initial distance is 8 chunks, 128 blocks |
| RenderDistances.ContainsOrigin | src/world/render_distance.rs:27-29 | the origin is contained |
| RenderDistances.ContainsSymmetric | src/world/render_distance.rs:27-29 | for i32 components, containment is unchanged by the i32 negation of the position |
| RenderDistances.ContainsMonotone | src/world/render_distance.rs:27-29 | what a smaller distance contains, a larger one contains too |
| RenderDistances.ContainsOnlyMinCornerPastI32 | src/world/render_distance.rs:19-29 | a distance in [2^31, 2^32) casts to a negative radius, and then exactly the corner (MIN, MIN, MIN) is contained, since i32::MIN.abs() is i32::MIN |
| RenderDistances.ContainsMinComponent | src/world/render_distance.rs:27-29 | at every i32 distance, a position whose x is i32::MIN is contained |
| RenderDistances.RenderDistance.Contains | src/world/render_distance.rs:27-29 | for a distance below 2^31, true exactly when every component is i32::MIN or lies in [-d, d]; for a negative cast distance, true exactly at (MIN, MIN, MIN) |
| RenderDistances.BlocksWrapPast2To27 | src/world/render_distance.rs:23-25 | at a distance of 2^27 chunks the block distance wraps to i32::MIN |
| Chunk.AsUsize | src/world/chunk.rs:46-50 | the `as usize` cast: identity on [0, 2^64), adds 2^64 to negative isize values |
| Chunk.AirCells | src/world/chunk.rs:16-21 | 4096 cells, all None |
| Chunk.Indexify | src/world/chunk.rs:46-50 | below 2^64, and x + 16 y + 256 z below 4096 for an in-chunk offset |
| Chunk.IndexifyWrapsEachStep | src/world/chunk.rs:46-50 | the model's index equals the source expression with a usize cast and wrap after every product and sum |
| Chunk.Deindexify | src/world/chunk.rs:52-58 | an index below 4096 gives an in-chunk offset |
| Chunk.IndexifyDeindexify | src/world/chunk.rs:46-58 | indexify(deindexify(i)) == i for i < 4096 |
| Chunk.DeindexifyIndexify | src/world/chunk.rs:46-58 | deindexify(indexify(o)) == o for in-chunk o |
| Chunk.CellIndex | src/world/chunk.rs:60-63 | the cell index of a block position lies below 4096 |
| Chunk.CellIndexIdentifiesOffset | src/world/chunk.rs:60-78 | two block positions share a cell iff they have the same chunk offset |
| Chunk.CountSolidBounded | src/world/chunk.rs:38-40 | at most as many solid cells as cells |
| Chunk.CountSolidZero | src/world/chunk.rs:38-40 | the solid count is zero iff every cell is None |
| Chunk.CountSolidUpdate | src/world/chunk.rs:65-78 | replacing a cell changes the count by the new cell's solidity minus the old one's |
| Chunk.ChunkData.Empty | src/world/chunk.rs:16-21 | all 4096 cells air, counter consistent, and the chunk reports empty |
| Chunk.ChunkData.WithData | src/world/chunk.rs:23-36 | cell i holds the supplier's block at deindexify(i), and the counter equals the number of solid cells |
| Chunk.ChunkData.IsEmpty | src/world/chunk.rs:38-40 | true iff every cell is None, through the counter invariant |
| Chunk.ChunkData.Set | src/world/chunk.rs:65-78 | only the addressed cell changes, the counter invariant is kept, `get` returns the new block, and positions with another offset read as before |
| Chunk.ChunkData.TryGetFromRawOffset | src/world/chunk.rs:84-86 | None exactly when the wrapped index is 4096 or more; otherwise the stored cell; always Some in the chunk |
| Chunk.GetDependsOnlyOnOffset | src/world/chunk.rs:60-63 | positions with equal chunk offsets read the same cell |
| Chunk.RawOffsetAgreesWithGet | src/world/chunk.rs:60-86 | the raw read at p's offset is `get(p)` |
| Chunk.ChunkData.Get | src/world/chunk.rs:60-63 | the cell whose index deindexifies to the position's Euclidean chunk offset |
| Chunk.WithDataThenGet | src/world/chunk.rs:23-63 | reading a block of a chunk built by with_data gives what the supplier gave for its chunk offset |
| Chunk.SuppliedCells | src/world/chunk.rs:23-35 | cell i of the first n supplied cells is the supplier's value at the offset of index i |
| Blocks.FromSingle | src/world/block/static_block_data/mod.rs:25-31 | every face reads the single coordinates |
| Blocks.GetCoords | src/world/block/static_block_data/mod.rs:33-39 | top reads top; side and bottom read their own coordinates when set and fall back to top otherwise |
| Blocks.GetCoordsIsDeclared | src/world/block/static_block_data/mod.rs:33-39 | the result is always one of the declared coordinates |
| Blocks.GetBlockData | src/world/block/registry.rs:12-16 | for a registered id, the data registered under that id |
| Blocks.CreateBlock | src/world/worldgen.rs:21 | a block of the given id exactly when the id is registered |
| Mesh.Neighbor | src/util/mesh.rs:197-252 | entry i carries offset i of the table |
| Mesh.NeighborOffsetsAreAxisUnits | src/util/mesh.rs:197-252 | the six offsets are axis units, pairwise distinct, and cover every axis unit |
| Mesh.NeighborFaceClasses | src/util/mesh.rs:205-251 | +y is Top, -y is Bottom, and the rest are Side |
| Mesh.NeighborNormalsAreOffsets | src/util/mesh.rs:187-252 | each entry's four normals are its own offset |
| Mesh.NeighborQuadsFaceTheirNeighbour | src/util/mesh.rs:110-146 | each quad's corners lie on the unit cube, on the side facing the neighbour |
| Mesh.FaceIndices | src/util/mesh.rs:33-42 | six indices in [s, s + 4), forming the triangles {s, s+1, s+2} and {s+1, s+2, s+3} |
| Mesh.Placed | src/util/mesh.rs:74-79 | one moved vertex per template vertex |
| Mesh.Mapped | src/util/mesh.rs:44-61 | one atlas uv per template uv |
| Mesh.MeshOfShape | src/util/mesh.rs:14-31 | a mesh of k quads is well formed, with 4 k vertices and 6 k indices |
| Mesh.ChunkMeshBuilder.constructor | src/util/mesh.rs:14-31 | an empty, well-formed builder |
| Mesh.ChunkMeshBuilder.TransformUvs | src/util/mesh.rs:44-61 | the loop returns every uv mapped into the block's atlas region, in order |
| Mesh.ChunkMeshBuilder.AddFace | src/util/mesh.rs:64-91 | 4 vertices, 4 normals and 4 uvs are appended, with the 6 indices of the new face; ao stays as it was; the builder stays well formed |
| Mesh.AddFaceExtendsMeshOf | src/util/mesh.rs:64-91 | adding a face to the mesh of a face list gives the mesh of the longer list |
| Mesh.ChunkMeshBuilder.Data | src/util/mesh.rs:93-106 | the mesh of a valid builder is well formed: as many normals and uvs as positions, and every index names a position |
| Meshing.DirFacesMembers | src/world/chunk.rs:111-143 | the faces of one cell are exactly the directions the test shows, at most one each |
| Meshing.WalkCell | src/world/chunk.rs:96-98 | step k of the x, y, z walk is the in-chunk cell of rank k |
| Meshing.WalkCellRank | src/world/chunk.rs:96-98 | the walk visits every in-chunk cell at its rank |
| Meshing.WalkStep | src/world/chunk.rs:96-143 | one more step of the walk appends that cell's faces |
| Meshing.WalkFacesMembers | src/world/chunk.rs:96-143 | the first n steps list exactly the shown faces of cells ranked below n |
| Meshing.DecidesExists | src/world/chunk.rs:104-130 | the culling rule can be written as a face test |
| Meshing.Rule | src/world/chunk.rs:104-130 | a face test deciding the culling rule |
| Meshing.WalkFacesAgree | src/world/chunk.rs:96-143 | tests that agree everywhere list the same faces |
| Meshing.DirFacesAgree | src/world/chunk.rs:111-143 | tests that agree everywhere give a cell the same faces |
| Meshing.DecidesFaces | src/world/chunk.rs:96-143 | any test deciding the rule lists the chunk's faces |
| Meshing.DecidedFacesExactly | src/world/chunk.rs:104-130 | a face is listed iff the culling rule emits it |
| Meshing.WalkFacesSilent | src/world/chunk.rs:96-143 | a test that shows nothing lists nothing |
| Meshing.ChunkFacesExactly | src/world/chunk.rs:104-130 | a face is emitted iff the cell is solid and its neighbour is air: None in the chunk, or across the border a missing chunk or an air cell of the world |
| Meshing.CellFacesBounded | src/world/chunk.rs:104-108 | a cell emits at most 6 faces, and an air cell none |
| Meshing.AirChunkEmitsNothing | src/world/chunk.rs:104-106 | an all-air chunk emits no face |
| Meshing.QuadsOf | src/world/chunk.rs:132-143 | one quad per face, each a well-formed quad |
| Meshing.ChunkFacesDrawable | src/world/chunk.rs:132-143 | every emitted face has registered block data to texture it |
| Meshing.ChunkMeshShape | src/world/chunk.rs:88-151 | the chunk mesh is well formed, with 4 vertices and 6 indices per emitted face |
| Meshing.EmitOne | src/world/chunk.rs:132-143 | adding one drawable face extends the mesh by that face's quad |
| Meshing.RendersExists | src/world/chunk.rs:88-151 | some mesh function renders each face list of the scene |
| Meshing.MeshRule | src/world/chunk.rs:88-151 | a mesh function rendering the scene's face lists |
| Meshing.FaceVisible | src/world/chunk.rs:108-130 | inside the chunk, visible exactly when the neighbour cell is air; outside, exactly when the neighbour's chunk is missing or its cell is air |
| Mesher.GetMesh | src/world/chunk.rs:88-151 | the triple loop builds exactly the mesh of the emitted faces |
| Mesher.EmitSlice | src/world/chunk.rs:96 | one x slice extends the built faces by its 256 cells |
| Mesher.EmitColumn | src/world/chunk.rs:97 | one column extends the built faces by its 16 cells |
| Mesher.NeighbourOpen | src/world/chunk.rs:109-130 | the neighbour test answers the visibility rule, inside the chunk and through the world |
| Mesher.EmitCell | src/world/chunk.rs:98-106 | an air cell is skipped, and a solid cell adds its faces |
| Mesher.EmitSolidCell | src/world/chunk.rs:108-143 | the six directions add exactly the cell's emitted faces |
| Mesher.EmitFace | src/world/chunk.rs:109-143 | one direction adds its face exactly when it is emitted |
| WorldAccess.BlockIn | src/world/world_access.rs:52-58 | None iff the block's chunk is absent |
| WorldAccess.SetInView | src/world/world_access.rs:60-78 | the chunk set grows by the block's chunk exactly when the write succeeds |
| WorldAccess.SetThenGet | src/world/world_access.rs:52-78 | a successful write reads back; a failed one changes nothing, and the block was absent |
| WorldAccess.SetLeavesOtherChunks | src/world/world_access.rs:60-78 | a write leaves every other chunk's blocks alone |
| WorldAccess.SetLeavesOtherBlocks | src/world/world_access.rs:60-78 | for non-negative positions only the written block changes, apart from a new chunk's air cells |
| WorldAccess.SetAliasesAcrossZero | src/world/world_access.rs:53-63 | writing x = -1 changes the block read at x = 15 |
| WorldAccess.ExcavateManufacturateWorld.ValidCells | src/world/world_access.rs:22-26 | the world's abstract view is well formed |
| WorldAccess.ExcavateManufacturateWorld.constructor | src/world/world_access.rs:22-26 | a world with no chunks and a chunk count of 0 |
| WorldAccess.ExcavateManufacturateWorld.GetChunk | src/world/world_access.rs:28-30 | Some iff a chunk exists at the position, and then that chunk |
| WorldAccess.ExcavateManufacturateWorld.InsertChunk | src/world/world_access.rs:36-50 | stores the chunk, returns the one it replaces, the chunk then exists, and the count grows by one only for a new position |
| WorldAccess.ExcavateManufacturateWorld.GetBlock | src/world/world_access.rs:52-58 | None iff no chunk exists at the block's chunk position, else that chunk's `get` |
| WorldAccess.ExcavateManufacturateWorld.SetBlock | src/world/world_access.rs:60-78 | writes into an existing chunk, or a new chunk for a solid block; returns false for air into a missing chunk, leaving the map alone; on success the block reads back, and existing chunks are kept |
| WorldAccess.ExcavateManufacturateWorld.WriteStoredChunk | src/world/world_access.rs:63-65 | writing into an existing chunk changes exactly one cell |
| WorldAccess.ExcavateManufacturateWorld.InsertChunkHolding | src/world/world_access.rs:66-73 | the new chunk is air except for the written cell |
| WorldAccess.ExcavateManufacturateWorld.HitEvaluator | src/world/world_access.rs:80-86 | a hit iff the block's chunk exists and a solid block is stored there |
| WorldAccess.ExcavateManufacturateWorld.ChunkExists | src/world/world_access.rs:44-46 | true exactly when get_chunk finds a chunk |
| WorldAccess.ExcavateManufacturateWorld.TotalChunkCount | src/world/world_access.rs:48-50 | zero exactly when no chunk exists |
| Worldgen.TerrainNoise | src/world/worldgen.rs:16-53 | below y = 0 air, at y = 0 grass |
| Worldgen.AboveGroundBands | src/world/worldgen.rs:38-50 | above ground, n < 20 is stone, 20 <= n < 29 dirt, 29 <= n < 30 grass, and 30 and up air |
| Worldgen.TerrainOutcomes | src/world/worldgen.rs:16-53 | every position holds air, stone, dirt or grass |
| Worldgen.ColumnBandsInOrder | src/world/worldgen.rs:28-50 | going up a column the bands run stone, dirt, grass, air, never back |
| Worldgen.ColumnOnlyThroughHills | src/world/worldgen.rs:28-38 | x and z matter only through the column's height term |
| Worldgen.AirStaysAir | src/world/worldgen.rs:38-50 | above ground, once a column is air it stays air |
| CubeScan.ScanZCounts | src/world/generation.rs:77-84 | the z loop yields each non-excluded position of its column once |
| CubeScan.ScanYCounts | src/world/generation.rs:75-85 | the y loop yields each non-excluded position of its slice once |
| CubeScan.ScanXCounts | src/world/generation.rs:73-85 | the x loop yields each non-excluded position of its part of the cube once |
| CubeScan.ScanCounts | src/world/generation.rs:73-87 | the scan yields each non-excluded cube position exactly once and nothing else |
| CubeScan.ScanMembers | src/world/generation.rs:73-87 | a position is found iff it lies in the cube and is not excluded |
| CubeScan.ScanCube | src/world/render.rs:54-69 | the three nested loops collect the scan |
| CubeScan.ScanSlice | src/world/render.rs:56-68 | the y and z loops for one x collect its slice |
| CubeScan.ScanColumn | src/world/render.rs:57-67 | the z loop for one x and y collects its column |
| Generation.InsertByDistance | src/world/generation.rs:89-93 | inserting keeps the list sorted by squared distance and adds exactly the element |
| Generation.SortByDistance | src/world/generation.rs:89-93 | the result is a permutation of the candidates, sorted by squared distance |
| Generation.ScanOfCoveredCube | src/world/generation.rs:73-87 | a scan whose exclusions cover the cube finds nothing |
| Generation.SecondScanEmpty | src/world/generation.rs:73-109 | excluding what a scan found, the same scan finds nothing |
| Generation.SecondScanAfterDispatch | src/world/generation.rs:95-109 | once all dispatched positions are marked, the same scan finds nothing |
| Generation.SecondRenderCubeEmpty | src/world/generation.rs:66-109 | the same, for the render cube |
| Generation.RunGenerationTask | src/world/generation.rs:98-102 | a fresh chunk holding, at each offset, the terrain at that offset plus 16 times the chunk position |
| Generation.GeneratedChunkHoldsTerrain | src/world/generation.rs:98-102 | reading a generated chunk at a non-negative position of its own gives the terrain there |
| Generation.RebuildTargets | src/world/generation.rs:134-150 | seven positions, led by the chunk itself |
| Generation.RebuildTargetsAreFaceNeighbours | src/world/generation.rs:134-150 | the targets are exactly the positions at summed axis distance at most 1: the chunk and its six face neighbours |
| Generation.RebuildTargetsDistinct | src/world/generation.rs:134-150 | the seven targets are pairwise distinct |
| Generation.Kept | src/world/generation.rs:123-129 | the kept tasks are no more than the finished ones |
| Generation.KeptExactly | src/world/generation.rs:123-131 | a task is kept iff it finished with a non-empty chunk |
| Generation.InsertedKeys | src/world/generation.rs:131 | storing kept chunks adds exactly their positions |
| Generation.RequeuedMembers | src/world/generation.rs:134-150 | a position is requeued iff it is shown and is a kept chunk or one of its six neighbours |
| Generation.ChunkGeneration.Setup | src/world/generation.rs:25-27 | nothing is possibly generated yet |
| Generation.ChunkGeneration.GenerateChunks | src/world/generation.rs:56-110 | dispatches a permutation of the render cube (lower bound the i32 negation of the distance) minus marked and existing positions, sorted by distance; marks them; afterwards the same pass finds nothing |
| Generation.ChunkGeneration.Candidates | src/world/generation.rs:66-93 | the candidates, sorted by distance, are exactly the unmarked, missing positions of the cube from the i32-negated distance to the distance |
| Generation.ChunkGeneration.Dispatch | src/world/generation.rs:95-109 | the marked set grows by the dispatched positions and only by them |
| Generation.PollGeneratedChunks | src/world/generation.rs:112-153 | the world gains exactly the non-empty results, in order; the queue gains each shown rebuild target, in order; the shown chunks and meshes stay |
| Generation.MergeNext | src/world/generation.rs:118-151 | one finished task moves from the remaining work into the world and the queue |
| Generation.KeptUnchanged | src/world/generation.rs:123-129 | which tasks are kept does not change while the world changes |
| Generation.KeptStep | src/world/generation.rs:123-129 | the kept tasks of a suffix, one task at a time |
| Generation.MergeStep | src/world/generation.rs:131-150 | storing and requeueing one kept task, then the rest, is storing and requeueing all of them |
| Generation.PollOne | src/world/generation.rs:123-151 | an empty result leaves world and queue alone; any other is stored at its position, and its shown rebuild targets are queued in order |
| Render.Present | src/world/render.rs:85-94 | no longer than the queue |
| Render.PresentCounts | src/world/render.rs:85-94 | a position is kept as often as it was queued if its chunk exists, otherwise never |
| Render.PresentMembers | src/world/render.rs:85-94 | a position is kept iff it was queued and its chunk exists |
| Render.InstalledKeys | src/world/render.rs:149-151 | installing finished tasks adds exactly their positions |
| Render.NoEntityLeaks | src/world/render.rs:149-151 | every entity shown before or just spawned is still shown or is despawned |
| Render.WithoutRemovesExactly | src/world/render.rs:165-175 | removing the queried positions one by one removes exactly them |
| Render.EvictedEntities | src/world/render.rs:165-188 | each removed shown chunk's entity is despawned, and only shown entities are |
| Render.Outside | src/world/render.rs:165-175 | no longer than the queried positions |
| Render.OutsideMembers | src/world/render.rs:165-175 | a queried position is dropped iff its offset from the player lies outside the render distance |
| Render.OutsideStep | src/world/render.rs:165-175 | the filter of a suffix, one position at a time |
| Render.PopulateCounts | src/world/render.rs:54-69 | one pass queues each unshown cube position once more, without dedup against the queue |
| Render.RenderCubeContained | src/world/render.rs:54-69 | every position the render cube yields is contained, so the despawn pass never drops a position the populate pass queues |
| Render.RenderCubeAt2To31 | src/world/render.rs:54-69 | at a distance of 2^31 the bounds are both i32::MIN and the cube is exactly player + (MIN, MIN, MIN) |
| Render.ChunkStreaming.SetupChunkData | src/world/render.rs:32-36 | no shown chunks, no meshes, an empty queue |
| Render.ChunkStreaming.PopulateChunkSpawnQueue | src/world/render.rs:48-69 | the queue gains the render cube (lower bound the i32 negation of the distance) minus shown chunks, in x, y, z order; the map and meshes stay |
| Render.ChunkStreaming.SpawnChunks | src/world/render.rs:75-119 | the queue is drained, and a mesh task starts for each popped position whose chunk exists, in order |
| Render.ChunkStreaming.PollSpawnedChunks | src/world/render.rs:121-156 | each finished position maps to its new entity, and the entities it replaces are despawned |
| Render.ChunkStreaming.DespawnChunks | src/world/render.rs:158-176 | exactly the positions that `contains` (with i32 absolute values) rejects are removed, and their entities are despawned |
| Render.ChunkStreaming.DespawnAllChunks | src/world/render.rs:178-188 | every queried position is removed, and its entity is despawned |
| Render.ChunkStreaming.QueueShown | src/world/generation.rs:134-150 | the queue gains, in order, the given positions that are shown |
| Render.ChunkStreaming.Remove | src/world/render.rs:170-174 | one removal: the position leaves the map, and its entity is despawned if it was shown |
| VoxelBase.WorldPosToChunkPos | src/voxel/mod.rs:14-16 | each component is divided by 16, truncating toward zero |
| VoxelBase.WorldPosTruncates | src/voxel/mod.rs:14-16 | -1 and 15 share chunk 0; -16 and -17 lie in chunk -1 |
| VoxelBase.NonNegativeWithinChunk | src/voxel/mod.rs:14-20 | for non-negative w, 16 chunk(w) <= w < 16 chunk(w) + 16 per component |
| VoxelBase.GrassAndAirGeometry | src/voxel/mod.rs:32-34 | grass has geometry and air has none; for these two, no geometry means not opaque |
| VoxelBase.ChunkPosToWorldPos | src/voxel/mod.rs:14-20 | the chunk of a chunk's origin is that chunk |
| VoxelBase.HasNoGeometry | src/voxel/mod.rs:32-34 | air has no geometry, a grass block has some |
| VoxelGen.RemTwo | src/voxel/gen.rs:15 | Rust's `%` by 2: sign of the dividend, magnitude below 2, same parity |
| VoxelGen.GrassIffEven | src/voxel/gen.rs:12-20 | grass iff y is even, air otherwise |
| VoxelGen.NegativeOddLayerIsAir | src/voxel/gen.rs:15 | -1 % 2 is -1, so y = -1 is air and y = -2 grass |
| VoxelGen.LayerOnly | src/voxel/gen.rs:12-20 | x and z never matter |
| VoxelGen.GenerateTerrain | src/voxel/gen.rs:12-20 | a grass block at even y and air at odd y, for negative y too |
| VoxelStorage.Slot | src/voxel/chunk.rs:18-20 | a padded position's slot lies in the array, at most 4641 |
| VoxelStorage.LinearizeCollides | src/voxel/chunk.rs:18-20 | (16, 0, 0) and (0, 1, 0) share slot 16 |
| VoxelStorage.LinearizeInjectiveInChunk | src/voxel/chunk.rs:18-20 | inside 16^3 the slots are distinct |
| VoxelStorage.PaddedCellAt | src/voxel/chunk.rs:31-49 | step r of the walk visits a padded position of rank r |
| VoxelStorage.StepSlot | src/voxel/chunk.rs:45-47 | the slot written at step k lies in the array |
| VoxelStorage.PaddedRankInjective | src/voxel/chunk.rs:31-49 | distinct padded positions are visited at distinct steps |
| VoxelStorage.PaddedCellRank | src/voxel/chunk.rs:31-49 | the walk visits every padded position, at its rank |
| VoxelStorage.AllAir | src/voxel/chunk.rs:25-27 | 5832 slots, all air |
| VoxelStorage.Writes | src/voxel/chunk.rs:31-49 | the array after n steps has 5832 slots |
| VoxelStorage.WalkStepAt | src/voxel/chunk.rs:31-49 | step n stores its generated voxel over its slot and clears the flag if the voxel has a shape |
| VoxelStorage.StoreStep | src/voxel/chunk.rs:38-47 | storing one generated voxel advances the array and the flag by one step |
| VoxelStorage.NoneShapedExactly | src/voxel/chunk.rs:29-44 | the flag after n steps holds iff every voxel generated so far, overwritten or not, has empty shape |
| VoxelStorage.WritesLastWins | src/voxel/chunk.rs:31-49 | a slot holds the voxel of the last step that wrote it |
| VoxelStorage.WritesUntouched | src/voxel/chunk.rs:25-49 | a slot no step wrote is still air |
| VoxelStorage.TailStaysAir | src/voxel/chunk.rs:25-49 | slots beyond 4641 stay air after the walk |
| VoxelStorage.GeneratedCellKept | src/voxel/chunk.rs:31-49 | positions with x, y >= 2 keep their own generated voxel |
| VoxelStorage.SharedSlotEarlier | src/voxel/chunk.rs:18-20 | a position sharing a slot with one with x, y >= 2 is visited no later |
| VoxelStorage.Slot16HoldsFarVoxel | src/voxel/chunk.rs:31-49 | slot 16, read for padded (0, 1, 0), ends up holding the voxel generated for (16, 0, 0) |
| VoxelStorage.Linearize | src/voxel/chunk.rs:18-20 | in-range coordinates give an index below 4096 |
| VoxelChunks.Fill | src/voxel/chunk.rs:29-49 | the nested loops leave the array as the whole walk writes it, and the flag as the walk defines it |
| VoxelChunks.FillSlice | src/voxel/chunk.rs:31-48 | one x slice advances the walk by 324 steps |
| VoxelChunks.FillColumn | src/voxel/chunk.rs:32-47 | one column advances the walk by 18 steps |
| VoxelChunks.WalkVoxel | src/voxel/chunk.rs:33-46 | one step of the walk |
| VoxelChunks.FillVoxel | src/voxel/chunk.rs:34-46 | the generated voxel is stored at its slot, and the flag is cleared if it has a shape |
| VoxelChunks.VoxelChunk.New | src/voxel/chunk.rs:22-57 | a chunk at the offset, with no mesh, whose array and flag are those of the whole walk; the flag says empty exactly when the generator gives a shapeless voxel at every padded cell |
| VoxelChunks.VoxelChunk.TryGetAt | src/voxel/chunk.rs:157-168 | Some iff every component lies in [0, 16), negatives failing through the usize cast; then the slot's voxel |
| VoxelChunks.VoxelChunk.SetAt | src/voxel/chunk.rs:198-203 | one slot is replaced, and neither the flag nor the mesh cache changes |
| VoxelChunks.VoxelChunk.DestroyAt | src/voxel/chunk.rs:205-207 | the slot becomes air, and neither the flag nor the mesh cache changes |
| VoxelChunks.VoxelChunk.GetOrCreateMesh | src/voxel/chunk.rs:183-192 | a cached mesh is returned as it is; otherwise the mesh of the array is built and cached |
| VoxelChunks.VoxelChunk.GetMesh | src/voxel/chunk.rs:59-143 | the loops build exactly the mesh of the faces the older rule draws |
| VoxelChunks.VoxelChunk.EmitSlice | src/voxel/chunk.rs:112 | one x slice extends the drawn faces by its 256 cells |
| VoxelChunks.VoxelChunk.EmitColumn | src/voxel/chunk.rs:113 | one column extends the drawn faces by its 16 cells |
| VoxelChunks.VoxelChunk.EmitCell | src/voxel/chunk.rs:114-121 | a cell without geometry is skipped, and any other adds its faces |
| VoxelChunks.VoxelChunk.EmitSolidCell | src/voxel/chunk.rs:124-137 | the six directions add exactly the cell's drawn faces |
| VoxelChunks.VoxelChunk.EmitFace | src/voxel/chunk.rs:124-137 | one direction adds its face exactly when the neighbour's shape is empty |
| VoxelChunks.StaleMeshAfterSetAt | src/voxel/chunk.rs:183-203 | after a mesh is cached, setting a voxel does not change the mesh returned next |
| VoxelChunks.VoxelChunk.GetAt | src/voxel/chunk.rs:149-151 | agrees with try_get_at for in-range coordinates |
| VoxelChunks.VoxelChunk.IsEmpty | src/voxel/chunk.rs:194-196 | the flag computed at construction |
| VoxelMeshing.VoxelNeighbor | src/voxel/chunk.rs:62-110 | the older table's offsets, corners and normals are the newer table's, four of each |
| VoxelMeshing.Padded | src/voxel/chunk.rs:112-114 | an interior cell shifted by one is a padded position |
| VoxelMeshing.NeighbourInPadded | src/voxel/chunk.rs:124-137 | every neighbour of an interior cell lies in the padded array |
| VoxelMeshing.VoxelDecidesExists | src/voxel/chunk.rs:116-137 | the older drawing rule can be written as a face test |
| VoxelMeshing.VoxelRule | src/voxel/chunk.rs:116-137 | a face test deciding the older drawing rule |
| VoxelMeshing.VoxelDecidesFaces | src/voxel/chunk.rs:112-140 | any test deciding the rule lists the drawn faces |
| VoxelMeshing.VoxelFacesExactly | src/voxel/chunk.rs:112-140 | a face is drawn iff the cell has geometry and the neighbour's slot holds an empty shape |
| VoxelMeshing.EmptyCellDrawsNothing | src/voxel/chunk.rs:116-121 | a cell without geometry draws nothing |
| VoxelMeshing.ShapelessChunkDrawsNothing | src/voxel/chunk.rs:112-140 | an array of empty shapes draws no face |
| VoxelMeshing.VoxelMeshOfShape | src/voxel/chunk.rs:331-364 | k faces make a well-formed mesh of 4 k vertices and 6 k indices |
| VoxelMeshing.VoxelFacesValidDirs | src/voxel/chunk.rs:124-137 | every drawn face names a table direction |
| VoxelMeshing.VoxelChunkMeshShape | src/voxel/chunk.rs:59-143 | the chunk's mesh is well formed, with 4 vertices and 6 indices per drawn face |
| VoxelMeshing.DrawOne | src/voxel/chunk.rs:331-352 | adding one face extends the mesh by that face |
| VoxelMeshing.VoxelRendersExists | src/voxel/chunk.rs:59-143 | some mesh function renders every face list |
| VoxelMeshing.VoxelMeshRule | src/voxel/chunk.rs:59-143 | a mesh function rendering every face list |
| VoxelMeshing.VoxelMeshBuilder.constructor | src/voxel/chunk.rs:311-318 | an empty, well-formed builder |
| VoxelMeshing.VoxelMeshBuilder.AddFace | src/voxel/chunk.rs:320-352 | 4 vertices, normals and uvs are appended, with the indices [s, s+2, s+1, s+2, s+3, s+1] |
| VoxelMeshing.VoxelMeshBuilder.Data | src/voxel/chunk.rs:354-364 | the mesh of a valid builder is well formed: as many normals and uvs as positions, and every index names a position |
| VoxelWorlds.ViewIsHalfOpen | src/voxel/world.rs:60-80 | the view cube reaches d chunks below the player but only d - 1 above; a distance in [2^31, 2^32) casts to a negative i32 and the cube is empty |
| VoxelWorlds.VoxelWorld.New | src/voxel/world.rs:26-31 | no chunks and nothing loaded |
| VoxelWorlds.VoxelWorld.GetChunk | src/voxel/world.rs:34-36 | Some iff a chunk was created at the position |
| VoxelWorlds.VoxelWorld.CreateChunk | src/voxel/world.rs:39-48 | returns whether a chunk existed; if not, a fresh chunk generated at the position is added, otherwise the map is unchanged |
| VoxelWorlds.VoxelWorld.MarkChunkLoaded | src/voxel/world.rs:51-58 | the position is loaded afterwards, and the loaded set only grows |
| VoxelWorlds.VoxelWorld.GetAndLoadChunksInViewDistance | src/voxel/world.rs:60-80 | the chunks become the old ones plus the half-open view cube; old chunks are kept, new ones are freshly generated; the loaded set is unchanged |
| VoxelWorlds.VoxelWorld.CreateSlice | src/voxel/world.rs:66-78 | one x slice of the view cube is created |
| VoxelWorlds.VoxelWorld.CreateColumn | src/voxel/world.rs:67-77 | one column of the view cube is created |
| VoxelWorlds.VoxelWorld.Get | src/voxel/world.rs:82-85 | None for a missing chunk; Some iff the chunk exists and every raw coordinate lies in [0, 16), which happens only in chunk (0, 0, 0) |
| VoxelWorlds.VoxelWorld.GetMesh | src/voxel/world.rs:92-95 | None iff no chunk exists; otherwise that chunk's cached or newly built mesh; only that chunk's mesh cache changes, and every chunk keeps its emptiness flag, offset and voxel array |
| VoxelWorlds.VoxelWorld.IsChunkLoaded | src/voxel/world.rs:51-53 | true exactly when the position is in the loaded set |

## Left out

- Floating point:
  - the `sin` height of the older generator (src/voxel/gen.rs:13) is not used by its result;
  - the simplex noise of the overworld is an uninterpreted height function `hills(x, z)`;
  - vertex positions are integer corners, and the constant vertex scale 1.0 is dropped;
  - uvs are symbolic values, and their atlas mapping is an uninterpreted function.
- Bevy ECS plumbing:
  - entities and mesh handles are opaque values;
  - `Commands`, `Query` and `Assets` become the maps and sequences they update;
  - transforms, materials and colliders are not modelled.
- Task pools and `SegQueue`. A generation or mesh task is the position it was dispatched for, a finished task is a value given to the merge step, and the queue is a sequence.
- i32 overflow of coordinates. Positions are unbounded integers, so the overflow of `player + offset` in the scan loops and of block and chunk arithmetic is not modelled. The `usize` to `i32` casts of the render and view distances are modelled, as is the i32 product in `blocks`.
- Negating `i32::MIN` and `i32::MIN.abs()` panic in debug builds and give i32::MIN in release builds. This affects the lower bound of the render cube (src/world/generation.rs:66-67, src/world/render.rs:56-57), `contains` (src/world/render_distance.rs:28) and the older view cube (src/voxel/world.rs:65-71). The model follows the release build (`Coords.NegI32`, `Coords.AbsI32`): at a distance of 2^31 the render cube is the single corner player + (MIN, MIN, MIN) and `contains` keeps it, while the older half-open view cube is empty. The debug panics are not modelled.
- The block counter `num_blocks` is a `u32` (src/world/chunk.rs:12, 29) that never exceeds 4096 (`Chunk.CountSolidBounded`), so it cannot overflow, and it is modelled as a `nat`.
- RenderDistances.RenderDistance.Blocks: the `distance * 16` product panics on overflow in debug builds; the model follows the release build, where it wraps modulo 2^32 once the distance reaches 2^27 (`RenderDistances.BlocksWrapPast2To27`).
- Generation.SortByDistance: the order among positions at equal distance is left open, as `sort_unstable` leaves it.
- Registry image loading and string ids are left out; the registry is a map from `u8` ids to static block data, and the numbering of the four ids is the model's choice, since the source's id constants are strings that do not match its `u8` key type.
- `Voxel::on_destroy` and `Voxel::tick` (src/voxel/mod.rs:36-37) and `VoxelChunk::tick` (src/voxel/chunk.rs:209-213) do nothing for the voxel types present and are not modelled.
- Generators are functions: the older `&mut self` generator has no fields, so a generator is a function value.
- The older `get_and_load_chunks_in_view_distance` also collects the chunks into a vector that it discards; only the map changes are modelled.
- VoxelChunks.VoxelChunk.GetAt, VoxelChunks.VoxelChunk.SetAt, VoxelChunks.VoxelChunk.DestroyAt and VoxelChunks.StaleMeshAfterSetAt: `get_at`, `set_at` and `destroy_at` (src/voxel/chunk.rs:149-151, 198-207) index the voxel vector directly and panic when the linearized index reaches 5832, for example at (0, 0, 23); the model states that bound as a precondition (`Linearize(x, y, z) < VOXEL_COUNT`) rather than modelling the panic, as it does for an unknown registry id. `VoxelChunk.TryGetAt` is the checked access and is modelled with its None result.
- `VoxelWorld::get_mut`, `VoxelChunk::get_at_mut` and `try_get_at_mut` index exactly as their read-only versions; only the read-only versions are modelled.
- `ChunkData::get_mesh` in src/world/chunk.rs ends by converting the builder with `as_mesh`, which src/util/mesh.rs does not define (it defines `into_mesh`); the mesh is the builder's data.
- The mesh task in src/world/render.rs:91-93 calls `ChunkOcclusionData::from_chunk(..).get_mesh()`, and the chunk.rs in this repository defines no `ChunkOcclusionData`. As with the other tasks, a mesh task is the position it was started for, and the mesh it yields is not modelled here (`Mesher.GetMesh` is the mesh of `ChunkData::get_mesh`).
- Chunk.ChunkData.WithData: the `FnMut` supplier (src/world/chunk.rs:23-36) is a pure function, so the order of its calls and any state it keeps are not captured.
- Worldgen.TerrainNoise: the f32 sum `y + hills` (src/world/worldgen.rs:30-38) rounds, and so does the i32-to-f32 conversion of y; the model adds exactly.
- Chunk.Indexify: the usize products and sums of `indexify` (src/world/chunk.rs:46-50) panic on overflow in debug builds, for example for a negative offset cast to usize; the model wraps as a release build does (`Chunk.IndexifyWrapsEachStep`).
- Nested loops are split into one method per loop level; the face tables are indexed functions rather than constant arrays.
- src/util/raytrace.rs, src/util/dda.rs and src/world/collider.rs are not part of this model.
