/** Face-culled meshing of one chunk: a face of a solid cell is emitted when
    the neighbouring cell is air, looking across the chunk border into the
    world. */
module Meshing {
  import opened SeqFacts
  import opened Options
  import opened Coords
  import opened Blocks
  import opened Chunk
  import opened Mesh
  import opened WorldAccess

  // ---------------------------------------------------------------------
  // Which faces a chunk emits

  /** One emitted face: a cell and an index into the face table. */
  datatype Face = Face(cell: IVec3, dir: int)

  /** A rule telling whether a cell shows its face toward a table direction. */
  datatype FaceTest = FaceTest(shows: (IVec3, int) -> bool)

  /** The test shows face f, toward one of the table directions. */
  predicate ShowsFace(t: FaceTest, f: Face)
  {
    0 <= f.dir < NEIGHBOR_COUNT && t.shows(f.cell, f.dir)
  }

  /** Faces of cell o toward the first d table directions. */
  function DirFaces(t: FaceTest, o: IVec3, d: nat): seq<Face>
  {
    if d == 0 then []
    else DirFaces(t, o, d - 1) + (if t.shows(o, d - 1) then [Face(o, d - 1)] else [])
  }

  lemma {:induction false} DirFacesMembers(t: FaceTest, o: IVec3, d: nat)
    requires d <= NEIGHBOR_COUNT
    ensures forall f :: f in DirFaces(t, o, d) <==> f.cell == o && 0 <= f.dir < d && t.shows(o, f.dir)
    ensures |DirFaces(t, o, d)| <= d
  {
    if d > 0 {
      DirFacesMembers(t, o, d - 1);
    }
  }

  /** The position of a chunk cell in the mesher's walk: x slowest, z
      fastest. */
  function Rank(o: IVec3): int
  {
    256 * o.x + 16 * o.y + o.z
  }

  /** The k-th cell of the mesher's walk. */
  function WalkCell(k: int): (o: IVec3)
    requires 0 <= k < VOLUME
    ensures InChunk(o) && Rank(o) == k
  {
    var x, r := k / 256, k % 256;
    assert k == 256 * x + r;
    assert r == 16 * (r / 16) + r % 16;
    IVec3(x, r / 16, r % 16)
  }

  /** The walk visits every chunk cell, at the place given by its rank. */
  lemma WalkCellRank(o: IVec3)
    requires InChunk(o)
    ensures 0 <= Rank(o) < VOLUME && WalkCell(Rank(o)) == o
  {
    var w := WalkCell(Rank(o));
    assert 256 * (w.x - o.x) + 16 * (w.y - o.y) + (w.z - o.z) == 0;
  }

  /** Faces of the first n cells of the walk, cell by cell and direction by
      direction. */
  function WalkFaces(t: FaceTest, n: nat): seq<Face>
    requires n <= VOLUME
  {
    if n == 0 then [] else WalkFaces(t, n - 1) + DirFaces(t, WalkCell(n - 1), NEIGHBOR_COUNT)
  }

  /** The walk reaches a chunk cell at its rank and lists its faces there. */
  lemma WalkStep(t: FaceTest, o: IVec3)
    requires InChunk(o)
    ensures Rank(o) < VOLUME
    ensures WalkFaces(t, Rank(o) + 1) == WalkFaces(t, Rank(o)) + DirFaces(t, o, NEIGHBOR_COUNT)
  {
    WalkCellRank(o);
  }

  /** A face is listed among the first n cells exactly when its cell is a
      chunk cell of rank below n and the test shows it. */
  lemma {:induction false} WalkFacesMembers(t: FaceTest, n: nat)
    requires n <= VOLUME
    ensures forall f :: f in WalkFaces(t, n) <==> InChunk(f.cell) && Rank(f.cell) < n && ShowsFace(t, f)
  {
    if n > 0 {
      WalkFacesMembers(t, n - 1);
      var o := WalkCell(n - 1);
      DirFacesMembers(t, o, NEIGHBOR_COUNT);
      forall f
        ensures f in WalkFaces(t, n) <==> InChunk(f.cell) && Rank(f.cell) < n && ShowsFace(t, f)
      {
        assert f in WalkFaces(t, n) <==> f in WalkFaces(t, n - 1) || f in DirFaces(t, o, NEIGHBOR_COUNT);
        if InChunk(f.cell) && Rank(f.cell) == n - 1 {
          WalkCellRank(f.cell);
        }
      }
    }
  }

  // ---------------------------------------------------------------------
  // The occlusion rule

  /** What the mesher reads: the chunk's cells, its position and the world's
      cells. */
  datatype Scene = Scene(blocks: seq<BlockData>, chunkPos: ChunkPos, world: WorldView)

  predicate ValidScene(s: Scene)
  {
    |s.blocks| == VOLUME && ValidView(s.world)
  }

  /** Whether the neighbour of cell o in table direction e lets the face show:
      inside the chunk it must be an air cell; outside, the world must not
      hold a solid block there (an absent chunk counts as open). */
  predicate FaceVisible(s: Scene, o: IVec3, offset: IVec3): (b: bool)
    requires ValidScene(s)
    ensures InChunk(IVecAdd(o, offset)) ==> (b <==> s.blocks[Indexify(IVecAdd(o, offset))].None?)
    ensures !InChunk(IVecAdd(o, offset)) ==>
      var q := BlockAdd(BlockFromChunk(s.chunkPos), BlockFromIVec(IVecAdd(o, offset)));
      (b <==> ChunkFromBlock(q) !in s.world || s.world[ChunkFromBlock(q)][CellIndex(q)].None?)
  {
    var n := IVecAdd(o, offset);
    if InChunk(n) then RawCell(s.blocks, n) == Some(None)
    else
      var b := BlockIn(s.world, BlockAdd(BlockFromChunk(s.chunkPos), BlockFromIVec(n)));
      !(b.Some? && b.value.Some?)
  }

  /** Cell o of the chunk is solid and shows its face toward direction i. */
  predicate Emits(s: Scene, o: IVec3, i: int)
  {
    && ValidScene(s) && InChunk(o) && 0 <= i < NEIGHBOR_COUNT
    && s.blocks[Indexify(o)].Some?
    && FaceVisible(s, o, NeighborOffset(i))
  }

  /** The occlusion rule of s as a face test. */
  function EmitsIn(s: Scene): FaceTest
  {
    FaceTest((o: IVec3, i: int) => Emits(s, o, i))
  }

  /** A test that answers exactly as the occlusion rule of s does. */
  ghost predicate Decides(t: FaceTest, s: Scene)
  {
    forall o, i {:trigger Emits(s, o, i)} :: t.shows(o, i) == Emits(s, o, i)
  }

  lemma DecidesExists(s: Scene)
    ensures exists t :: Decides(t, s)
  {
    assert Decides(EmitsIn(s), s);
  }

  /** Some test deciding the occlusion rule of s; every such test lists the
      same faces (DecidesFaces), so which one is chosen does not matter. */
  ghost function Rule(s: Scene): (t: FaceTest)
    ensures Decides(t, s)
  {
    DecidesExists(s);
    var t :| Decides(t, s); t
  }

  /** Every face the chunk emits, in the mesher's x, y, z, direction order. */
  ghost function ChunkFaces(s: Scene): seq<Face>
  {
    WalkFaces(Rule(s), VOLUME)
  }

  /** Two tests that agree everywhere list the same faces. */
  lemma {:induction false} WalkFacesAgree(t1: FaceTest, t2: FaceTest, n: nat)
    requires n <= VOLUME
    requires forall o, i :: t1.shows(o, i) == t2.shows(o, i)
    ensures WalkFaces(t1, n) == WalkFaces(t2, n)
  {
    if n > 0 {
      WalkFacesAgree(t1, t2, n - 1);
      DirFacesAgree(t1, t2, WalkCell(n - 1), NEIGHBOR_COUNT);
    }
  }

  lemma {:induction false} DirFacesAgree(t1: FaceTest, t2: FaceTest, o: IVec3, d: nat)
    requires forall o, i :: t1.shows(o, i) == t2.shows(o, i)
    ensures DirFaces(t1, o, d) == DirFaces(t2, o, d)
  {
    if d > 0 {
      DirFacesAgree(t1, t2, o, d - 1);
    }
  }

  /** Any test deciding the occlusion rule lists the chunk's faces. */
  lemma DecidesFaces(t: FaceTest, s: Scene)
    requires Decides(t, s)
    ensures WalkFaces(t, VOLUME) == ChunkFaces(s)
  {
    var r := Rule(s);
    forall o, i
      ensures t.shows(o, i) == r.shows(o, i)
    {
      assert t.shows(o, i) == Emits(s, o, i);
    }
    WalkFacesAgree(t, r, VOLUME);
  }

  /** Under a test deciding the occlusion rule, a face is listed exactly
      when the rule shows it. */
  lemma DecidedFacesExactly(t: FaceTest, s: Scene, f: Face)
    requires Decides(t, s)
    ensures f in WalkFaces(t, VOLUME) <==> Emits(s, f.cell, f.dir)
  {
    WalkFacesMembers(t, VOLUME);
    if Emits(s, f.cell, f.dir) {
      assert InChunk(f.cell) && 0 <= f.dir < NEIGHBOR_COUNT;
    }
  }

  /** A test that never answers yes lists nothing. */
  lemma WalkFacesSilent(t: FaceTest)
    requires forall o, i :: !t.shows(o, i)
    ensures WalkFaces(t, VOLUME) == []
  {
    WalkFacesMembers(t, VOLUME);
    NoMembersEmpty(WalkFaces(t, VOLUME));
  }

  /** A face is emitted exactly when its cell is a solid cell of the chunk
      and the neighbour in its direction lets it show. */
  lemma ChunkFacesExactly(s: Scene, f: Face)
    ensures f in ChunkFaces(s) <==> Emits(s, f.cell, f.dir)
  {
    DecidedFacesExactly(Rule(s), s, f);
  }

  /** Under any test deciding the occlusion rule, an air cell emits
      nothing and a solid cell at most one face per direction. */
  lemma CellFacesBounded(t: FaceTest, s: Scene, o: IVec3)
    requires Decides(t, s)
    ensures |DirFaces(t, o, NEIGHBOR_COUNT)| <= NEIGHBOR_COUNT
    ensures ValidScene(s) && InChunk(o) && s.blocks[Indexify(o)].None? ==> DirFaces(t, o, NEIGHBOR_COUNT) == []
  {
    DirFacesMembers(t, o, NEIGHBOR_COUNT);
    if ValidScene(s) && InChunk(o) && s.blocks[Indexify(o)].None? {
      forall i | 0 <= i < NEIGHBOR_COUNT
        ensures !t.shows(o, i)
      {
        assert !Emits(s, o, i);
      }
      NoMembersEmpty(DirFaces(t, o, NEIGHBOR_COUNT));
    }
  }

  /** A chunk of air emits no face at all. */
  lemma AirChunkEmitsNothing(s: Scene)
    requires ValidScene(s)
    requires forall i :: 0 <= i < VOLUME ==> s.blocks[i].None?
    ensures ChunkFaces(s) == []
  {
    var t := Rule(s);
    forall o, i
      ensures !t.shows(o, i)
    {
      if InChunk(o) {
        assert s.blocks[Indexify(o)].None?;
      }
      assert !Emits(s, o, i);
    }
    WalkFacesSilent(t);
  }

  // ---------------------------------------------------------------------
  // From faces to the mesh

  /** A face whose cell is solid and whose block type is registered. */
  predicate Drawable(s: Scene, registry: BlockRegistry, f: Face)
  {
    && |s.blocks| == VOLUME && InChunk(f.cell) && 0 <= f.dir < NEIGHBOR_COUNT
    && s.blocks[Indexify(f.cell)].Some?
    && s.blocks[Indexify(f.cell)].value.id in registry.staticBlockData
  }

  predicate AllDrawable(s: Scene, registry: BlockRegistry, faces: seq<Face>)
  {
    forall i :: 0 <= i < |faces| ==> Drawable(s, registry, faces[i])
  }

  /** Every block type that would show a face is registered (looking up an
      unregistered id is a fatal error in the source). */
  ghost predicate RegistryCovers(s: Scene, registry: BlockRegistry)
  {
    forall o, i {:trigger Emits(s, o, i)} :: Emits(s, o, i) ==> Drawable(s, registry, Face(o, i))
  }

  /** The quad a face becomes, textured from the registry by the face class
      of its direction. */
  function FaceQuad(s: Scene, registry: BlockRegistry, f: Face): Quad
    requires Drawable(s, registry, f)
  {
    var e := Neighbor(f.dir);
    var data := GetBlockData(registry, s.blocks[Indexify(f.cell)].value.id);
    Quad(e, f.cell, GetCoords(data.textures, e.face), registry.atlasSize)
  }

  function QuadsOf(s: Scene, registry: BlockRegistry, faces: seq<Face>): (qs: seq<Quad>)
    requires AllDrawable(s, registry, faces)
    ensures |qs| == |faces|
    ensures forall i :: 0 <= i < |qs| ==> IsQuad(qs[i].entry)
  {
    NeighborOffsetsAreAxisUnits();
    seq(|faces|, i requires 0 <= i < |faces| => FaceQuad(s, registry, faces[i]))
  }

  /** The emitted faces are drawable when the registry covers the chunk. */
  lemma ChunkFacesDrawable(s: Scene, registry: BlockRegistry)
    requires RegistryCovers(s, registry)
    ensures AllDrawable(s, registry, ChunkFaces(s))
  {
    forall i | 0 <= i < |ChunkFaces(s)|
      ensures Drawable(s, registry, ChunkFaces(s)[i])
    {
      ChunkFacesExactly(s, ChunkFaces(s)[i]);
    }
  }

  /** The mesh of a chunk: one quad per emitted face, in emission order. */
  ghost function ChunkMesh(s: Scene, registry: BlockRegistry): MeshData
    requires RegistryCovers(s, registry)
  {
    ChunkFacesDrawable(s, registry);
    MeshOf(QuadsOf(s, registry, ChunkFaces(s)))
  }

  /** The chunk mesh is well formed, with four vertices and six indices per
      emitted face. */
  lemma ChunkMeshShape(s: Scene, registry: BlockRegistry)
    requires RegistryCovers(s, registry)
    ensures WellFormedMesh(ChunkMesh(s, registry))
    ensures |ChunkMesh(s, registry).positions| == 4 * |ChunkFaces(s)|
    ensures |ChunkMesh(s, registry).indices| == 6 * |ChunkFaces(s)|
  {
    ChunkFacesDrawable(s, registry);
    MeshOfShape(QuadsOf(s, registry, ChunkFaces(s)));
  }

  /** Emitting one more face appends its quad to the mesh. */
  lemma EmitOne(s: Scene, registry: BlockRegistry, faces: seq<Face>, f: Face)
    requires AllDrawable(s, registry, faces) && Drawable(s, registry, f)
    ensures AllDrawable(s, registry, faces + [f])
    ensures MeshOf(QuadsOf(s, registry, faces + [f]))
         == AppendQuad(MeshOf(QuadsOf(s, registry, faces)), FaceQuad(s, registry, f))
  {
    assert QuadsOf(s, registry, faces + [f]) == QuadsOf(s, registry, faces) + [FaceQuad(s, registry, f)];
    AddFaceExtendsMeshOf(QuadsOf(s, registry, faces), FaceQuad(s, registry, f));
  }

  // ---------------------------------------------------------------------
  // What the mesher keeps true

  /** A mesh for every list of faces, as a function value. */
  datatype FacesMesh = FacesMesh(of: seq<Face> -> MeshData)

  /** m gives the mesh of every drawable face list of s. The trigger is the
      quad list, so a contract speaking of m.of(faces) does not unfold into
      quads until a proof names them. */
  ghost predicate Renders(m: FacesMesh, s: Scene, registry: BlockRegistry)
  {
    forall faces {:trigger QuadsOf(s, registry, faces)} ::
      AllDrawable(s, registry, faces) ==> m.of(faces) == MeshOf(QuadsOf(s, registry, faces))
  }

  lemma RendersExists(s: Scene, registry: BlockRegistry)
    ensures exists m :: Renders(m, s, registry)
  {
    var m := FacesMesh(faces => if AllDrawable(s, registry, faces) then MeshOf(QuadsOf(s, registry, faces)) else MeshOf([]));
    assert Renders(m, s, registry);
  }

  /** Some mesh rule for s and the registry; all of them agree on drawable
      face lists. */
  ghost function MeshRule(s: Scene, registry: BlockRegistry): (m: FacesMesh)
    ensures Renders(m, s, registry)
  {
    RendersExists(s, registry);
    var m :| Renders(m, s, registry);
    m
  }

  /** The builder holds the mesh of the given faces. */
  ghost predicate Built(builder: ChunkMeshBuilder, s: Scene, registry: BlockRegistry, m: FacesMesh, faces: seq<Face>)
    reads builder
  {
    builder.Valid() && AllDrawable(s, registry, faces) && builder.Data() == m.of(faces)
  }

  /** What the mesher relies on while it runs: valid chunk and world, the
      scene they form, and a registry covering every face shown. */
  ghost predicate Ready(chunk: ChunkData, chunkPos: ChunkPos, registry: BlockRegistry,
                        world: ExcavateManufacturateWorld, s: Scene)
    reads chunk, world, world.chunks.Values
  {
    && chunk.Valid() && world.Valid() && ValidView(world.cells)
    && s == Scene(chunk.blocks, chunkPos, world.cells)
    && RegistryCovers(s, registry)
  }
}
