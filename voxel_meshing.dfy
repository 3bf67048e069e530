/** What the older design's chunk mesher draws: for every interior voxel with
    geometry, one quad toward each of the six neighbours whose shape is empty,
    built into plain vertex, normal, uv and index lists. */
module VoxelMeshing {
  import opened SeqFacts
  import opened Coords
  import opened Chunk
  import opened Mesh
  import opened Meshing
  import opened VoxelBase
  import opened VoxelStorage

  // Texture coordinates of the older design's face table.
  const VOXEL_UV_Z_FRONT: seq<Uv> := [UnitUv(0, 0), UnitUv(0, 1), UnitUv(1, 0), UnitUv(1, 1)]
  const VOXEL_UV_Z_BACK: seq<Uv> := [UnitUv(1, 0), UnitUv(1, 1), UnitUv(0, 0), UnitUv(0, 1)]
  const VOXEL_UV_Y_FRONT: seq<Uv> := [UnitUv(0, 1), UnitUv(0, 0), UnitUv(1, 1), UnitUv(1, 0)]
  const VOXEL_UV_Y_BACK: seq<Uv> := [UnitUv(0, 0), UnitUv(0, 1), UnitUv(1, 0), UnitUv(1, 1)]
  const VOXEL_UV_X_FRONT: seq<Uv> := [UnitUv(1, 0), UnitUv(1, 1), UnitUv(0, 0), UnitUv(0, 1)]
  const VOXEL_UV_X_BACK: seq<Uv> := [UnitUv(0, 0), UnitUv(0, 1), UnitUv(1, 0), UnitUv(1, 1)]

  /** One direction of the older face table: neighbour offset, quad corners,
      normals and texture coordinates. */
  datatype VoxelFaceData = VoxelFaceData(offset: IVec3, geometry: seq<IVec3>, normals: seq<IVec3>, uvs: seq<Uv>)

  /** Entry i of the older face table, in the order +z, -z, +y, -y, +x, -x.
      Corners and normals are those of the newer table; only the texture
      coordinates differ. */
  function VoxelNeighbor(i: int): (e: VoxelFaceData)
    requires 0 <= i < NEIGHBOR_COUNT
    ensures e.offset == NeighborOffset(i)
    ensures e.geometry == Neighbor(i).geometry && e.normals == Neighbor(i).normals
    ensures |e.geometry| == 4 && |e.normals| == 4 && |e.uvs| == 4
  {
    if i == 0 then VoxelFaceData(NeighborOffset(0), FACE_Z_FRONT, NORMAL_Z_FRONT, VOXEL_UV_Z_FRONT)
    else if i == 1 then VoxelFaceData(NeighborOffset(1), FACE_Z_BACK, NORMAL_Z_BACK, VOXEL_UV_Z_BACK)
    else if i == 2 then VoxelFaceData(NeighborOffset(2), FACE_Y_FRONT, NORMAL_Y_FRONT, VOXEL_UV_Y_FRONT)
    else if i == 3 then VoxelFaceData(NeighborOffset(3), FACE_Y_BACK, NORMAL_Y_BACK, VOXEL_UV_Y_BACK)
    else if i == 4 then VoxelFaceData(NeighborOffset(4), FACE_X_FRONT, NORMAL_X_FRONT, VOXEL_UV_X_FRONT)
    else VoxelFaceData(NeighborOffset(5), FACE_X_BACK, NORMAL_X_BACK, VOXEL_UV_X_BACK)
  }

  // ---------------------------------------------------------------------
  // Which faces the mesher draws

  /** The padded position of interior cell o: the mesher's loops run over
      1..17, which is the walk over 0..16 shifted by one. */
  function Padded(o: IVec3): (c: IVec3)
    ensures InChunk(o) ==> InPadded(c)
  {
    IVec3(o.x + 1, o.y + 1, o.z + 1)
  }

  /** The neighbour of interior cell o in table direction i stays inside the
      padded chunk. */
  lemma NeighbourInPadded(o: IVec3, i: int)
    requires InChunk(o) && 0 <= i < NEIGHBOR_COUNT
    ensures InPadded(IVecAdd(Padded(o), NeighborOffset(i)))
  {
  }

  /** Interior cell o has geometry, and its neighbour in table direction i,
      read through the chunk's slots, has empty shape. */
  predicate VoxelEmits(vs: seq<Voxel>, o: IVec3, i: int)
  {
    && |vs| == VOXEL_COUNT && InChunk(o) && 0 <= i < NEIGHBOR_COUNT
    && !HasNoGeometry(vs[Slot(Padded(o))])
    && (NeighbourInPadded(o, i);
        vs[Slot(IVecAdd(Padded(o), NeighborOffset(i)))].shape == Empty)
  }

  /** A test that answers exactly as the voxel rule on vs does. */
  ghost predicate VoxelDecides(t: FaceTest, vs: seq<Voxel>)
  {
    forall o, i {:trigger VoxelEmits(vs, o, i)} :: t.shows(o, i) == VoxelEmits(vs, o, i)
  }

  lemma VoxelDecidesExists(vs: seq<Voxel>)
    ensures exists t :: VoxelDecides(t, vs)
  {
    var t := FaceTest((o: IVec3, i: int) => VoxelEmits(vs, o, i));
    assert VoxelDecides(t, vs);
  }

  /** Some test deciding the voxel rule on vs; all of them list the same
      faces. */
  ghost function VoxelRule(vs: seq<Voxel>): (t: FaceTest)
    ensures VoxelDecides(t, vs)
  {
    VoxelDecidesExists(vs);
    var t :| VoxelDecides(t, vs); t
  }

  /** Every face the mesher draws for array vs, in loop order: x, then y,
      then z, then table direction. */
  ghost function VoxelFaces(vs: seq<Voxel>): seq<Face>
  {
    WalkFaces(VoxelRule(vs), VOLUME)
  }

  /** Any test deciding the voxel rule lists the drawn faces. */
  lemma VoxelDecidesFaces(t: FaceTest, vs: seq<Voxel>)
    requires VoxelDecides(t, vs)
    ensures WalkFaces(t, VOLUME) == VoxelFaces(vs)
  {
    var r := VoxelRule(vs);
    forall o, i
      ensures t.shows(o, i) == r.shows(o, i)
    {
      assert t.shows(o, i) == VoxelEmits(vs, o, i);
    }
    WalkFacesAgree(t, r, VOLUME);
  }

  /** A face is drawn exactly when its cell is an interior cell with geometry
      and the neighbour in its direction has empty shape. */
  lemma VoxelFacesExactly(vs: seq<Voxel>, f: Face)
    ensures f in VoxelFaces(vs) <==> VoxelEmits(vs, f.cell, f.dir)
  {
    WalkFacesMembers(VoxelRule(vs), VOLUME);
    if VoxelEmits(vs, f.cell, f.dir) {
      assert InChunk(f.cell) && 0 <= f.dir < NEIGHBOR_COUNT;
    }
  }

  /** A cell without geometry draws nothing. */
  lemma EmptyCellDrawsNothing(t: FaceTest, vs: seq<Voxel>, o: IVec3)
    requires VoxelDecides(t, vs) && |vs| == VOXEL_COUNT && InChunk(o)
    requires HasNoGeometry(vs[Slot(Padded(o))])
    ensures DirFaces(t, o, NEIGHBOR_COUNT) == []
  {
    DirFacesMembers(t, o, NEIGHBOR_COUNT);
    forall i | 0 <= i < NEIGHBOR_COUNT
      ensures !t.shows(o, i)
    {
      assert !VoxelEmits(vs, o, i);
    }
    NoMembersEmpty(DirFaces(t, o, NEIGHBOR_COUNT));
  }

  /** An array of nothing but empty shapes draws no face. */
  lemma ShapelessChunkDrawsNothing(vs: seq<Voxel>)
    requires |vs| == VOXEL_COUNT
    requires forall s :: 0 <= s < VOXEL_COUNT ==> vs[s].shape == Empty
    ensures VoxelFaces(vs) == []
  {
    var t := VoxelRule(vs);
    forall o, i
      ensures !t.shows(o, i)
    {
      if InChunk(o) {
        assert HasNoGeometry(vs[Slot(Padded(o))]);
      }
      assert !VoxelEmits(vs, o, i);
    }
    WalkFacesSilent(t);
  }

  // ---------------------------------------------------------------------
  // From faces to the mesh

  /** Every face names a table direction. */
  predicate ValidDirs(faces: seq<Face>)
  {
    forall k :: 0 <= k < |faces| ==> 0 <= faces[k].dir < NEIGHBOR_COUNT
  }

  /** The mesh after one more face: its quad placed at the padded cell, with
      the table's normals and texture coordinates. */
  function AppendVoxelFace(m: MeshData, f: Face): MeshData
    requires 0 <= f.dir < NEIGHBOR_COUNT
  {
    var e := VoxelNeighbor(f.dir);
    MeshData(
      m.positions + Placed(e.geometry, Padded(f.cell)),
      m.normals + e.normals,
      m.uvs + e.uvs,
      m.indices + FaceIndices(|m.positions|))
  }

  /** The mesh a fresh builder produces from a list of faces, in order. */
  function VoxelMeshOf(faces: seq<Face>): MeshData
    requires ValidDirs(faces)
  {
    if faces == [] then MeshData([], [], [], [])
    else AppendVoxelFace(VoxelMeshOf(faces[..|faces| - 1]), faces[|faces| - 1])
  }

  /** A mesh of n faces is well formed, with 4n vertices and 6n indices. */
  lemma {:induction false} VoxelMeshOfShape(faces: seq<Face>)
    requires ValidDirs(faces)
    ensures WellFormedMesh(VoxelMeshOf(faces))
    ensures |VoxelMeshOf(faces).positions| == 4 * |faces| && |VoxelMeshOf(faces).indices| == 6 * |faces|
  {
    if faces != [] {
      VoxelMeshOfShape(faces[..|faces| - 1]);
    }
  }

  /** Drawn faces all name a table direction. */
  lemma VoxelFacesValidDirs(vs: seq<Voxel>)
    ensures ValidDirs(VoxelFaces(vs))
  {
    forall k | 0 <= k < |VoxelFaces(vs)|
      ensures 0 <= VoxelFaces(vs)[k].dir < NEIGHBOR_COUNT
    {
      VoxelFacesExactly(vs, VoxelFaces(vs)[k]);
    }
  }

  /** The mesh of a chunk's array: one quad per drawn face, in draw order. */
  ghost function VoxelChunkMesh(vs: seq<Voxel>): MeshData
  {
    VoxelFacesValidDirs(vs);
    VoxelMeshOf(VoxelFaces(vs))
  }

  /** The chunk mesh is well formed, with four vertices and six indices per
      drawn face. */
  lemma VoxelChunkMeshShape(vs: seq<Voxel>)
    ensures WellFormedMesh(VoxelChunkMesh(vs))
    ensures |VoxelChunkMesh(vs).positions| == 4 * |VoxelFaces(vs)|
    ensures |VoxelChunkMesh(vs).indices| == 6 * |VoxelFaces(vs)|
  {
    VoxelFacesValidDirs(vs);
    VoxelMeshOfShape(VoxelFaces(vs));
  }

  /** Drawing one more face appends its quad. */
  lemma DrawOne(faces: seq<Face>, f: Face)
    requires ValidDirs(faces) && 0 <= f.dir < NEIGHBOR_COUNT
    ensures ValidDirs(faces + [f])
    ensures VoxelMeshOf(faces + [f]) == AppendVoxelFace(VoxelMeshOf(faces), f)
  {
    assert (faces + [f])[..|faces|] == faces;
  }

  /** m gives the mesh of every face list naming table directions. The
      trigger is the mesh function itself, so a contract speaking of
      m.of(faces) does not unfold the mesh until a proof names it. */
  ghost predicate VoxelRenders(m: FacesMesh)
  {
    forall faces {:trigger VoxelMeshOf(faces)} :: ValidDirs(faces) ==> m.of(faces) == VoxelMeshOf(faces)
  }

  lemma VoxelRendersExists()
    ensures exists m :: VoxelRenders(m)
  {
    var m := FacesMesh(faces => if ValidDirs(faces) then VoxelMeshOf(faces) else MeshData([], [], [], []));
    assert VoxelRenders(m);
  }

  /** Some mesh rule; all of them agree on face lists naming directions. */
  ghost function VoxelMeshRule(): (m: FacesMesh)
    ensures VoxelRenders(m)
  {
    VoxelRendersExists();
    var m :| VoxelRenders(m);
    m
  }

  // ---------------------------------------------------------------------
  // The builder

  /** The older design's mesh builder: vertex, normal, uv and index lists. */
  class VoxelMeshBuilder {
    var vertices: seq<IVec3>
    var normals: seq<IVec3>
    var uvs: seq<Uv>
    var indices: seq<int>

    /** The lists stay parallel and every index names a vertex. */
    ghost predicate Valid()
      reads this
    {
      WellFormedMesh(MeshData(vertices, normals, uvs, indices))
    }

    /** What `to_mesh` hands over. */
    function Data(): (m: MeshData)
      reads this
      ensures Valid() ==> WellFormedMesh(m)
    {
      MeshData(vertices, normals, uvs, indices)
    }

    constructor ()
      ensures Valid()
      ensures Data() == VoxelMeshOf([])
    {
      vertices := [];
      normals := [];
      uvs := [];
      indices := [];
    }

    /** Appends one quad: four corners moved by the offset, four normals,
        four texture coordinates and the six indices of its two triangles,
        numbered from the old vertex count. */
    method AddFace(face: seq<IVec3>, faceNormals: seq<IVec3>, faceUvs: seq<Uv>, offset: IVec3)
      requires Valid()
      requires |face| == 4 && |faceNormals| == 4 && |faceUvs| == 4
      modifies this
      ensures Valid()
      ensures vertices == old(vertices) + Placed(face, offset)
      ensures normals == old(normals) + faceNormals
      ensures uvs == old(uvs) + faceUvs
      ensures indices == old(indices) + FaceIndices(|old(vertices)|)
    {
      var placed := face;
      var i := 0;
      while i < 4
        invariant 0 <= i <= 4 && |placed| == 4
        invariant placed[..i] == Placed(face, offset)[..i]
        invariant placed[i..] == face[i..]
      {
        placed := placed[i := IVecAdd(placed[i], offset)];
        i := i + 1;
      }
      var startingIndex := |vertices|;
      vertices := vertices + placed;
      normals := normals + faceNormals;
      uvs := uvs + faceUvs;
      indices := indices + FaceIndices(startingIndex);
    }
  }

  /** The builder holds the mesh of the given faces. */
  ghost predicate VoxelBuilt(builder: VoxelMeshBuilder, m: FacesMesh, faces: seq<Face>)
    reads builder
  {
    builder.Valid() && ValidDirs(faces) && builder.Data() == m.of(faces)
  }
}
