/** The chunk mesh builder and the six-direction face table. Face corners and
    normals are exact small integers; texture coordinates go through float
    arithmetic and are kept symbolic. */
module Mesh {
  import opened Coords
  import opened Blocks

  /** A texture coordinate: a corner of the unit square, or such a coordinate
      mapped into a region of the texture atlas. */
  datatype Uv = UnitUv(u: int, v: int) | AtlasUv(unit: Uv, atlas: AtlasCoordinates, atlasSize: (nat, nat))

  // Face templates of a unit cube; one corner per vertex of the quad.
  const FACE_Z_FRONT: seq<IVec3> := [IVec3(0, 0, 1), IVec3(0, 1, 1), IVec3(1, 0, 1), IVec3(1, 1, 1)]
  const FACE_Z_BACK: seq<IVec3> := [IVec3(1, 0, 0), IVec3(1, 1, 0), IVec3(0, 0, 0), IVec3(0, 1, 0)]
  const FACE_Y_FRONT: seq<IVec3> := [IVec3(0, 1, 1), IVec3(0, 1, 0), IVec3(1, 1, 1), IVec3(1, 1, 0)]
  const FACE_Y_BACK: seq<IVec3> := [IVec3(0, 0, 0), IVec3(0, 0, 1), IVec3(1, 0, 0), IVec3(1, 0, 1)]
  const FACE_X_FRONT: seq<IVec3> := [IVec3(1, 0, 1), IVec3(1, 1, 1), IVec3(1, 0, 0), IVec3(1, 1, 0)]
  const FACE_X_BACK: seq<IVec3> := [IVec3(0, 0, 0), IVec3(0, 1, 0), IVec3(0, 0, 1), IVec3(0, 1, 1)]

  const UV_Z_FRONT: seq<Uv> := [UnitUv(1, 1), UnitUv(1, 0), UnitUv(0, 1), UnitUv(0, 0)]
  const UV_Z_BACK: seq<Uv> := [UnitUv(0, 1), UnitUv(0, 0), UnitUv(1, 1), UnitUv(1, 0)]
  const UV_Y_FRONT: seq<Uv> := [UnitUv(1, 0), UnitUv(1, 1), UnitUv(0, 0), UnitUv(0, 1)]
  const UV_Y_BACK: seq<Uv> := [UnitUv(1, 1), UnitUv(1, 0), UnitUv(0, 1), UnitUv(0, 0)]
  const UV_X_FRONT: seq<Uv> := [UnitUv(0, 1), UnitUv(0, 0), UnitUv(1, 1), UnitUv(1, 0)]
  const UV_X_BACK: seq<Uv> := [UnitUv(1, 1), UnitUv(1, 0), UnitUv(0, 1), UnitUv(0, 0)]

  const NORMAL_Z_FRONT: seq<IVec3> := [IVec3(0, 0, 1), IVec3(0, 0, 1), IVec3(0, 0, 1), IVec3(0, 0, 1)]
  const NORMAL_Z_BACK: seq<IVec3> := [IVec3(0, 0, -1), IVec3(0, 0, -1), IVec3(0, 0, -1), IVec3(0, 0, -1)]
  const NORMAL_Y_FRONT: seq<IVec3> := [IVec3(0, 1, 0), IVec3(0, 1, 0), IVec3(0, 1, 0), IVec3(0, 1, 0)]
  const NORMAL_Y_BACK: seq<IVec3> := [IVec3(0, -1, 0), IVec3(0, -1, 0), IVec3(0, -1, 0), IVec3(0, -1, 0)]
  const NORMAL_X_FRONT: seq<IVec3> := [IVec3(1, 0, 0), IVec3(1, 0, 0), IVec3(1, 0, 0), IVec3(1, 0, 0)]
  const NORMAL_X_BACK: seq<IVec3> := [IVec3(-1, 0, 0), IVec3(-1, 0, 0), IVec3(-1, 0, 0), IVec3(-1, 0, 0)]

  /** One direction of the face table: the neighbour offset, the quad facing
      it, its normals and texture coordinates, and which texture it shows. */
  datatype NeighborEntry = NeighborEntry(
    offset: IVec3,
    geometry: seq<IVec3>,
    normals: seq<IVec3>,
    uvs: seq<Uv>,
    face: BlockFace)

  /** Number of entries of the face table. */
  const NEIGHBOR_COUNT := 6

  /** The neighbour offset of entry i of the face table: +z, -z, +y, -y, +x,
      -x in table order. */
  function NeighborOffset(i: int): IVec3
    requires 0 <= i < NEIGHBOR_COUNT
  {
    if i == 0 then IVec3(0, 0, 1)
    else if i == 1 then IVec3(0, 0, -1)
    else if i == 2 then IVec3(0, 1, 0)
    else if i == 3 then IVec3(0, -1, 0)
    else if i == 4 then IVec3(1, 0, 0)
    else IVec3(-1, 0, 0)
  }

  /** Entry i of the face table. */
  function Neighbor(i: int): (e: NeighborEntry)
    requires 0 <= i < NEIGHBOR_COUNT
    ensures e.offset == NeighborOffset(i)
  {
    if i == 0 then NeighborEntry(NeighborOffset(0), FACE_Z_FRONT, NORMAL_Z_FRONT, UV_Z_FRONT, Side)
    else if i == 1 then NeighborEntry(NeighborOffset(1), FACE_Z_BACK, NORMAL_Z_BACK, UV_Z_BACK, Side)
    else if i == 2 then NeighborEntry(NeighborOffset(2), FACE_Y_FRONT, NORMAL_Y_FRONT, UV_Y_FRONT, Top)
    else if i == 3 then NeighborEntry(NeighborOffset(3), FACE_Y_BACK, NORMAL_Y_BACK, UV_Y_BACK, Bottom)
    else if i == 4 then NeighborEntry(NeighborOffset(4), FACE_X_FRONT, NORMAL_X_FRONT, UV_X_FRONT, Side)
    else NeighborEntry(NeighborOffset(5), FACE_X_BACK, NORMAL_X_BACK, UV_X_BACK, Side)
  }

  /** A quad: four corners, four normals, four texture coordinates. */
  predicate IsQuad(e: NeighborEntry)
  {
    |e.geometry| == 4 && |e.normals| == 4 && |e.uvs| == 4
  }

  /** A unit step along one axis. */
  predicate IsAxisUnit(v: IVec3)
  {
    || v == IVec3(1, 0, 0) || v == IVec3(-1, 0, 0)
    || v == IVec3(0, 1, 0) || v == IVec3(0, -1, 0)
    || v == IVec3(0, 0, 1) || v == IVec3(0, 0, -1)
  }

  /** The table lists each of the six axis unit offsets exactly once, and every
      entry is a quad. */
  lemma NeighborOffsetsAreAxisUnits()
    ensures forall i :: 0 <= i < NEIGHBOR_COUNT ==> IsAxisUnit(NeighborOffset(i)) && IsQuad(Neighbor(i))
    ensures forall i, j :: 0 <= i < j < NEIGHBOR_COUNT ==> NeighborOffset(i) != NeighborOffset(j)
    ensures forall v :: IsAxisUnit(v) ==> exists i :: 0 <= i < NEIGHBOR_COUNT && NeighborOffset(i) == v
  {
    forall v | IsAxisUnit(v)
      ensures exists i :: 0 <= i < NEIGHBOR_COUNT && NeighborOffset(i) == v
    {
      if v == IVec3(0, 0, 1) {
        assert NeighborOffset(0) == v;
      } else if v == IVec3(0, 0, -1) {
        assert NeighborOffset(1) == v;
      } else if v == IVec3(0, 1, 0) {
        assert NeighborOffset(2) == v;
      } else if v == IVec3(0, -1, 0) {
        assert NeighborOffset(3) == v;
      } else if v == IVec3(1, 0, 0) {
        assert NeighborOffset(4) == v;
      } else {
        assert NeighborOffset(5) == v;
      }
    }
  }

  /** Up shows the top texture, down the bottom texture, the rest the sides. */
  lemma NeighborFaceClasses()
    ensures forall i :: 0 <= i < NEIGHBOR_COUNT ==>
      Neighbor(i).face == (if NeighborOffset(i).y == 1 then Top
                           else if NeighborOffset(i).y == -1 then Bottom
                           else Side)
  {
  }

  /** Every entry's four normals are its own offset direction. */
  lemma NeighborNormalsAreOffsets()
    ensures forall i :: 0 <= i < NEIGHBOR_COUNT ==> |Neighbor(i).normals| == 4
    ensures forall i, k :: 0 <= i < NEIGHBOR_COUNT && 0 <= k < 4 ==> Neighbor(i).normals[k] == NeighborOffset(i)
  {
    forall i | 0 <= i < NEIGHBOR_COUNT
      ensures Neighbor(i).normals == [NeighborOffset(i), NeighborOffset(i), NeighborOffset(i), NeighborOffset(i)]
    {
    }
  }

  /** Every quad lies on the side of the unit cube that faces its neighbour:
      its corners are corners of the cube, and along the offset's axis they sit
      at 1 for a positive and at 0 for a negative direction. */
  lemma NeighborQuadsFaceTheirNeighbour()
    ensures forall i :: 0 <= i < NEIGHBOR_COUNT ==> |Neighbor(i).geometry| == 4
    ensures forall i, k :: 0 <= i < NEIGHBOR_COUNT && 0 <= k < 4 ==>
      var e := Neighbor(i);
      && 0 <= e.geometry[k].x <= 1 && 0 <= e.geometry[k].y <= 1 && 0 <= e.geometry[k].z <= 1
      && (e.offset.x != 0 ==> e.geometry[k].x == (if e.offset.x > 0 then 1 else 0))
      && (e.offset.y != 0 ==> e.geometry[k].y == (if e.offset.y > 0 then 1 else 0))
      && (e.offset.z != 0 ==> e.geometry[k].z == (if e.offset.z > 0 then 1 else 0))
  {
    forall i, k | 0 <= i < NEIGHBOR_COUNT && 0 <= k < 4
      ensures var e := Neighbor(i);
        && |e.geometry| == 4
        && 0 <= e.geometry[k].x <= 1 && 0 <= e.geometry[k].y <= 1 && 0 <= e.geometry[k].z <= 1
        && (e.offset.x != 0 ==> e.geometry[k].x == (if e.offset.x > 0 then 1 else 0))
        && (e.offset.y != 0 ==> e.geometry[k].y == (if e.offset.y > 0 then 1 else 0))
        && (e.offset.z != 0 ==> e.geometry[k].z == (if e.offset.z > 0 then 1 else 0))
    {
      if k == 0 {
      } else if k == 1 {
      } else if k == 2 {
      } else {
      }
    }
  }

  // ---------------------------------------------------------------------
  // Building a mesh

  /** The two triangles of a quad whose first vertex has index s: they share
      the edge between vertices s + 1 and s + 2. */
  function FaceIndices(s: int): (r: seq<int>)
    ensures |r| == 6
    ensures forall i :: 0 <= i < 6 ==> s <= r[i] < s + 4
    ensures {r[0], r[1], r[2]} == {s, s + 1, s + 2}
    ensures {r[3], r[4], r[5]} == {s + 1, s + 2, s + 3}
  {
    [s, s + 2, s + 1, s + 2, s + 3, s + 1]
  }

  /** A face template moved to a cell. */
  function Placed(face: seq<IVec3>, offset: IVec3): (r: seq<IVec3>)
    ensures |r| == |face|
  {
    seq(|face|, i requires 0 <= i < |face| => IVecAdd(face[i], offset))
  }

  /** Texture coordinates mapped into an atlas region. */
  function Mapped(uvs: seq<Uv>, atlas: AtlasCoordinates, atlasSize: (nat, nat)): (r: seq<Uv>)
    ensures |r| == |uvs|
  {
    seq(|uvs|, i requires 0 <= i < |uvs| => AtlasUv(uvs[i], atlas, atlasSize))
  }

  /** The attributes a builder hands over as a mesh (ambient occlusion is not
      among them). */
  datatype MeshData = MeshData(positions: seq<IVec3>, normals: seq<IVec3>, uvs: seq<Uv>, indices: seq<int>)

  /** Every attribute has one entry per vertex and every index names a vertex. */
  predicate WellFormedMesh(m: MeshData)
  {
    && |m.normals| == |m.positions| && |m.uvs| == |m.positions|
    && forall i :: 0 <= i < |m.indices| ==> 0 <= m.indices[i] < |m.positions|
  }

  /** One face emitted by a mesher: a table entry placed at a cell, textured
      with an atlas region. */
  datatype Quad = Quad(entry: NeighborEntry, offset: IVec3, atlas: AtlasCoordinates, atlasSize: (nat, nat))

  /** The mesh after one more face. */
  function AppendQuad(m: MeshData, q: Quad): MeshData
  {
    MeshData(
      m.positions + Placed(q.entry.geometry, q.offset),
      m.normals + q.entry.normals,
      m.uvs + Mapped(q.entry.uvs, q.atlas, q.atlasSize),
      m.indices + FaceIndices(|m.positions|))
  }

  /** The mesh a fresh builder produces from a list of faces, in order. */
  function MeshOf(qs: seq<Quad>): MeshData
  {
    if qs == [] then MeshData([], [], [], [])
    else AppendQuad(MeshOf(qs[..|qs| - 1]), qs[|qs| - 1])
  }

  /** A mesh built from n quads is well formed and holds 4n vertices and 6n
      indices. */
  lemma {:induction false} MeshOfShape(qs: seq<Quad>)
    requires forall i :: 0 <= i < |qs| ==> IsQuad(qs[i].entry)
    ensures WellFormedMesh(MeshOf(qs))
    ensures |MeshOf(qs).positions| == 4 * |qs| && |MeshOf(qs).indices| == 6 * |qs|
  {
    if qs != [] {
      MeshOfShape(qs[..|qs| - 1]);
    }
  }

  /** The builder's growing vertex, normal, uv and index lists. */
  class ChunkMeshBuilder {
    var vertices: seq<IVec3>
    var normals: seq<IVec3>
    var uvs: seq<Uv>
    var ao: seq<real>
    var indices: seq<int>

    /** The lists stay parallel, every index names a vertex, and ambient
        occlusion is never written. */
    ghost predicate Valid()
      reads this
    {
      WellFormedMesh(MeshData(vertices, normals, uvs, indices)) && ao == []
    }

    /** What `into_mesh` hands over. */
    function Data(): (m: MeshData)
      reads this
      ensures Valid() ==> WellFormedMesh(m)
    {
      MeshData(vertices, normals, uvs, indices)
    }

    constructor ()
      ensures Valid()
      ensures Data() == MeshOf([])
    {
      vertices := [];
      normals := [];
      uvs := [];
      ao := [];
      indices := [];
    }

    /** Maps a quad's texture coordinates into an atlas region, in place. */
    static method TransformUvs(uvs: seq<Uv>, atlas: AtlasCoordinates, atlasSize: (nat, nat)) returns (r: seq<Uv>)
      ensures r == Mapped(uvs, atlas, atlasSize)
    {
      r := uvs;
      var i := 0;
      while i < |r|
        invariant 0 <= i <= |r| == |uvs|
        invariant r[..i] == Mapped(uvs, atlas, atlasSize)[..i]
        invariant r[i..] == uvs[i..]
      {
        r := r[i := AtlasUv(r[i], atlas, atlasSize)];
        i := i + 1;
      }
    }

    /** Appends one quad: four moved corners, four normals, four mapped
        texture coordinates and the six indices of its two triangles. */
    method AddFace(face: seq<IVec3>, faceNormals: seq<IVec3>, faceUvs: seq<Uv>,
                   offset: IVec3, atlas: AtlasCoordinates, atlasSize: (nat, nat))
      requires Valid()
      requires |face| == 4 && |faceNormals| == 4 && |faceUvs| == 4
      modifies this
      ensures Valid()
      ensures vertices == old(vertices) + Placed(face, offset)
      ensures normals == old(normals) + faceNormals
      ensures uvs == old(uvs) + Mapped(faceUvs, atlas, atlasSize)
      ensures indices == old(indices) + FaceIndices(|old(vertices)|)
      ensures ao == old(ao)
    {
      var placed := face;
      var i := 0;
      while i < 4
        invariant 0 <= i <= 4 && |placed| == 4
        invariant placed[..i] == Placed(face, offset)[..i]
        invariant placed[i..] == face[i..]
      {
        placed := placed[i := IVecAdd(placed[i], offset)];
        i := i + 1;
      }
      var mapped := TransformUvs(faceUvs, atlas, atlasSize);
      var startingIndex := |vertices|;
      vertices := vertices + placed;
      normals := normals + faceNormals;
      uvs := uvs + mapped;
      indices := indices + FaceIndices(startingIndex);
    }
  }

  /** Adding a face to a builder holding the mesh of some faces gives the mesh
      of those faces and the new one. */
  lemma AddFaceExtendsMeshOf(qs: seq<Quad>, q: Quad)
    ensures MeshOf(qs + [q]) == AppendQuad(MeshOf(qs), q)
  {
    assert (qs + [q])[..|qs|] == qs;
  }
}
