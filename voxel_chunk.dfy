/** The older design's chunk: a padded voxel array filled from a generator,
    an emptiness flag, and a mesh built on first request and cached. */
module VoxelChunks {
  import opened SeqFacts
  import opened Options
  import opened Coords
  import opened Chunk
  import opened Mesh
  import opened Meshing
  import opened VoxelBase
  import opened VoxelStorage
  import opened VoxelMeshing

  /** The range of Rust's isize; `i as usize` turns its negative values into
      2^64 + i, far beyond any chunk index. */
  predicate IsIsize(i: int)
  {
    -0x8000_0000_0000_0000 <= i < 0x8000_0000_0000_0000
  }

  /** Fills a fresh array by the generation walk and reports whether every
      generated voxel had empty shape. */
  method Fill(a: array<Voxel>, offset: IVec3, gen: Generator) returns (empty: bool)
    requires a.Length == VOXEL_COUNT && a[..] == AllAir()
    modifies a
    ensures a[..] == Writes(offset, gen, VOXEL_COUNT)
    ensures empty == NoneShaped(offset, gen, VOXEL_COUNT)
  {
    empty := true;
    var x := 0;
    ghost var n := 0;
    while x < PADDED_CHUNK_SIZE
      invariant 0 <= x <= PADDED_CHUNK_SIZE && n == 324 * x
      invariant a[..] == Writes(offset, gen, n)
      invariant empty == NoneShaped(offset, gen, n)
    {
      empty, n := FillSlice(a, offset, gen, x, empty, n);
      x := x + 1;
    }
  }

  /** The walk's steps with first coordinate x, from step start on; next is
      the step after them. */
  method FillSlice(a: array<Voxel>, offset: IVec3, gen: Generator, x: int, empty: bool, ghost start: nat)
    returns (empty': bool, ghost next: nat)
    requires a.Length == VOXEL_COUNT && 0 <= x < PADDED_CHUNK_SIZE && start == 324 * x
    requires a[..] == Writes(offset, gen, start) && empty == NoneShaped(offset, gen, start)
    modifies a
    ensures next == start + 324 <= VOXEL_COUNT
    ensures a[..] == Writes(offset, gen, next)
    ensures empty' == NoneShaped(offset, gen, next)
  {
    empty' := empty;
    var y := 0;
    next := start;
    while y < PADDED_CHUNK_SIZE
      invariant 0 <= y <= PADDED_CHUNK_SIZE && next == start + 18 * y
      invariant a[..] == Writes(offset, gen, next)
      invariant empty' == NoneShaped(offset, gen, next)
    {
      empty', next := FillColumn(a, offset, gen, x, y, empty', next);
      y := y + 1;
    }
  }

  /** The walk's steps with first coordinates x and y, from step start on;
      next is the step after them. */
  method FillColumn(a: array<Voxel>, offset: IVec3, gen: Generator, x: int, y: int, empty: bool, ghost start: nat)
    returns (empty': bool, ghost next: nat)
    requires a.Length == VOXEL_COUNT && 0 <= x < PADDED_CHUNK_SIZE && 0 <= y < PADDED_CHUNK_SIZE
    requires start == 324 * x + 18 * y
    requires a[..] == Writes(offset, gen, start) && empty == NoneShaped(offset, gen, start)
    modifies a
    ensures next == start + 18
    ensures a[..] == Writes(offset, gen, next)
    ensures empty' == NoneShaped(offset, gen, next)
  {
    empty' := empty;
    var z := 0;
    next := start;
    while z < PADDED_CHUNK_SIZE
      invariant 0 <= z <= PADDED_CHUNK_SIZE && next == start + z
      invariant a[..] == Writes(offset, gen, next)
      invariant empty' == NoneShaped(offset, gen, next)
    {
      empty', next := WalkVoxel(a, offset, gen, x, y, z, empty', next);
      z := z + 1;
    }
  }

  /** Step start of the walk, at padded position (x, y, z); next is the
      following step. */
  method WalkVoxel(a: array<Voxel>, offset: IVec3, gen: Generator, x: int, y: int, z: int, empty: bool, ghost start: nat)
    returns (empty': bool, ghost next: nat)
    requires a.Length == VOXEL_COUNT && InPadded(IVec3(x, y, z)) && start == PaddedRank(IVec3(x, y, z))
    requires a[..] == Writes(offset, gen, start) && empty == NoneShaped(offset, gen, start)
    modifies a
    ensures next == start + 1
    ensures a[..] == Writes(offset, gen, next)
    ensures empty' == NoneShaped(offset, gen, next)
  {
    ghost var before := a[..];
    empty' := FillVoxel(a, offset, gen, x, y, z, empty);
    StoreStep(offset, gen, IVec3(x, y, z), start, before, a[..], empty, empty');
    next := start + 1;
  }

  /** One step of the walk: generates the voxel of padded position
      (x, y, z), clears the flag if it has a shape, and stores it in the
      position's slot. */
  method FillVoxel(a: array<Voxel>, offset: IVec3, gen: Generator, x: int, y: int, z: int, empty: bool)
    returns (empty': bool)
    requires a.Length == VOXEL_COUNT && InPadded(IVec3(x, y, z))
    modifies a
    ensures a[..] == old(a[..])[Slot(IVec3(x, y, z)) := gen(GeneratedAt(offset, IVec3(x, y, z)))]
    ensures empty' == (empty && gen(GeneratedAt(offset, IVec3(x, y, z))).shape == Empty)
  {
    var currentPos := IVecAdd(ChunkPosToWorldPos(offset), IVec3(x - 1, y - 1, z - 1));
    var currentVoxel := gen(currentPos);
    assert currentPos == GeneratedAt(offset, IVec3(x, y, z));
    empty' := empty;
    if currentVoxel.shape != Empty {
      empty' := false;
    }
    a[Linearize(x, y, z)] := currentVoxel;
  }

  class VoxelChunk {
    var offset: IVec3
    var voxels: array<Voxel>
    var mesh: Option<MeshData>
    var empty: bool

    /** The array has one slot per padded position. */
    ghost predicate Valid()
      reads this
    {
      voxels.Length == VOXEL_COUNT
    }

    /** Generates the chunk at offset: the array as the walk leaves it, no
        mesh yet, and the flag set exactly when no generated voxel had a
        shape. */
    constructor New(offset: IVec3, gen: Generator)
      ensures Valid() && fresh(voxels)
      ensures this.offset == offset && mesh == None
      ensures voxels[..] == Writes(offset, gen, VOXEL_COUNT)
      ensures empty == NoneShaped(offset, gen, VOXEL_COUNT)
      ensures IsEmpty() <==> forall c :: InPadded(c) ==> gen(GeneratedAt(offset, c)).shape == Empty
    {
      var a := new Voxel[VOXEL_COUNT](_ => AIR);
      assert a[..] == AllAir();
      var e := Fill(a, offset, gen);
      this.offset := offset;
      voxels := a;
      mesh := None;
      empty := e;
      NoneShapedExactly(offset, gen, VOXEL_COUNT);
    }

    /** The voxel stored for position (x, y, z); a slot past the array is a
        fatal error in the source. */
    function GetAt(x: nat, y: nat, z: nat): (v: Voxel)
      reads this, voxels
      requires Valid() && Linearize(x, y, z) < VOXEL_COUNT
      ensures x < CHUNK_SIZE && y < CHUNK_SIZE && z < CHUNK_SIZE ==> TryGetAt(x, y, z) == Some(v)
    {
      voxels[Linearize(x, y, z)]
    }

    /** The voxel at (x, y, z) when every coordinate, taken as unsigned, is
        below 16; a negative coordinate wraps to a huge one and fails. */
    function TryGetAt(x: int, y: int, z: int): (r: Option<Voxel>)
      reads this, voxels
      requires Valid() && IsIsize(x) && IsIsize(y) && IsIsize(z)
      ensures r.Some? <==> 0 <= x < CHUNK_SIZE && 0 <= y < CHUNK_SIZE && 0 <= z < CHUNK_SIZE
      ensures r.Some? ==> r.value == voxels[Linearize(x, y, z)]
    {
      var ux, uy, uz := AsUsize(x), AsUsize(y), AsUsize(z);
      if ux < 16 && uy < 16 && uz < 16 then Some(voxels[Linearize(ux, uy, uz)]) else None
    }

    /** The flag New computed; later edits never update it. */
    function IsEmpty(): (b: bool)
      reads this
      ensures b == empty
    {
      empty
    }

    /** Replaces the voxel in one slot. The old voxel's destroy hook does
        nothing for the voxels there are; the emptiness flag and any cached
        mesh stay as they were. */
    method SetAt(x: nat, y: nat, z: nat, newVoxel: Voxel)
      requires Valid() && Linearize(x, y, z) < VOXEL_COUNT
      modifies voxels
      ensures voxels[..] == old(voxels[..])[Linearize(x, y, z) := newVoxel]
      ensures GetAt(x, y, z) == newVoxel
    {
      voxels[Linearize(x, y, z)] := newVoxel;
    }

    /** Replaces the voxel in one slot with air. */
    method DestroyAt(x: nat, y: nat, z: nat)
      requires Valid() && Linearize(x, y, z) < VOXEL_COUNT
      modifies voxels
      ensures voxels[..] == old(voxels[..])[Linearize(x, y, z) := AIR]
      ensures GetAt(x, y, z) == AIR
    {
      SetAt(x, y, z, AIR);
    }

    /** The cached mesh if there is one; otherwise the mesh is built from the
        current voxels and cached. */
    method GetOrCreateMesh() returns (m: MeshData)
      requires Valid()
      modifies this
      ensures old(mesh).Some? ==> m == old(mesh).value
      ensures old(mesh).None? ==> m == VoxelChunkMesh(voxels[..])
      ensures mesh == Some(m)
      ensures offset == old(offset) && voxels == old(voxels) && empty == old(empty)
    {
      if mesh.Some? {
        m := mesh.value;
      } else {
        m := GetMesh();
        mesh := Some(m);
      }
    }

    /** Builds the mesh of the chunk: every interior voxel with geometry,
        every table direction, a quad wherever the neighbour has empty
        shape. */
    method GetMesh() returns (m: MeshData)
      requires Valid()
      ensures m == VoxelChunkMesh(voxels[..])
    {
      ghost var vs := voxels[..];
      ghost var t := VoxelRule(vs);
      ghost var fm := VoxelMeshRule();
      var builder := new VoxelMeshBuilder();
      var x := 1;
      while x < PADDED_CHUNK_SIZE - 1
        invariant 1 <= x <= PADDED_CHUNK_SIZE - 1
        invariant fresh(builder) && VoxelBuilt(builder, fm, WalkFaces(t, 256 * (x - 1)))
      {
        EmitSlice(vs, t, fm, builder, x);
        assert 256 * (x - 1) + 256 == 256 * x;
        x := x + 1;
      }
      m := builder.Data();
      VoxelFacesValidDirs(vs);
      VoxelDecidesFaces(t, vs);
      assert VoxelChunkMesh(vs) == VoxelMeshOf(WalkFaces(t, VOLUME));
    }

    /** The interior cells with first coordinate x. */
    method EmitSlice(ghost vs: seq<Voxel>, ghost t: FaceTest, ghost fm: FacesMesh, builder: VoxelMeshBuilder, x: int)
      requires Valid() && vs == voxels[..] && VoxelDecides(t, vs) && VoxelRenders(fm)
      requires 1 <= x < PADDED_CHUNK_SIZE - 1
      requires VoxelBuilt(builder, fm, WalkFaces(t, 256 * (x - 1)))
      modifies builder
      ensures VoxelBuilt(builder, fm, WalkFaces(t, 256 * x))
    {
      var y := 1;
      while y < PADDED_CHUNK_SIZE - 1
        invariant 1 <= y <= PADDED_CHUNK_SIZE - 1
        invariant VoxelBuilt(builder, fm, WalkFaces(t, 256 * (x - 1) + 16 * (y - 1)))
      {
        EmitColumn(vs, t, fm, builder, x, y);
        assert 256 * (x - 1) + 16 * (y - 1) + 16 == 256 * (x - 1) + 16 * y;
        y := y + 1;
      }
      assert 256 * (x - 1) + 16 * (y - 1) == 256 * x;
    }

    /** The interior cells with first coordinates x and y. */
    method EmitColumn(ghost vs: seq<Voxel>, ghost t: FaceTest, ghost fm: FacesMesh, builder: VoxelMeshBuilder, x: int, y: int)
      requires Valid() && vs == voxels[..] && VoxelDecides(t, vs) && VoxelRenders(fm)
      requires 1 <= x < PADDED_CHUNK_SIZE - 1 && 1 <= y < PADDED_CHUNK_SIZE - 1
      requires VoxelBuilt(builder, fm, WalkFaces(t, 256 * (x - 1) + 16 * (y - 1)))
      modifies builder
      ensures VoxelBuilt(builder, fm, WalkFaces(t, 256 * (x - 1) + 16 * (y - 1) + 16))
    {
      var z := 1;
      while z < PADDED_CHUNK_SIZE - 1
        invariant 1 <= z <= PADDED_CHUNK_SIZE - 1
        invariant VoxelBuilt(builder, fm, WalkFaces(t, 256 * (x - 1) + 16 * (y - 1) + (z - 1)))
      {
        EmitCell(vs, t, fm, builder, IVec3(x - 1, y - 1, z - 1));
        z := z + 1;
      }
    }

    /** The faces of one interior cell, given by its unshifted position o. */
    method EmitCell(ghost vs: seq<Voxel>, ghost t: FaceTest, ghost fm: FacesMesh, builder: VoxelMeshBuilder, o: IVec3)
      requires Valid() && vs == voxels[..] && VoxelDecides(t, vs) && VoxelRenders(fm) && InChunk(o)
      requires VoxelBuilt(builder, fm, WalkFaces(t, Rank(o)))
      modifies builder
      ensures VoxelBuilt(builder, fm, WalkFaces(t, Rank(o) + 1))
    {
      WalkStep(t, o);
      var c := Padded(o);
      if HasNoGeometry(GetAt(c.x, c.y, c.z)) {
        EmptyCellDrawsNothing(t, vs, o);
        assert WalkFaces(t, Rank(o) + 1) == WalkFaces(t, Rank(o));
      } else {
        EmitSolidCell(vs, t, fm, builder, o, WalkFaces(t, Rank(o)));
      }
    }

    /** The faces of an interior cell with geometry, direction by direction. */
    method EmitSolidCell(ghost vs: seq<Voxel>, ghost t: FaceTest, ghost fm: FacesMesh, builder: VoxelMeshBuilder,
                         o: IVec3, ghost before: seq<Face>)
      requires Valid() && vs == voxels[..] && VoxelDecides(t, vs) && VoxelRenders(fm) && InChunk(o)
      requires !HasNoGeometry(vs[Slot(Padded(o))])
      requires VoxelBuilt(builder, fm, before)
      modifies builder
      ensures VoxelBuilt(builder, fm, before + DirFaces(t, o, NEIGHBOR_COUNT))
    {
      assert before + DirFaces(t, o, 0) == before;
      var d := 0;
      while d < NEIGHBOR_COUNT
        invariant 0 <= d <= NEIGHBOR_COUNT
        invariant VoxelBuilt(builder, fm, before + DirFaces(t, o, d))
      {
        EmitFace(vs, t, fm, builder, o, d, before);
        d := d + 1;
      }
    }

    /** The face of an interior cell with geometry toward table direction d,
        added when the neighbour there has empty shape. */
    method EmitFace(ghost vs: seq<Voxel>, ghost t: FaceTest, ghost fm: FacesMesh, builder: VoxelMeshBuilder,
                    o: IVec3, d: int, ghost before: seq<Face>)
      requires Valid() && vs == voxels[..] && VoxelDecides(t, vs) && VoxelRenders(fm) && InChunk(o)
      requires !HasNoGeometry(vs[Slot(Padded(o))]) && 0 <= d < NEIGHBOR_COUNT
      requires VoxelBuilt(builder, fm, before + DirFaces(t, o, d))
      modifies builder
      ensures VoxelBuilt(builder, fm, before + DirFaces(t, o, d + 1))
    {
      var e := VoxelNeighbor(d);
      var c := Padded(o);
      var n := IVecAdd(c, e.offset);
      NeighbourInPadded(o, d);
      var neighbor := GetAt(n.x, n.y, n.z);
      ghost var done := before + DirFaces(t, o, d);
      assert (neighbor.shape == Empty) == VoxelEmits(vs, o, d);
      if neighbor.shape == Empty {
        var f := Face(o, d);
        ConcatAssoc(before, DirFaces(t, o, d), [f]);
        DrawOne(done, f);
        builder.AddFace(e.geometry, e.normals, e.uvs, c);
      } else {
        assert done == before + DirFaces(t, o, d + 1);
      }
    }
  }

  /** The cached mesh does not follow later edits: after a mesh is cached,
      setting a voxel and asking again returns the first mesh. */
  method StaleMeshAfterSetAt(chunk: VoxelChunk, x: nat, y: nat, z: nat, v: Voxel) returns (first: MeshData, second: MeshData)
    requires chunk.Valid() && Linearize(x, y, z) < VOXEL_COUNT
    modifies chunk, chunk.voxels
    ensures first == second
  {
    first := chunk.GetOrCreateMesh();
    chunk.SetAt(x, y, z, v);
    second := chunk.GetOrCreateMesh();
  }
}
