/** Integer positions of the voxel world: world-space block positions, chunk
    positions and the conversions between them, with the chunk size of the
    current design. */
module Coords {

  /** Side length of a chunk, in blocks. Products, quotients and remainders
      by the chunk size are written with the literal 16 (and 256 for its
      square) so that they stay linear arithmetic for the verifier. */
  const CHUNK_SIZE: int := 16
  /** A chunk with a one-block border on every side. */
  const CHUNK_SIZE_PADDED: int := CHUNK_SIZE + 2

  /** glam's integer 3-vector. */
  datatype IVec3 = IVec3(x: int, y: int, z: int)

  /** glam's componentwise `a + b` on integer vectors. */
  function IVecAdd(a: IVec3, b: IVec3): (r: IVec3)
    ensures r.x - b.x == a.x && r.y - b.y == a.y && r.z - b.z == a.z
  {
    IVec3(a.x + b.x, a.y + b.y, a.z + b.z)
  }

  /** One voxel in world space. */
  datatype BlockPos = BlockPos(x: int, y: int, z: int)

  /** One chunk; the chunk's origin block is 16 times this. */
  datatype ChunkPos = ChunkPos(x: int, y: int, z: int)

  /** A chunk position relative to the player's chunk. */
  datatype LocalChunkPos = LocalChunkPos(pos: ChunkPos)

  // ---------------------------------------------------------------------
  // Integer division as the source performs it

  /** q is a by-16 quotient of a rounded toward zero (Rust's `/` on i32). */
  ghost predicate TruncatedQuotient(a: int, q: int)
  {
    && (a >= 0 ==> 16 * q <= a < 16 * q + CHUNK_SIZE)
    && (a < 0 ==> 16 * q - CHUNK_SIZE < a <= 16 * q)
  }

  /** Rust's `a / 16` on i32: truncates toward zero. */
  function DivChunk(a: int): (q: int)
    ensures TruncatedQuotient(a, q)
  {
    if a >= 0 then a / 16 else -((-a) / 16)
  }

  /** Rust's `a.rem_euclid(16)`: never negative. */
  function RemChunk(a: int): (r: int)
    ensures 0 <= r < CHUNK_SIZE
    ensures (a - r) % 16 == 0
  {
    a % 16
  }

  /** Rust's wrapping i32 arithmetic: an integer result reduced to the low
      32 bits, read as two's complement. */
  function WrapI32(n: int): (r: int)
    ensures -0x8000_0000 <= r < 0x8000_0000
    ensures -0x8000_0000 <= n < 0x8000_0000 ==> r == n
    ensures (n - r) % 0x1_0000_0000 == 0
  {
    var low := n % 0x1_0000_0000;
    if low < 0x8000_0000 then low else low - 0x1_0000_0000
  }

  /** Rust's `n as i32` for a usize n: keeps the low 32 bits as a two's
      complement number. */
  function AsI32(n: nat): (r: int)
    ensures -0x8000_0000 <= r < 0x8000_0000
    ensures n < 0x8000_0000 ==> r == n
    ensures (n - r) % 0x1_0000_0000 == 0
  {
    WrapI32(n)
  }

  /** `-n` on an i32 as a release build computes it: i32::MIN, whose
      negation is not an i32, wraps back to itself. */
  function NegI32(n: int): (r: int)
    ensures -0x8000_0000 <= n < 0x8000_0000 ==> r == WrapI32(-n)
    ensures -0x8000_0000 < n ==> r == -n
  {
    if n == -0x8000_0000 then n else -n
  }

  /** `n.abs()` on an i32 as a release build computes it: i32::MIN, whose
      absolute value is not an i32, is returned unchanged. */
  function AbsI32(n: int): (r: int)
    ensures -0x8000_0000 <= n < 0x8000_0000 ==> r == WrapI32(Abs(n))
    ensures r < 0 <==> n == -0x8000_0000
    ensures -0x8000_0000 < n ==> r == Abs(n)
  {
    if n == -0x8000_0000 then n else Abs(n)
  }

  // ---------------------------------------------------------------------
  // BlockPos

  /** The position of a block inside its chunk, by Euclidean remainder. */
  function AsChunkOffset(p: BlockPos): (r: BlockPos)
    ensures 0 <= r.x < CHUNK_SIZE && 0 <= r.y < CHUNK_SIZE && 0 <= r.z < CHUNK_SIZE
    ensures (p.x - r.x) % 16 == 0 && (p.y - r.y) % 16 == 0 && (p.z - r.z) % 16 == 0
  {
    BlockPos(RemChunk(p.x), RemChunk(p.y), RemChunk(p.z))
  }

  /** glam's `v.cmpeq(IVec3::splat(k)).any()`. */
  predicate AnyComponentIs(v: BlockPos, k: int)
  {
    v.x == k || v.y == k || v.z == k
  }

  /** Whether the block lies in the outer layer of its chunk. */
  predicate IsOnChunkBorder(p: BlockPos): (b: bool)
    ensures b <==> p.x % 16 in {0, 15} || p.y % 16 in {0, 15} || p.z % 16 in {0, 15}
  {
    AnyComponentIs(AsChunkOffset(p), 0) || AnyComponentIs(AsChunkOffset(p), CHUNK_SIZE - 1)
  }

  /** The neighbour across the chunk border along one axis, for an offset
      component k of that axis: the next chunk at 15, the previous at 0. */
  function BorderNeighbours(c: ChunkPos, k: int, unit: ChunkPos): seq<ChunkPos>
  {
    if k == CHUNK_SIZE - 1 then [ChunkAdd(c, unit)]
    else if k == 0 then [ChunkSub(c, unit)]
    else []
  }

  /** The chunk that holds the block, then every chunk across a face the block
      touches, in the order +x, -x, +y, -y, +z, -z. */
  function Touched(p: BlockPos): seq<ChunkPos>
  {
    var c := ChunkFromBlock(p);
    var o := AsChunkOffset(p);
    [c] + BorderNeighbours(c, o.x, ChunkPos(1, 0, 0)) + BorderNeighbours(c, o.y, ChunkPos(0, 1, 0))
        + BorderNeighbours(c, o.z, ChunkPos(0, 0, 1))
  }

  lemma TouchedShape(p: BlockPos)
    ensures var ps := Touched(p);
      && 1 <= |ps| <= 4
      && ps[0] == ChunkFromBlock(p)
      && (|ps| == 1 <==> !IsOnChunkBorder(p))
      && (forall q :: q in ps ==> AxisDistance(ps[0], q) <= 1)
  {
    var c := ChunkFromBlock(p);
    var o := AsChunkOffset(p);
    BorderNeighboursFacts(c, o.x, ChunkPos(1, 0, 0));
    BorderNeighboursFacts(c, o.y, ChunkPos(0, 1, 0));
    BorderNeighboursFacts(c, o.z, ChunkPos(0, 0, 1));
  }

  lemma TouchedDistinct(p: BlockPos)
    ensures var ps := Touched(p);
      forall i, j :: 0 <= i < j < |ps| ==> ps[i] != ps[j]
  {
    var c := ChunkFromBlock(p);
    var o := AsChunkOffset(p);
    BorderNeighboursFacts(c, o.x, ChunkPos(1, 0, 0));
    BorderNeighboursFacts(c, o.y, ChunkPos(0, 1, 0));
    BorderNeighboursFacts(c, o.z, ChunkPos(0, 0, 1));
  }

  lemma TouchedNeighbours(p: BlockPos)
    ensures var ps := Touched(p);
      && (ChunkAdd(ps[0], ChunkPos(1, 0, 0)) in ps <==> AsChunkOffset(p).x == CHUNK_SIZE - 1)
      && (ChunkSub(ps[0], ChunkPos(1, 0, 0)) in ps <==> AsChunkOffset(p).x == 0)
      && (ChunkAdd(ps[0], ChunkPos(0, 1, 0)) in ps <==> AsChunkOffset(p).y == CHUNK_SIZE - 1)
      && (ChunkSub(ps[0], ChunkPos(0, 1, 0)) in ps <==> AsChunkOffset(p).y == 0)
      && (ChunkAdd(ps[0], ChunkPos(0, 0, 1)) in ps <==> AsChunkOffset(p).z == CHUNK_SIZE - 1)
      && (ChunkSub(ps[0], ChunkPos(0, 0, 1)) in ps <==> AsChunkOffset(p).z == 0)
  {
    var c := ChunkFromBlock(p);
    var o := AsChunkOffset(p);
    BorderNeighboursFacts(c, o.x, ChunkPos(1, 0, 0));
    BorderNeighboursFacts(c, o.y, ChunkPos(0, 1, 0));
    BorderNeighboursFacts(c, o.z, ChunkPos(0, 0, 1));
  }

  lemma BorderNeighboursFacts(c: ChunkPos, k: int, unit: ChunkPos)
    requires 0 <= k < CHUNK_SIZE
    requires unit == ChunkPos(1, 0, 0) || unit == ChunkPos(0, 1, 0) || unit == ChunkPos(0, 0, 1)
    ensures var r := BorderNeighbours(c, k, unit);
      && (r == [] || r == [ChunkAdd(c, unit)] || r == [ChunkSub(c, unit)])
      && (r == [ChunkAdd(c, unit)] <==> k == CHUNK_SIZE - 1)
      && (r == [ChunkSub(c, unit)] <==> k == 0)
  {
  }

  method GetTouchedChunkPositions(p: BlockPos) returns (ps: seq<ChunkPos>)
    ensures 1 <= |ps| <= 4
    ensures ps[0] == ChunkFromBlock(p)
    ensures |ps| == 1 <==> !IsOnChunkBorder(p)
    ensures forall i, j :: 0 <= i < j < |ps| ==> ps[i] != ps[j]
    ensures ChunkAdd(ps[0], ChunkPos(1, 0, 0)) in ps <==> AsChunkOffset(p).x == CHUNK_SIZE - 1
    ensures ChunkSub(ps[0], ChunkPos(1, 0, 0)) in ps <==> AsChunkOffset(p).x == 0
    ensures ChunkAdd(ps[0], ChunkPos(0, 1, 0)) in ps <==> AsChunkOffset(p).y == CHUNK_SIZE - 1
    ensures ChunkSub(ps[0], ChunkPos(0, 1, 0)) in ps <==> AsChunkOffset(p).y == 0
    ensures ChunkAdd(ps[0], ChunkPos(0, 0, 1)) in ps <==> AsChunkOffset(p).z == CHUNK_SIZE - 1
    ensures ChunkSub(ps[0], ChunkPos(0, 0, 1)) in ps <==> AsChunkOffset(p).z == 0
    ensures forall q :: q in ps ==> AxisDistance(ps[0], q) <= 1
    ensures ps == Touched(p)
  {
    var c := ChunkFromBlock(p);
    var o := AsChunkOffset(p);
    ps := [c];
    if o.x == CHUNK_SIZE - 1 {
      ps := ps + [ChunkAdd(c, ChunkPos(1, 0, 0))];
    }
    if o.x == 0 {
      ps := ps + [ChunkSub(c, ChunkPos(1, 0, 0))];
    }
    ghost var xs := ps;
    if o.y == CHUNK_SIZE - 1 {
      ps := ps + [ChunkAdd(c, ChunkPos(0, 1, 0))];
    }
    if o.y == 0 {
      ps := ps + [ChunkSub(c, ChunkPos(0, 1, 0))];
    }
    ghost var ys := ps;
    if o.z == CHUNK_SIZE - 1 {
      ps := ps + [ChunkAdd(c, ChunkPos(0, 0, 1))];
    }
    if o.z == 0 {
      ps := ps + [ChunkSub(c, ChunkPos(0, 0, 1))];
    }
    assert xs == [c] + BorderNeighbours(c, o.x, ChunkPos(1, 0, 0));
    assert ys == xs + BorderNeighbours(c, o.y, ChunkPos(0, 1, 0));
    assert ps == ys + BorderNeighbours(c, o.z, ChunkPos(0, 0, 1));
    TouchedShape(p);
    TouchedDistinct(p);
    TouchedNeighbours(p);
  }

  /** Sum of the absolute component differences of two chunk positions. */
  function AxisDistance(a: ChunkPos, b: ChunkPos): nat
  {
    Abs(a.x - b.x) + Abs(a.y - b.y) + Abs(a.z - b.z)
  }

  function Abs(a: int): nat
  {
    if a < 0 then -a else a
  }

  /** `BlockPos::from(IVec3)` wraps the vector unchanged. */
  function BlockFromIVec(v: IVec3): (p: BlockPos)
    ensures BlockInner(p) == v
  {
    BlockPos(v.x, v.y, v.z)
  }

  /** `BlockPos::inner`: the components the position was made from. */
  function BlockInner(p: BlockPos): (v: IVec3)
    ensures v.x == p.x && v.y == p.y && v.z == p.z
  {
    IVec3(p.x, p.y, p.z)
  }

  /** The origin block of a chunk. */
  function BlockFromChunk(c: ChunkPos): (p: BlockPos)
    ensures AsChunkOffset(p) == BlockPos(0, 0, 0)
    ensures p.x == 16 * c.x && p.y == 16 * c.y && p.z == 16 * c.z
  {
    BlockPos(c.x * 16, c.y * 16, c.z * 16)
  }

  /** `BlockPos + BlockPos`, componentwise. */
  function BlockAdd(p: BlockPos, q: BlockPos): (r: BlockPos)
    ensures r.x - q.x == p.x && r.y - q.y == p.y && r.z - q.z == p.z
  {
    BlockPos(p.x + q.x, p.y + q.y, p.z + q.z)
  }

  /** `BlockPos - BlockPos`, componentwise. */
  function BlockSub(p: BlockPos, q: BlockPos): (r: BlockPos)
    ensures r.x + q.x == p.x && r.y + q.y == p.y && r.z + q.z == p.z
  {
    BlockPos(p.x - q.x, p.y - q.y, p.z - q.z)
  }

  // ---------------------------------------------------------------------
  // ChunkPos

  /** `ChunkPos::from(BlockPos)`: each component divided by 16, rounded
      toward zero. */
  function ChunkFromBlock(p: BlockPos): (c: ChunkPos)
    ensures TruncatedQuotient(p.x, c.x) && TruncatedQuotient(p.y, c.y) && TruncatedQuotient(p.z, c.z)
  {
    ChunkPos(DivChunk(p.x), DivChunk(p.y), DivChunk(p.z))
  }

  function ChunkInner(c: ChunkPos): (v: IVec3)
    ensures v.x == c.x && v.y == c.y && v.z == c.z
  {
    IVec3(c.x, c.y, c.z)
  }

  /** `ChunkPos + ChunkPos`, componentwise. */
  function ChunkAdd(a: ChunkPos, b: ChunkPos): (r: ChunkPos)
    ensures r.x - b.x == a.x && r.y - b.y == a.y && r.z - b.z == a.z
  {
    ChunkPos(a.x + b.x, a.y + b.y, a.z + b.z)
  }

  /** `ChunkPos - ChunkPos`, componentwise. */
  function ChunkSub(a: ChunkPos, b: ChunkPos): (r: ChunkPos)
    ensures r.x + b.x == a.x && r.y + b.y == a.y && r.z + b.z == a.z
  {
    ChunkPos(a.x - b.x, a.y - b.y, a.z - b.z)
  }

  /** glam's `distance_squared` between two chunk positions. */
  function DistanceSquared(a: ChunkPos, b: ChunkPos): (d: nat)
    ensures d == 0 <==> a.x == b.x && a.y == b.y && a.z == b.z
  {
    var dx, dy, dz := a.x - b.x, a.y - b.y, a.z - b.z;
    assert dx * dx >= 0 && dy * dy >= 0 && dz * dz >= 0;
    assert dx != 0 ==> dx * dx > 0;
    assert dy != 0 ==> dy * dy > 0;
    assert dz != 0 ==> dz * dz > 0;
    dx * dx + dy * dy + dz * dz
  }

  /** `LocalChunkPos::from`: the chunk position seen from the player's chunk. */
  function LocalFrom(chunkPosWorld: ChunkPos, playerChunkPos: ChunkPos): (l: LocalChunkPos)
    ensures ChunkAdd(l.pos, playerChunkPos) == chunkPosWorld
  {
    LocalChunkPos(ChunkSub(chunkPosWorld, playerChunkPos))
  }

  // ---------------------------------------------------------------------
  // Properties

  lemma AsChunkOffsetIdempotent(p: BlockPos)
    ensures AsChunkOffset(AsChunkOffset(p)) == AsChunkOffset(p)
  {
  }

  lemma AsChunkOffsetWrapsNegative()
    ensures AsChunkOffset(BlockPos(-1, 0, 0)) == BlockPos(15, 0, 0)
  {
  }

  lemma ChunkFromBlockTruncates()
    ensures ChunkFromBlock(BlockPos(-1, 0, 0)) == ChunkPos(0, 0, 0)
    ensures ChunkFromBlock(BlockPos(-17, 0, 0)) == ChunkPos(-1, 0, 0)
  {
  }

  /** The chunk origin of a chunk lies in that chunk, for negative chunks too. */
  lemma ChunkOfChunkOrigin(c: ChunkPos)
    ensures ChunkFromBlock(BlockFromChunk(c)) == c
  {
    DivChunkOfMultiple(c.x);
    DivChunkOfMultiple(c.y);
    DivChunkOfMultiple(c.z);
  }

  lemma DivChunkOfMultiple(k: int)
    ensures DivChunk(16 * k) == k
  {
  }

  /** One component of the reconstruction `origin + offset == p`: it holds
      exactly when the component is non-negative or a multiple of 16. */
  lemma ReconstructComponent(a: int)
    ensures 16 * DivChunk(a) + RemChunk(a) == a <==> (a >= 0 || a % 16 == 0)
  {
    if a < 0 {
      var b := -a;
      var q, r := b / 16, b % 16;
      assert b == 16 * q + r;
      assert DivChunk(a) == -q;
      if r == 0 {
        assert a == 16 * (-q);
        assert a % 16 == 0;
      } else {
        assert a == 16 * (-q - 1) + (CHUNK_SIZE - r);
        assert RemChunk(a) == CHUNK_SIZE - r;
        assert a % 16 != 0;
      }
    }
  }

  /** Recombining a block position from its chunk's origin and its chunk offset
      gives it back exactly when every component is non-negative or a multiple
      of 16: truncating chunk division and Euclidean offsets disagree below 0. */
  lemma ReconstructBlockPos(p: BlockPos)
    ensures (BlockAdd(BlockFromChunk(ChunkFromBlock(p)), AsChunkOffset(p)) == p) ==
            ((p.x >= 0 || p.x % 16 == 0) && (p.y >= 0 || p.y % 16 == 0) && (p.z >= 0 || p.z % 16 == 0))
  {
    ReconstructComponent(p.x);
    ReconstructComponent(p.y);
    ReconstructComponent(p.z);
  }

  lemma ReconstructNonNegative(p: BlockPos)
    requires p.x >= 0 && p.y >= 0 && p.z >= 0
    ensures BlockAdd(BlockFromChunk(ChunkFromBlock(p)), AsChunkOffset(p)) == p
  {
    ReconstructBlockPos(p);
  }

  lemma ReconstructFailsBelowZero()
    ensures BlockAdd(BlockFromChunk(ChunkFromBlock(BlockPos(-1, 0, 0))), AsChunkOffset(BlockPos(-1, 0, 0)))
         == BlockPos(15, 0, 0)
  {
    assert DivChunk(-1) == 0 && RemChunk(-1) == 15;
    assert DivChunk(0) == 0 && RemChunk(0) == 0;
  }

  /** For non-negative positions, the chunk and the offset together identify
      the block. */
  lemma ChunkAndOffsetIdentifyNonNegative(p: BlockPos, q: BlockPos)
    requires p.x >= 0 && p.y >= 0 && p.z >= 0
    requires q.x >= 0 && q.y >= 0 && q.z >= 0
    requires ChunkFromBlock(p) == ChunkFromBlock(q) && AsChunkOffset(p) == AsChunkOffset(q)
    ensures p == q
  {
    ReconstructNonNegative(p);
    ReconstructNonNegative(q);
  }

  /** x = -1 and x = 15 share chunk 0 and offset 15. */
  lemma NegativeAliasesPositive()
    ensures ChunkFromBlock(BlockPos(-1, 0, 0)) == ChunkFromBlock(BlockPos(15, 0, 0))
    ensures AsChunkOffset(BlockPos(-1, 0, 0)) == AsChunkOffset(BlockPos(15, 0, 0))
  {
  }

  lemma BlockAddSubCancel(p: BlockPos, q: BlockPos)
    ensures BlockSub(BlockAdd(p, q), q) == p
  {
  }

  lemma ChunkAddSubCancel(a: ChunkPos, b: ChunkPos)
    ensures ChunkSub(ChunkAdd(a, b), b) == a
  {
  }

  lemma LocalOfPlayerIsZero(pl: ChunkPos)
    ensures LocalFrom(pl, pl).pos == ChunkPos(0, 0, 0)
  {
  }
}
