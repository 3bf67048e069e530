/** The render distance: how many chunks around the player's chunk are
    generated and shown. */
module RenderDistances {
  import opened Coords

  const INITIAL_RENDER_DISTANCE: nat := 8

  class RenderDistance {
    /** The stored usize. */
    var distance: nat

    constructor (chunks: nat)
      ensures distance == chunks
    {
      distance := chunks;
    }

    method SetTo(newRenderDistance: nat)
      modifies this
      ensures distance == newRenderDistance
      ensures newRenderDistance < 0x8000_0000 ==> Chunks() == newRenderDistance
    {
      distance := newRenderDistance;
    }

    /** The distance in chunks, as an i32. */
    function Chunks(): (r: int)
      reads this
      ensures -0x8000_0000 <= r < 0x8000_0000
      ensures distance < 0x8000_0000 ==> r == distance
      ensures r <= distance
    {
      AsI32(distance)
    }

    /** The distance in blocks: the i32 product of the distance in chunks
        and 16, which wraps once the distance reaches 2^27. */
    function Blocks(): (r: int)
      reads this
      ensures -0x8000_0000 <= r < 0x8000_0000
      ensures distance < 0x800_0000 ==> r == distance * 16
      ensures (Chunks() * 16 - r) % 0x1_0000_0000 == 0
    {
      WrapI32(Chunks() * 16)
    }

    /** Whether a chunk position, relative to the player's chunk, lies within
        the cube of chunks around it. The absolute values are i32 ones, so a
        component equal to i32::MIN passes at every distance. */
    predicate Contains(pos: LocalChunkPos): (b: bool)
      reads this
      ensures distance < 0x8000_0000 ==> (b <==>
        && (pos.pos.x == -0x8000_0000 || -(distance as int) <= pos.pos.x <= distance)
        && (pos.pos.y == -0x8000_0000 || -(distance as int) <= pos.pos.y <= distance)
        && (pos.pos.z == -0x8000_0000 || -(distance as int) <= pos.pos.z <= distance))
      ensures Chunks() < 0 ==> (b <==>
        pos.pos.x == -0x8000_0000 && pos.pos.y == -0x8000_0000 && pos.pos.z == -0x8000_0000)
    {
      AbsI32(pos.pos.x) <= Chunks() && AbsI32(pos.pos.y) <= Chunks() && AbsI32(pos.pos.z) <= Chunks()
    }
  }

  /** The render distance resource as set up at start-up. */
  method SetupRenderDistance() returns (rd: RenderDistance)
    ensures fresh(rd)
    ensures rd.Chunks() == 8 && rd.Blocks() == 128
  {
    rd := new RenderDistance(INITIAL_RENDER_DISTANCE);
  }

  /** The player's own chunk is shown at every representable distance. */
  lemma ContainsOrigin(rd: RenderDistance)
    requires rd.distance < 0x8000_0000
    ensures rd.Contains(LocalChunkPos(ChunkPos(0, 0, 0)))
  {
  }

  /** Containment is blind to sign: negating an i32 position (i32::MIN
      wraps to itself) keeps it in or out. */
  lemma ContainsSymmetric(rd: RenderDistance, p: ChunkPos)
    requires -0x8000_0000 <= p.x < 0x8000_0000 && -0x8000_0000 <= p.y < 0x8000_0000 && -0x8000_0000 <= p.z < 0x8000_0000
    ensures rd.Contains(LocalChunkPos(p)) <==> rd.Contains(LocalChunkPos(ChunkPos(NegI32(p.x), NegI32(p.y), NegI32(p.z))))
  {
  }

  /** A larger (representable) distance shows every chunk a smaller one shows. */
  lemma ContainsMonotone(small: RenderDistance, large: RenderDistance, p: LocalChunkPos)
    requires small.distance <= large.distance < 0x8000_0000
    requires small.Contains(p)
    ensures large.Contains(p)
  {
  }

  /** From 2^27 chunks on, the distance in blocks no longer fits in i32: at
      exactly 2^27 the product wraps to i32's minimum. */
  lemma BlocksWrapPast2To27(rd: RenderDistance)
    requires rd.distance == 0x800_0000
    ensures rd.Blocks() == -0x8000_0000
  {
    assert rd.Chunks() * 16 == 0x8000_0000;
  }

  /** From 2^31 to 2^32 chunks the usize-to-i32 cast is negative, and only
      the corner whose components are all i32::MIN is still contained: its
      absolute values wrap to i32::MIN, which no i32 undercuts. */
  lemma ContainsOnlyMinCornerPastI32(rd: RenderDistance, p: LocalChunkPos)
    requires 0x8000_0000 <= rd.distance < 0x1_0000_0000
    ensures rd.Contains(p) <==> p.pos == ChunkPos(-0x8000_0000, -0x8000_0000, -0x8000_0000)
  {
    assert rd.Chunks() == rd.distance - 0x1_0000_0000;
  }

  /** At any distance that is an i32, a position with an i32::MIN component
      passes that component's test: `contains` is not the cube it bounds. */
  lemma ContainsMinComponent(rd: RenderDistance)
    requires rd.distance < 0x8000_0000
    ensures rd.Contains(LocalChunkPos(ChunkPos(-0x8000_0000, 0, 0)))
  {
  }
}
