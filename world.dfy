/** The sparse world: a map from chunk position to chunk, with block-level
    reads and writes routed to the owning chunk. */
module WorldAccess {
  import opened Options
  import opened Coords
  import opened Blocks
  import opened Chunk

  /** The cells of every stored chunk, keyed by chunk position. */
  type WorldView = map<ChunkPos, seq<BlockData>>

  predicate ValidView(v: WorldView)
  {
    forall cp :: cp in v ==> |v[cp]| == VOLUME
  }

  /** What a block lookup sees: None when the owning chunk is absent,
      otherwise that chunk's cell at the position's chunk offset. */
  function BlockIn(v: WorldView, p: BlockPos): (r: Option<BlockData>)
    requires ValidView(v)
    ensures r.None? <==> ChunkFromBlock(p) !in v
  {
    var cp := ChunkFromBlock(p);
    if cp in v then Some(v[cp][CellIndex(p)]) else None
  }

  /** Whether a block write succeeds: the chunk exists or the block is solid. */
  predicate SetSucceeds(v: WorldView, p: BlockPos, b: BlockData)
  {
    ChunkFromBlock(p) in v || b.Some?
  }

  /** The cells after a block write: the owning chunk's cell is overwritten,
      a missing chunk is created from air for a solid block, and writing air
      into a missing chunk changes nothing. */
  function SetInView(v: WorldView, p: BlockPos, b: BlockData): (r: WorldView)
    requires ValidView(v)
    ensures ValidView(r)
    ensures r.Keys == if SetSucceeds(v, p, b) then v.Keys + {ChunkFromBlock(p)} else v.Keys
  {
    if ChunkFromBlock(p) in v then v[ChunkFromBlock(p) := v[ChunkFromBlock(p)][CellIndex(p) := b]]
    else if b.Some? then v[ChunkFromBlock(p) := AirCells()[CellIndex(p) := b]]
    else v
  }

  /** A successful write is read back at the same position. */
  lemma SetThenGet(v: WorldView, p: BlockPos, b: BlockData)
    requires ValidView(v)
    ensures SetSucceeds(v, p, b) ==> BlockIn(SetInView(v, p, b), p) == Some(b)
    ensures !SetSucceeds(v, p, b) ==> SetInView(v, p, b) == v && BlockIn(v, p) == None
  {
  }

  /** A write leaves every other chunk alone. */
  lemma SetLeavesOtherChunks(v: WorldView, p: BlockPos, b: BlockData, q: BlockPos)
    requires ValidView(v)
    requires ChunkFromBlock(q) != ChunkFromBlock(p)
    ensures BlockIn(SetInView(v, p, b), q) == BlockIn(v, q)
  {
  }

  /** Among non-negative positions a write changes no other block, except
      that creating a chunk makes its other cells readable as air. */
  lemma SetLeavesOtherBlocks(v: WorldView, p: BlockPos, b: BlockData, q: BlockPos)
    requires ValidView(v)
    requires p.x >= 0 && p.y >= 0 && p.z >= 0 && q.x >= 0 && q.y >= 0 && q.z >= 0
    requires q != p
    ensures || BlockIn(SetInView(v, p, b), q) == BlockIn(v, q)
            || (ChunkFromBlock(p) !in v && ChunkFromBlock(q) == ChunkFromBlock(p)
                && BlockIn(SetInView(v, p, b), q) == Some(None))
  {
    if ChunkFromBlock(q) == ChunkFromBlock(p) {
      if AsChunkOffset(q) == AsChunkOffset(p) {
        ChunkAndOffsetIdentifyNonNegative(p, q);
      }
      CellIndexIdentifiesOffset(p, q);
    }
  }

  /** Without the non-negativity condition the write leaks: x = -1 and x = 15
      address the same cell of chunk (0, 0, 0). */
  lemma SetAliasesAcrossZero(v: WorldView, b: BlockData)
    requires ValidView(v)
    requires SetSucceeds(v, BlockPos(-1, 0, 0), b)
    ensures BlockIn(SetInView(v, BlockPos(-1, 0, 0), b), BlockPos(15, 0, 0)) == Some(b)
  {
    NegativeAliasesPositive();
    CellIndexIdentifiesOffset(BlockPos(-1, 0, 0), BlockPos(15, 0, 0));
  }

  /** The world resource: chunk data by chunk position. */
  class ExcavateManufacturateWorld {
    var chunks: map<ChunkPos, ChunkData>
    /** The cells of the stored chunks, by chunk position. */
    ghost var cells: WorldView

    /** Every chunk is well formed and holds the cells recorded for it, and no
        two positions share one chunk. */
    ghost predicate Valid()
      reads this, chunks.Values
    {
      && chunks.Keys == cells.Keys
      && (forall cp :: cp in chunks ==> chunks[cp].Valid() && chunks[cp].blocks == cells[cp])
      && (forall a, b :: a in chunks && b in chunks && a != b ==> chunks[a] != chunks[b])
    }

    lemma ValidCells()
      requires Valid()
      ensures ValidView(cells)
    {
    }

    constructor ()
      ensures Valid()
      ensures chunks == map[] && cells == map[]
      ensures TotalChunkCount() == 0
    {
      chunks := map[];
      cells := map[];
    }

    function GetChunk(cp: ChunkPos): (r: Option<ChunkData>)
      reads this
      ensures r.Some? <==> cp in chunks
      ensures r.Some? ==> r.value == chunks[cp]
    {
      if cp in chunks then Some(chunks[cp]) else None
    }

    /** Stores a chunk, handing back the one it replaces. */
    method InsertChunk(cp: ChunkPos, c: ChunkData) returns (prev: Option<ChunkData>)
      requires Valid() && c.Valid()
      requires forall k :: k in chunks ==> chunks[k] != c
      modifies this
      ensures Valid()
      ensures chunks == old(chunks)[cp := c]
      ensures cells == old(cells)[cp := c.blocks]
      ensures prev == old(GetChunk(cp))
      ensures ChunkExists(cp)
      ensures TotalChunkCount() == old(TotalChunkCount()) + (if prev.None? then 1 else 0)
    {
      prev := GetChunk(cp);
      chunks := chunks[cp := c];
      cells := cells[cp := c.blocks];
    }

    predicate ChunkExists(cp: ChunkPos): (b: bool)
      reads this
      ensures b <==> GetChunk(cp).Some?
    {
      cp in chunks
    }

    function TotalChunkCount(): (n: nat)
      reads this
      ensures n == 0 <==> forall cp :: !ChunkExists(cp)
    {
      assert forall cp :: cp in chunks ==> ChunkExists(cp);
      assert (forall cp :: !ChunkExists(cp)) ==> chunks.Keys == {};
      assert |chunks| == |chunks.Keys|;
      |chunks|
    }

    /** The block at a world position, or None when its chunk is absent. */
    function GetBlock(p: BlockPos): (r: Option<BlockData>)
      requires Valid()
      reads this, chunks.Values
      ensures r.None? <==> !ChunkExists(ChunkFromBlock(p))
      ensures r.Some? ==> r.value == chunks[ChunkFromBlock(p)].Get(p)
      ensures ValidView(cells) && r == BlockIn(cells, p)
    {
      match GetChunk(ChunkFromBlock(p))
      case Some(c) => Some(c.Get(p))
      case None => None
    }

    /** Writes a block, creating its chunk when a solid block lands in a
        missing one; reports whether anything was written. */
    method SetBlock(p: BlockPos, b: BlockData) returns (ok: bool)
      requires Valid()
      modifies this, chunks.Values
      ensures Valid()
      ensures ValidView(old(cells))
      ensures ok == SetSucceeds(old(cells), p, b)
      ensures cells == SetInView(old(cells), p, b)
      ensures ok ==> GetBlock(p) == Some(b)
      ensures !ok ==> chunks == old(chunks)
      ensures forall cp :: cp in old(chunks) ==> cp in chunks && chunks[cp] == old(chunks[cp])
    {
      SetThenGet(cells, p, b);
      var existing := GetChunk(ChunkFromBlock(p));
      if existing.Some? {
        WriteStoredChunk(existing.value, p, b);
        ok := true;
      } else if b.Some? {
        InsertChunkHolding(p, b);
        ok := true;
      } else {
        ok := false;
      }
    }

    /** The write into a stored chunk; the other chunks are distinct objects
        and keep their cells. */
    method WriteStoredChunk(c: ChunkData, p: BlockPos, b: BlockData)
      requires Valid()
      requires ChunkFromBlock(p) in chunks && chunks[ChunkFromBlock(p)] == c
      modifies this, c
      ensures Valid()
      ensures chunks == old(chunks)
      ensures cells == old(cells)[ChunkFromBlock(p) := old(cells)[ChunkFromBlock(p)][CellIndex(p) := b]]
    {
      assert forall k :: k in chunks && k != ChunkFromBlock(p) ==> chunks[k] != c;
      c.Set(p, b);
      cells := cells[ChunkFromBlock(p) := c.blocks];
    }

    /** A fresh chunk of air holding just one written block, stored at the
        block's chunk position. */
    method InsertChunkHolding(p: BlockPos, b: BlockData)
      requires Valid()
      requires ChunkFromBlock(p) !in chunks
      modifies this
      ensures Valid()
      ensures cells == old(cells)[ChunkFromBlock(p) := AirCells()[CellIndex(p) := b]]
      ensures chunks.Keys == old(chunks.Keys) + {ChunkFromBlock(p)}
      ensures forall k :: k in old(chunks) ==> chunks[k] == old(chunks[k])
    {
      var c := new ChunkData.Empty();
      c.Set(p, b);
      var _ := InsertChunk(ChunkFromBlock(p), c);
    }

    /** The ray-cast hit test: a solid block is stored at the cell. */
    function HitEvaluator(pos: IVec3): (hit: bool)
      requires Valid()
      reads this, chunks.Values
      ensures hit <==> ChunkExists(ChunkFromBlock(BlockFromIVec(pos))) && GetBlock(BlockFromIVec(pos)).value.Some?
    {
      match GetBlock(BlockFromIVec(pos))
      case Some(Some(_)) => true
      case _ => false
    }
  }
}
