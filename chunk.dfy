/** Dense storage of one 16x16x16 chunk, with a count of its solid cells. */
module Chunk {
  import opened Options
  import opened Coords
  import opened Blocks

  /** Number of cells in a chunk, CHUNK_SIZE cubed. */
  const VOLUME: int := 4096

  const USIZE_MODULUS: int := 0x1_0000_0000_0000_0000

  /** Rust's `v as usize` for an i32 v: sign extension, read as unsigned. */
  function AsUsize(v: int): (r: nat)
    ensures r < USIZE_MODULUS
    ensures 0 <= v < USIZE_MODULUS ==> r == v
    ensures -0x8000_0000_0000_0000 <= v < 0 ==> r == v + USIZE_MODULUS
  {
    v % USIZE_MODULUS
  }

  /** The cells of a chunk of air. */
  function AirCells(): (s: seq<BlockData>)
    ensures |s| == VOLUME && forall i :: 0 <= i < VOLUME ==> s[i].None?
  {
    seq(VOLUME, _ => None)
  }

  /** An offset with every component in [0, 16). */
  predicate InChunk(o: IVec3)
  {
    0 <= o.x < CHUNK_SIZE && 0 <= o.y < CHUNK_SIZE && 0 <= o.z < CHUNK_SIZE
  }

  /** The cell index of an offset, x fastest; the usize arithmetic wraps as
      in a release build, which comes to one reduction of the linear index
      (IndexifyWrapsEachStep). */
  function Indexify(o: IVec3): (i: nat)
    ensures i < USIZE_MODULUS
    ensures InChunk(o) ==> i == o.x + 16 * o.y + 256 * o.z < VOLUME
  {
    AsUsize(o.x + 16 * o.y + 256 * o.z)
  }

  /** Indexify agrees with casting each component to usize and wrapping
      after every product and sum, as the source's expression does. */
  lemma IndexifyWrapsEachStep(o: IVec3)
    ensures Indexify(o)
         == AsUsize(AsUsize(AsUsize(AsUsize(AsUsize(o.z) * 16) * 16) + AsUsize(AsUsize(o.y) * 16)) + AsUsize(o.x))
  {
    var zz := AsUsize(AsUsize(AsUsize(o.z) * 16) * 16);
    UsizeScale(AsUsize(o.z) * 16, 16);
    UsizeScale(o.z, 256);
    assert zz == AsUsize(256 * o.z);
    UsizeScale(o.y, 16);
    UsizeSum3(zz, AsUsize(AsUsize(o.y) * 16), AsUsize(o.x), 256 * o.z, 16 * o.y, o.x);
  }

  /** Wrapping a factor before scaling it does not change the wrapped
      product. */
  lemma UsizeScale(v: int, c: nat)
    ensures AsUsize(AsUsize(v) * c) == AsUsize(c * v)
  {
    var q := v / USIZE_MODULUS;
    var r := v % USIZE_MODULUS;
    assert v == q * USIZE_MODULUS + r;
    assert c * v == (q * c) * USIZE_MODULUS + r * c;
    UsizeShift(r * c, q * c);
  }

  lemma UsizeShift(a: int, k: int)
    ensures (k * USIZE_MODULUS + a) % USIZE_MODULUS == a % USIZE_MODULUS
  {
  }

  /** Wrapped summands add up to the wrapped sum. */
  lemma UsizeSum3(ra: int, rb: int, rc: int, a: int, b: int, c: int)
    requires AsUsize(ra) == AsUsize(a) && AsUsize(rb) == AsUsize(b) && AsUsize(rc) == AsUsize(c)
    ensures AsUsize(AsUsize(ra + rb) + rc) == AsUsize(a + b + c)
  {
    UsizeAdd(ra, rb, a, b);
    UsizeAdd(AsUsize(ra + rb), rc, a + b, c);
  }

  lemma UsizeAdd(ra: int, rb: int, a: int, b: int)
    requires AsUsize(ra) == AsUsize(a) && AsUsize(rb) == AsUsize(b)
    ensures AsUsize(ra + rb) == AsUsize(a + b)
  {
    var x, y := AsUsize(a), AsUsize(b);
    assert ra == (ra / USIZE_MODULUS) * USIZE_MODULUS + x;
    assert rb == (rb / USIZE_MODULUS) * USIZE_MODULUS + y;
    assert a == (a / USIZE_MODULUS) * USIZE_MODULUS + x;
    assert b == (b / USIZE_MODULUS) * USIZE_MODULUS + y;
    UsizeShift(x + y, ra / USIZE_MODULUS + rb / USIZE_MODULUS);
    UsizeShift(x + y, a / USIZE_MODULUS + b / USIZE_MODULUS);
  }

  /** The offset of a cell index, inverting Indexify on the chunk. */
  function Deindexify(i: nat): (o: IVec3)
    ensures i < VOLUME ==> InChunk(o)
  {
    IVec3(AsI32(i % 16), AsI32((i % 256) / 16), AsI32(i / 256))
  }

  lemma IndexifyDeindexify(i: nat)
    requires i < VOLUME
    ensures Indexify(Deindexify(i)) == i
  {
    var o := Deindexify(i);
    assert o.x == i % 16 && o.y == (i % 256) / 16 && o.z == i / 256;
    assert i == i % 256 + 256 * (i / 256);
    assert i % 256 == i % 16 + 16 * ((i % 256) / 16);
  }

  lemma DeindexifyIndexify(o: IVec3)
    requires InChunk(o)
    ensures Deindexify(Indexify(o)) == o
  {
    var i := Indexify(o);
    assert i == o.x + 16 * o.y + 256 * o.z;
    assert i / 256 == o.z && i % 256 == o.x + 16 * o.y;
    assert (i % 256) / 16 == o.y;
    assert i % 16 == o.x;
  }

  /** The only index below 4096 that deindexifies to an in-chunk offset is
      that offset's index. */
  lemma DeindexifyDecodes(o: IVec3)
    requires InChunk(o)
    ensures forall i | 0 <= i < VOLUME && Deindexify(i) == o :: i == Indexify(o)
  {
    forall i | 0 <= i < VOLUME && Deindexify(i) == o
      ensures i == Indexify(o)
    {
      IndexifyDeindexify(i);
    }
  }

  /** The cell a block position addresses: that of its Euclidean offset. */
  function CellIndex(p: BlockPos): (i: nat)
    ensures i < VOLUME
  {
    Indexify(BlockInner(AsChunkOffset(p)))
  }

  /** Two positions share a cell exactly when their chunk offsets agree. */
  lemma CellIndexIdentifiesOffset(p: BlockPos, q: BlockPos)
    ensures CellIndex(p) == CellIndex(q) <==> AsChunkOffset(p) == AsChunkOffset(q)
  {
    if CellIndex(p) == CellIndex(q) {
      DeindexifyIndexify(BlockInner(AsChunkOffset(p)));
      DeindexifyIndexify(BlockInner(AsChunkOffset(q)));
    }
  }

  /** 1 for a solid cell, 0 for air. */
  function Solid(b: BlockData): nat
  {
    if b.Some? then 1 else 0
  }

  /** Number of solid cells. */
  function CountSolid(s: seq<BlockData>): nat
  {
    if s == [] then 0 else CountSolid(s[..|s| - 1]) + Solid(s[|s| - 1])
  }

  /** The first n cells as the supplier gives them, in index order. */
  function Supplied(supplier: BlockPos -> BlockData, n: nat): (cells: seq<BlockData>)
    ensures |cells| == n
  {
    if n == 0 then [] else Supplied(supplier, n - 1) + [supplier(BlockFromIVec(Deindexify(n - 1)))]
  }

  lemma {:induction false} SuppliedCells(supplier: BlockPos -> BlockData, n: nat)
    ensures forall i :: 0 <= i < n ==> Supplied(supplier, n)[i] == supplier(BlockFromIVec(Deindexify(i)))
  {
    if n > 0 {
      SuppliedCells(supplier, n - 1);
    }
  }

  lemma {:induction false} CountSolidBounded(s: seq<BlockData>)
    ensures CountSolid(s) <= |s|
  {
    if s != [] {
      CountSolidBounded(s[..|s| - 1]);
    }
  }

  /** No solid cell is counted exactly when every cell is air. */
  lemma {:induction false} CountSolidZero(s: seq<BlockData>)
    ensures CountSolid(s) == 0 <==> forall i :: 0 <= i < |s| ==> s[i].None?
  {
    if s != [] {
      CountSolidZero(s[..|s| - 1]);
      assert forall i :: 0 <= i < |s| - 1 ==> s[..|s| - 1][i] == s[i];
    }
  }

  /** Overwriting one cell changes the count by the solidity difference. */
  lemma CountSolidAppend(s: seq<BlockData>, b: BlockData)
    ensures CountSolid(s + [b]) == CountSolid(s) + Solid(b)
  {
    assert (s + [b])[..|s|] == s;
  }

  lemma {:induction false} CountSolidUpdate(s: seq<BlockData>, i: int, b: BlockData)
    requires 0 <= i < |s|
    ensures CountSolid(s[i := b]) + Solid(s[i]) == CountSolid(s) + Solid(b)
  {
    var n := |s| - 1;
    if i == n {
      assert s[i := b][..n] == s[..n];
    } else {
      assert s[i := b][..n] == s[..n][i := b];
      CountSolidUpdate(s[..n], i, b);
    }
  }

  /** The cell of a list of chunk cells at a raw offset, if its index is in
      range. */
  function RawCell(blocks: seq<BlockData>, o: IVec3): Option<BlockData>
  {
    var i := Indexify(o);
    if i < |blocks| then Some(blocks[i]) else None
  }

  /** One chunk's cells, indexed by Indexify, and its solid-cell counter. */
  class ChunkData {
    var blocks: seq<BlockData>
    var numBlocks: nat

    /** Every cell is present and the counter equals the number of solid cells. */
    ghost predicate Valid()
      reads this
    {
      |blocks| == VOLUME && numBlocks == CountSolid(blocks)
    }

    /** A chunk of air. */
    constructor Empty()
      ensures Valid()
      ensures blocks == AirCells()
      ensures IsEmpty()
    {
      blocks := AirCells();
      numBlocks := 0;
      new;
      CountSolidZero(blocks);
    }

    /** A chunk whose cell i holds what the supplier gives for that cell's
        offset; the counter is accumulated as the cells are filled. */
    constructor WithData(supplier: BlockPos -> BlockData)
      ensures Valid()
      ensures forall i :: 0 <= i < VOLUME ==> blocks[i] == supplier(BlockFromIVec(Deindexify(i)))
    {
      var cells: seq<BlockData> := [];
      var count := 0;
      var i := 0;
      while i < VOLUME
        invariant 0 <= i <= VOLUME
        invariant cells == Supplied(supplier, i)
        invariant count == CountSolid(cells)
      {
        var data := supplier(BlockFromIVec(Deindexify(i)));
        if data.Some? {
          count := count + 1;
        }
        CountSolidAppend(cells, data);
        cells := cells + [data];
        i := i + 1;
      }
      SuppliedCells(supplier, VOLUME);
      blocks := cells;
      numBlocks := count;
    }

    /** Whether the chunk holds no solid block. */
    function IsEmpty(): (b: bool)
      requires Valid()
      reads this
      ensures b <==> forall i :: 0 <= i < |blocks| ==> blocks[i].None?
    {
      CountSolidZero(blocks);
      numBlocks == 0
    }

    /** The cell at the position's Euclidean chunk offset: the one cell whose
        index deindexifies to that offset. */
    function Get(p: BlockPos): (b: BlockData)
      requires Valid()
      reads this
      ensures forall i | 0 <= i < VOLUME && Deindexify(i) == BlockInner(AsChunkOffset(p)) :: b == blocks[i]
    {
      DeindexifyDecodes(BlockInner(AsChunkOffset(p)));
      blocks[CellIndex(p)]
    }

    /** Overwrites the cell at the position's chunk offset, keeping the counter
        in step. */
    method Set(p: BlockPos, b: BlockData)
      requires Valid()
      modifies this
      ensures Valid()
      ensures blocks == old(blocks)[CellIndex(p) := b]
      ensures Get(p) == b
      ensures forall q :: AsChunkOffset(q) != AsChunkOffset(p) ==> Get(q) == old(Get(q))
    {
      ghost var before := blocks;
      if Get(p).Some? {
        if b.None? {
          CountSolidUpdate(blocks, CellIndex(p), b);
          numBlocks := numBlocks - 1;
        }
      } else if b.Some? {
        numBlocks := numBlocks + 1;
      }
      blocks := blocks[CellIndex(p) := b];
      CountSolidUpdate(before, CellIndex(p), b);
      forall q | AsChunkOffset(q) != AsChunkOffset(p)
        ensures Get(q) == before[CellIndex(q)]
      {
        CellIndexIdentifiesOffset(p, q);
      }
    }

    /** The cell at a raw offset, or None when its index is past the end. */
    function TryGetFromRawOffset(o: IVec3): (r: Option<BlockData>)
      requires Valid()
      reads this
      ensures r.None? <==> Indexify(o) >= VOLUME
      ensures r.Some? ==> r.value == blocks[Indexify(o)]
      ensures InChunk(o) ==> r.Some?
    {
      RawCell(blocks, o)
    }
  }

  /** `with_data` then `get`: reading a chunk filled from a supplier gives
      what the supplier returns for the position's chunk offset. */
  lemma WithDataThenGet(c: ChunkData, supplier: BlockPos -> BlockData, p: BlockPos)
    requires c.Valid()
    requires forall i :: 0 <= i < VOLUME ==> c.blocks[i] == supplier(BlockFromIVec(Deindexify(i)))
    ensures c.Get(p) == supplier(AsChunkOffset(p))
  {
    var o := BlockInner(AsChunkOffset(p));
    DeindexifyIndexify(o);
    assert BlockFromIVec(Deindexify(CellIndex(p))) == AsChunkOffset(p);
  }

  /** Positions with equal chunk offsets read the same cell of a chunk. */
  lemma GetDependsOnlyOnOffset(c: ChunkData, p: BlockPos, q: BlockPos)
    requires c.Valid()
    ensures c.Get(p) == c.Get(q) || AsChunkOffset(p) != AsChunkOffset(q)
  {
  }

  /** Reading an in-chunk offset directly and reading any block position with
      that offset give the same cell. */
  lemma RawOffsetAgreesWithGet(c: ChunkData, p: BlockPos)
    requires c.Valid()
    ensures c.TryGetFromRawOffset(BlockInner(AsChunkOffset(p))) == Some(c.Get(p))
  {
  }
}
