/** The chunk generation scheduler: which chunk positions get a generation
    task, in which order, the set that keeps a position from being dispatched
    twice, what a task computes, and the merge of finished tasks into the
    world. A task is the position it was started for; a finished task is the
    pair of that position and the chunk it built. */
module Generation {
  import opened Options
  import opened Coords
  import opened Blocks
  import opened Chunk
  import opened WorldAccess
  import opened Worldgen
  import opened CubeScan
  import opened RenderDistances
  import opened Render

  // ---------------------------------------------------------------------
  // Dispatch order

  /** Nondecreasing squared distance from the player's chunk. */
  predicate SortedByDistance(player: ChunkPos, s: seq<ChunkPos>)
  {
    forall i, j :: 0 <= i < j < |s| ==> DistanceSquared(player, s[i]) <= DistanceSquared(player, s[j])
  }

  /** Inserts p into a sorted list after every element that is not farther
      from the player. */
  method InsertByDistance(player: ChunkPos, sorted: seq<ChunkPos>, p: ChunkPos) returns (r: seq<ChunkPos>)
    requires SortedByDistance(player, sorted)
    ensures SortedByDistance(player, r)
    ensures multiset(r) == multiset(sorted) + multiset{p}
  {
    var d := DistanceSquared(player, p);
    var k := 0;
    while k < |sorted| && DistanceSquared(player, sorted[k]) <= d
      invariant 0 <= k <= |sorted|
      invariant forall i :: 0 <= i < k ==> DistanceSquared(player, sorted[i]) <= d
    {
      k := k + 1;
    }
    r := sorted[..k] + [p] + sorted[k..];
    assert sorted == sorted[..k] + sorted[k..];
    InsertedSorted(player, sorted, p, k, r);
  }

  /** Placing p at an index k with nothing farther before it and nothing
      nearer after it keeps a sorted list sorted. */
  lemma InsertedSorted(player: ChunkPos, sorted: seq<ChunkPos>, p: ChunkPos, k: int, r: seq<ChunkPos>)
    requires SortedByDistance(player, sorted) && 0 <= k <= |sorted|
    requires forall i :: 0 <= i < k ==> DistanceSquared(player, sorted[i]) <= DistanceSquared(player, p)
    requires k < |sorted| ==> DistanceSquared(player, p) < DistanceSquared(player, sorted[k])
    requires r == sorted[..k] + [p] + sorted[k..]
    ensures SortedByDistance(player, r)
  {
    assert forall i :: 0 <= i < k ==> r[i] == sorted[i];
    assert r[k] == p;
    assert forall i :: k < i < |r| ==> r[i] == sorted[i - 1];
  }

  /** The candidates ordered by squared distance from the player; elements
      at equal distance may come in any order. */
  method SortByDistance(player: ChunkPos, candidates: seq<ChunkPos>) returns (sorted: seq<ChunkPos>)
    ensures SortedByDistance(player, sorted)
    ensures multiset(sorted) == multiset(candidates)
  {
    sorted := [];
    var i := 0;
    while i < |candidates|
      invariant 0 <= i <= |candidates|
      invariant SortedByDistance(player, sorted)
      invariant multiset(sorted) == multiset(candidates[..i])
    {
      assert candidates[..i + 1] == candidates[..i] + [candidates[i]];
      sorted := InsertByDistance(player, sorted, candidates[i]);
      i := i + 1;
    }
    assert candidates[..i] == candidates;
  }

  // ---------------------------------------------------------------------
  // Candidates

  /** A scan whose excluded set covers its whole cube finds nothing. */
  lemma ScanOfCoveredCube(center: ChunkPos, excluded: set<ChunkPos>, lo: int, hi: int)
    requires forall q :: InCube(center, lo, hi, q) ==> q in excluded
    ensures Scan(center, excluded, lo, hi) == []
  {
    var s := Scan(center, excluded, lo, hi);
    if s != [] {
      ScanMembers(center, excluded, lo, hi, s[0]);
      assert false;
    }
  }

  /** Excluding what a scan found, the same scan finds nothing more. */
  lemma SecondScanEmpty(center: ChunkPos, excluded: set<ChunkPos>, lo: int, hi: int)
    ensures Scan(center, excluded + (set p | p in Scan(center, excluded, lo, hi)), lo, hi) == []
  {
    var found := Scan(center, excluded, lo, hi);
    forall q | InCube(center, lo, hi, q)
      ensures q in excluded + (set p | p in found)
    {
      ScanMembers(center, excluded, lo, hi, q);
    }
    ScanOfCoveredCube(center, excluded + (set p | p in found), lo, hi);
  }

  /** Once every position a scan found is excluded as well, the same scan
      finds nothing. */
  lemma SecondScanAfterDispatch(player: ChunkPos, excluded: set<ChunkPos>, lo: int, hi: int,
                                dispatched: seq<ChunkPos>, marked: set<ChunkPos>)
    requires multiset(dispatched) == multiset(Scan(player, excluded, lo, hi))
    requires excluded <= marked && forall p :: p in dispatched ==> p in marked
    ensures Scan(player, marked, lo, hi) == []
  {
    forall q | InCube(player, lo, hi, q)
      ensures q in marked
    {
      ScanMembers(player, excluded, lo, hi, q);
      assert q in Scan(player, excluded, lo, hi) ==> q in multiset(dispatched);
    }
    ScanOfCoveredCube(player, marked, lo, hi);
  }

  /** The same for the render cube of a render distance. */
  lemma SecondRenderCubeEmpty(player: ChunkPos, excluded: set<ChunkPos>, rd: RenderDistance,
                              dispatched: seq<ChunkPos>, marked: set<ChunkPos>)
    requires multiset(dispatched) == multiset(RenderCube(player, excluded, rd))
    requires excluded <= marked && forall p :: p in dispatched ==> p in marked
    ensures RenderCube(player, marked, rd) == []
  {
    var lo, hi := NegI32(rd.Chunks()), rd.Chunks();
    assert RenderCube(player, excluded, rd) == Scan(player, excluded, lo, hi);
    assert RenderCube(player, marked, rd) == Scan(player, marked, lo, hi);
    SecondScanAfterDispatch(player, excluded, lo, hi, dispatched, marked);
  }

  // ---------------------------------------------------------------------
  // What a task computes

  /** The cells of a chunk generated at a chunk position: cell i holds the
      terrain at the cell's offset moved to the chunk's origin. */
  ghost predicate HoldsTerrain(blocks: seq<BlockData>, pos: ChunkPos, registry: BlockRegistry, hills: Hills)
    requires KnowsTerrain(registry)
  {
    && |blocks| == VOLUME
    && forall i :: 0 <= i < VOLUME ==>
         blocks[i] == TerrainNoise(BlockAdd(BlockFromIVec(Deindexify(i)), BlockFromChunk(pos)), registry, hills)
  }

  /** A generation task: builds the chunk at a position from the terrain
      generator. */
  method RunGenerationTask(pos: ChunkPos, registry: BlockRegistry, hills: Hills) returns (c: ChunkData)
    requires KnowsTerrain(registry)
    ensures fresh(c) && c.Valid()
    ensures HoldsTerrain(c.blocks, pos, registry, hills)
  {
    var origin := BlockFromChunk(pos);
    c := new ChunkData.WithData(blockPos => TerrainNoise(BlockAdd(blockPos, origin), registry, hills));
  }

  /** A generated chunk read back at a non-negative block position of its own
      chunk holds the terrain at that block. */
  lemma GeneratedChunkHoldsTerrain(blocks: seq<BlockData>, pos: ChunkPos, registry: BlockRegistry, hills: Hills, p: BlockPos)
    requires KnowsTerrain(registry) && HoldsTerrain(blocks, pos, registry, hills)
    requires ChunkFromBlock(p) == pos && p.x >= 0 && p.y >= 0 && p.z >= 0
    ensures blocks[CellIndex(p)] == TerrainNoise(p, registry, hills)
  {
    var o := BlockInner(AsChunkOffset(p));
    DeindexifyIndexify(o);
    ReconstructNonNegative(p);
    assert BlockFromIVec(Deindexify(CellIndex(p))) == AsChunkOffset(p);
  }

  // ---------------------------------------------------------------------
  // Merge of finished tasks

  /** The chunks whose mesh must be rebuilt once a chunk arrives: the chunk
      itself, then its neighbours along +x, -x, +y, -y, +z, -z. */
  function RebuildTargets(pos: ChunkPos): (r: seq<ChunkPos>)
    ensures |r| == 7 && r[0] == pos
  {
    [pos,
     ChunkAdd(pos, ChunkPos(1, 0, 0)), ChunkSub(pos, ChunkPos(1, 0, 0)),
     ChunkAdd(pos, ChunkPos(0, 1, 0)), ChunkSub(pos, ChunkPos(0, 1, 0)),
     ChunkAdd(pos, ChunkPos(0, 0, 1)), ChunkSub(pos, ChunkPos(0, 0, 1))]
  }

  /** The rebuild targets are the chunk and the six chunks that share a face
      with it. */
  lemma RebuildTargetsAreFaceNeighbours(pos: ChunkPos, q: ChunkPos)
    ensures q in RebuildTargets(pos) <==> AxisDistance(q, pos) <= 1
  {
    var t := RebuildTargets(pos);
    if AxisDistance(q, pos) <= 1 {
      var dx, dy, dz := q.x - pos.x, q.y - pos.y, q.z - pos.z;
      if dx == 1 {
        assert q == t[1];
      } else if dx == -1 {
        assert q == t[2];
      } else if dy == 1 {
        assert q == t[3];
      } else if dy == -1 {
        assert q == t[4];
      } else if dz == 1 {
        assert q == t[5];
      } else if dz == -1 {
        assert q == t[6];
      } else {
        assert q == t[0];
      }
    }
    if q in t {
      var i :| 0 <= i < 7 && t[i] == q;
      assert AxisDistance(t[i], pos) <= 1;
    }
  }

  /** The seven rebuild targets are pairwise distinct. */
  lemma RebuildTargetsDistinct(pos: ChunkPos)
    ensures forall i, j :: 0 <= i < j < |RebuildTargets(pos)| ==> RebuildTargets(pos)[i] != RebuildTargets(pos)[j]
  {
  }

  /** The finished tasks whose chunk holds a block, in order. */
  function Kept(finished: seq<(ChunkPos, ChunkData)>): (r: seq<(ChunkPos, ChunkData)>)
    requires forall i :: 0 <= i < |finished| ==> finished[i].1.Valid()
    reads set i | 0 <= i < |finished| :: finished[i].1
    ensures |r| <= |finished|
  {
    if finished == [] then []
    else
      assert forall i :: 0 <= i < |finished[1..]| ==> finished[1..][i] == finished[i + 1];
      (if finished[0].1.IsEmpty() then [] else [finished[0]]) + Kept(finished[1..])
  }

  /** The chunk map after storing the kept chunks in order. */
  function Inserted(m: map<ChunkPos, ChunkData>, kept: seq<(ChunkPos, ChunkData)>): map<ChunkPos, ChunkData>
    decreases |kept|
  {
    if kept == [] then m else Inserted(m[kept[0].0 := kept[0].1], kept[1..])
  }

  /** What the merge pushes onto the spawn queue for the kept chunks, in
      order: the shown ones among each chunk's rebuild targets. */
  function Requeued(kept: seq<(ChunkPos, ChunkData)>, shown: set<ChunkPos>): seq<ChunkPos>
  {
    if kept == [] then [] else Present(RebuildTargets(kept[0].0), shown) + Requeued(kept[1..], shown)
  }

  /** Every kept task was finished and holds a block; every finished task
      that holds a block is kept. */
  lemma {:induction false} KeptExactly(finished: seq<(ChunkPos, ChunkData)>, t: (ChunkPos, ChunkData))
    requires forall i :: 0 <= i < |finished| ==> finished[i].1.Valid()
    ensures t in Kept(finished) <==> t in finished && !t.1.IsEmpty()
  {
    if finished != [] {
      assert forall i :: 0 <= i < |finished[1..]| ==> finished[1..][i] == finished[i + 1];
      KeptExactly(finished[1..], t);
      assert finished == [finished[0]] + finished[1..];
    }
  }

  /** Storing the kept chunks adds exactly their positions to the map. */
  lemma {:induction false} InsertedKeys(m: map<ChunkPos, ChunkData>, kept: seq<(ChunkPos, ChunkData)>)
    ensures Inserted(m, kept).Keys == m.Keys + set i | 0 <= i < |kept| :: kept[i].0
    decreases |kept|
  {
    if kept != [] {
      InsertedKeys(m[kept[0].0 := kept[0].1], kept[1..]);
      var rest := set i | 0 <= i < |kept[1..]| :: kept[1..][i].0;
      var all := set i | 0 <= i < |kept| :: kept[i].0;
      assert all == {kept[0].0} + rest by {
        forall p | p in all ensures p in {kept[0].0} + rest {
          var i :| 0 <= i < |kept| && kept[i].0 == p;
          if i > 0 { assert kept[1..][i - 1].0 == p; }
        }
      }
    }
  }

  /** A position is queued again exactly when it is shown and is, or shares
      a face with, a kept chunk. */
  lemma {:induction false} RequeuedMembers(kept: seq<(ChunkPos, ChunkData)>, shown: set<ChunkPos>, q: ChunkPos)
    ensures q in Requeued(kept, shown) <==> q in shown && exists t :: t in kept && AxisDistance(q, t.0) <= 1
  {
    if kept != [] {
      RequeuedMembers(kept[1..], shown, q);
      PresentMembers(RebuildTargets(kept[0].0), shown, q);
      RebuildTargetsAreFaceNeighbours(kept[0].0, q);
      assert kept == [kept[0]] + kept[1..];
      assert forall t :: t in kept <==> t == kept[0] || t in kept[1..];
    }
  }

  /** The positions that may have a generation task, started or done. */
  class ChunkGeneration {
    var possiblyGenerated: set<ChunkPos>

    constructor Setup()
      ensures possiblyGenerated == {}
    {
      possiblyGenerated := {};
    }

    /** Starts one task for every position of the render cube around the
        player that has neither a task nor a chunk, nearest first, and marks
        each as possibly generated. */
    method GenerateChunks(world: ExcavateManufacturateWorld, rd: RenderDistance, player: ChunkPos)
      returns (dispatched: seq<ChunkPos>)
      modifies this
      ensures multiset(dispatched) == multiset(RenderCube(player, old(possiblyGenerated) + world.chunks.Keys, rd))
      ensures SortedByDistance(player, dispatched)
      ensures possiblyGenerated == old(possiblyGenerated) + set p | p in dispatched
      ensures RenderCube(player, possiblyGenerated + world.chunks.Keys, rd) == []
    {
      dispatched := Candidates(world, rd, player);
      ghost var marked := possiblyGenerated + world.chunks.Keys + (set p | p in dispatched);
      SecondRenderCubeEmpty(player, possiblyGenerated + world.chunks.Keys, rd, dispatched, marked);
      Dispatch(dispatched);
      assert possiblyGenerated + world.chunks.Keys == marked;
    }

    /** The positions of the render cube around the player that have neither
        a task nor a chunk, nearest first. */
    method Candidates(world: ExcavateManufacturateWorld, rd: RenderDistance, player: ChunkPos)
      returns (sorted: seq<ChunkPos>)
      ensures multiset(sorted) == multiset(RenderCube(player, possiblyGenerated + world.chunks.Keys, rd))
      ensures SortedByDistance(player, sorted)
    {
      var lower := NegI32(rd.Chunks());
      var upper := rd.Chunks();
      var candidates := ScanCube(player, possiblyGenerated + world.chunks.Keys, lower, upper);
      assert RenderCube(player, possiblyGenerated + world.chunks.Keys, rd) == candidates;
      sorted := SortByDistance(player, candidates);
    }

    /** Marks each dispatched position as possibly generated. */
    method Dispatch(positions: seq<ChunkPos>)
      modifies this
      ensures possiblyGenerated == old(possiblyGenerated) + set p | p in positions
    {
      var i := 0;
      while i < |positions|
        invariant 0 <= i <= |positions|
        invariant possiblyGenerated == old(possiblyGenerated) + set p | p in positions[..i]
      {
        assert positions[..i + 1] == positions[..i] + [positions[i]];
        possiblyGenerated := possiblyGenerated + {positions[i]};
        i := i + 1;
      }
      assert positions[..i] == positions;
    }
  }

  /** Merges finished tasks in order: an empty chunk is dropped; any other
      is stored in the world, and each of its rebuild targets that is shown
      is queued for a new mesh. */
  method PollGeneratedChunks(finished: seq<(ChunkPos, ChunkData)>, world: ExcavateManufacturateWorld, streaming: ChunkStreaming)
    requires world.Valid()
    requires forall i :: 0 <= i < |finished| ==> finished[i].1.Valid()
    requires forall i, j :: 0 <= i < j < |finished| ==> finished[i].1 != finished[j].1
    requires forall i :: 0 <= i < |finished| ==> finished[i].1 !in world.chunks.Values
    modifies world, streaming
    ensures world.Valid()
    ensures world.chunks == Inserted(old(world.chunks), Kept(finished))
    ensures streaming.spawnQueue == old(streaming.spawnQueue) + Requeued(Kept(finished), streaming.spawnedChunks.Keys)
    ensures streaming.spawnedChunks == old(streaming.spawnedChunks)
    ensures streaming.chunkMeshes == old(streaming.chunkMeshes)
  {
    ghost var kept := Kept(finished);
    ghost var shown := streaming.spawnedChunks.Keys;
    ghost var rest := kept;
    var i := 0;
    assert finished[i..] == finished;
    while i < |finished|
      invariant 0 <= i <= |finished|
      invariant world.Valid()
      invariant forall j :: i <= j < |finished| ==> finished[j].1 !in world.chunks.Values
      invariant rest == Kept(finished[i..])
      invariant Inserted(world.chunks, rest) == Inserted(old(world.chunks), kept)
      invariant streaming.spawnQueue + Requeued(rest, shown) == old(streaming.spawnQueue) + Requeued(kept, shown)
      invariant streaming.spawnedChunks == old(streaming.spawnedChunks)
      invariant streaming.chunkMeshes == old(streaming.chunkMeshes)
    {
      rest := Kept(finished[i + 1..]);
      MergeNext(finished, i, world, streaming);
      i := i + 1;
    }
    assert finished[i..] == [];
  }

  /** The merge loop's step for task i: what is stored and queued for it and
      for the tasks after it together is what was due for tasks i onwards. */
  method MergeNext(finished: seq<(ChunkPos, ChunkData)>, i: int, world: ExcavateManufacturateWorld, streaming: ChunkStreaming)
    requires 0 <= i < |finished|
    requires world.Valid()
    requires forall j :: 0 <= j < |finished| ==> finished[j].1.Valid()
    requires forall j, k :: 0 <= j < k < |finished| ==> finished[j].1 != finished[k].1
    requires forall j :: i <= j < |finished| ==> finished[j].1 !in world.chunks.Values
    modifies world, streaming
    ensures world.Valid()
    ensures forall j :: i < j < |finished| ==> finished[j].1 !in world.chunks.Values
    ensures Kept(finished[i + 1..]) == old(Kept(finished[i + 1..]))
    ensures Inserted(world.chunks, Kept(finished[i + 1..])) == Inserted(old(world.chunks), old(Kept(finished[i..])))
    ensures streaming.spawnQueue + Requeued(Kept(finished[i + 1..]), streaming.spawnedChunks.Keys)
         == old(streaming.spawnQueue) + Requeued(old(Kept(finished[i..])), streaming.spawnedChunks.Keys)
    ensures streaming.spawnedChunks == old(streaming.spawnedChunks)
    ensures streaming.chunkMeshes == old(streaming.chunkMeshes)
  {
    var (chunkPos, chunkData) := finished[i];
    KeptStep(finished, i);
    ghost var later := Kept(finished[i + 1..]);
    ghost var shown := streaming.spawnedChunks.Keys;
    if !chunkData.IsEmpty() {
      MergeStep(world.chunks, streaming.spawnQueue, (chunkPos, chunkData), later, shown);
    } else {
      assert [] + later == later;
    }
    PollOne(chunkPos, chunkData, world, streaming);
    KeptUnchanged(finished[i + 1..]);
  }

  /** Which tasks are kept depends only on their chunks. */
  twostate lemma {:induction false} KeptUnchanged(finished: seq<(ChunkPos, ChunkData)>)
    requires forall i :: 0 <= i < |finished| ==> old(finished[i].1.Valid()) && unchanged(finished[i].1)
    ensures Kept(finished) == old(Kept(finished))
  {
    if finished != [] {
      assert forall i :: 0 <= i < |finished[1..]| ==> finished[1..][i] == finished[i + 1];
      KeptUnchanged(finished[1..]);
    }
  }

  /** The kept tasks of a suffix, one task at a time. */
  lemma KeptStep(finished: seq<(ChunkPos, ChunkData)>, i: int)
    requires 0 <= i < |finished|
    requires forall j :: 0 <= j < |finished| ==> finished[j].1.Valid()
    ensures Kept(finished[i..]) == (if finished[i].1.IsEmpty() then [] else [finished[i]]) + Kept(finished[i + 1..])
  {
    assert finished[i..][1..] == finished[i + 1..];
  }

  /** Storing and requeueing for a kept task, then for the tasks after it. */
  lemma MergeStep(m: map<ChunkPos, ChunkData>, queue: seq<ChunkPos>, t: (ChunkPos, ChunkData),
                  later: seq<(ChunkPos, ChunkData)>, shown: set<ChunkPos>)
    ensures Inserted(m, [t] + later) == Inserted(m[t.0 := t.1], later)
    ensures queue + Requeued([t] + later, shown) == (queue + Present(RebuildTargets(t.0), shown)) + Requeued(later, shown)
  {
    assert ([t] + later)[0] == t && ([t] + later)[1..] == later;
  }

  /** Merges one finished task: an empty chunk changes nothing; any other is
      stored and its shown rebuild targets are queued. */
  method PollOne(chunkPos: ChunkPos, chunkData: ChunkData, world: ExcavateManufacturateWorld, streaming: ChunkStreaming)
    requires world.Valid() && chunkData.Valid()
    requires chunkData !in world.chunks.Values
    modifies world, streaming
    ensures world.Valid()
    ensures chunkData.IsEmpty() ==> world.chunks == old(world.chunks) && streaming.spawnQueue == old(streaming.spawnQueue)
    ensures !chunkData.IsEmpty() ==> world.chunks == old(world.chunks)[chunkPos := chunkData]
    ensures !chunkData.IsEmpty() ==>
              streaming.spawnQueue == old(streaming.spawnQueue) + Present(RebuildTargets(chunkPos), streaming.spawnedChunks.Keys)
    ensures streaming.spawnedChunks == old(streaming.spawnedChunks)
    ensures streaming.chunkMeshes == old(streaming.chunkMeshes)
  {
    if chunkData.IsEmpty() {
      return;
    }
    assert forall k :: k in world.chunks ==> world.chunks[k] != chunkData;
    var _ := world.InsertChunk(chunkPos, chunkData);
    streaming.QueueShown(RebuildTargets(chunkPos));
  }
}
