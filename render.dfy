/** Which chunks are shown: the spawn queue of chunk positions waiting for a
    mesh, and the map from chunk position to the entity that displays it.
    Entities and mesh handles are opaque ids; mesh tasks are the positions
    they were started for. */
module Render {
  import opened SeqFacts
  import opened Options
  import opened Coords
  import opened CubeScan
  import opened RenderDistances
  import opened WorldAccess

  /** An ECS entity. */
  datatype Entity = Entity(id: nat)

  /** A handle to a mesh asset. */
  datatype MeshHandle = MeshHandle(id: nat)

  /** The positions of q that are keys of the given set, in queue order. */
  function Present(q: seq<ChunkPos>, keys: set<ChunkPos>): (r: seq<ChunkPos>)
    ensures |r| <= |q|
  {
    if q == [] then [] else (if q[0] in keys then [q[0]] else []) + Present(q[1..], keys)
  }

  /** A position is kept as often as it occurs when it is a key, and
      dropped otherwise. */
  lemma {:induction false} PresentCounts(q: seq<ChunkPos>, keys: set<ChunkPos>, p: ChunkPos)
    ensures multiset(Present(q, keys))[p] == if p in keys then multiset(q)[p] else 0
  {
    if q != [] {
      PresentCounts(q[1..], keys, p);
      assert q == [q[0]] + q[1..];
    }
  }

  /** A position is kept iff it occurs and is a key. */
  lemma PresentMembers(q: seq<ChunkPos>, keys: set<ChunkPos>, p: ChunkPos)
    ensures p in Present(q, keys) <==> p in q && p in keys
  {
    PresentCounts(q, keys, p);
  }

  /** The spawned map after installing finished tasks, in order: each
      position is mapped to its new entity. */
  function Installed(m: map<ChunkPos, Entity>, finished: seq<(ChunkPos, Entity)>): map<ChunkPos, Entity>
    decreases |finished|
  {
    if finished == [] then m else Installed(m[finished[0].0 := finished[0].1], finished[1..])
  }

  /** The entities replaced while installing finished tasks, in order. */
  function Displaced(m: map<ChunkPos, Entity>, finished: seq<(ChunkPos, Entity)>): seq<Entity>
    decreases |finished|
  {
    if finished == [] then []
    else
      var (p, e) := finished[0];
      (if p in m then [m[p]] else []) + Displaced(m[p := e], finished[1..])
  }

  /** Installing maps every finished position, and only those are added. */
  lemma {:induction false} InstalledKeys(m: map<ChunkPos, Entity>, finished: seq<(ChunkPos, Entity)>)
    ensures Installed(m, finished).Keys == m.Keys + set i | 0 <= i < |finished| :: finished[i].0
    decreases |finished|
  {
    if finished != [] {
      InstalledKeys(m[finished[0].0 := finished[0].1], finished[1..]);
      var rest := set i | 0 <= i < |finished[1..]| :: finished[1..][i].0;
      var all := set i | 0 <= i < |finished| :: finished[i].0;
      assert all == {finished[0].0} + rest by {
        forall p | p in all ensures p in {finished[0].0} + rest {
          var i :| 0 <= i < |finished| && finished[i].0 == p;
          if i > 0 { assert finished[1..][i - 1].0 == p; }
        }
      }
    }
  }

  /** No entity is lost: every entity that was shown or has just been
      spawned is either shown afterwards or despawned. */
  lemma {:induction false} NoEntityLeaks(m: map<ChunkPos, Entity>, finished: seq<(ChunkPos, Entity)>, e: Entity)
    requires e in m.Values || exists i :: 0 <= i < |finished| && finished[i].1 == e
    ensures e in Installed(m, finished).Values || e in Displaced(m, finished)
    decreases |finished|
  {
    if finished != [] {
      var (p, f) := finished[0];
      var m' := m[p := f];
      if p in m && m[p] == e {
        assert Displaced(m, finished)[0] == e;
      } else {
        if e in m.Values {
          var k :| k in m && m[k] == e;
          assert m'[k] == e;
        } else {
          var i :| 0 <= i < |finished| && finished[i].1 == e;
          if i == 0 {
            assert m'[p] == e;
          } else {
            assert finished[1..][i - 1].1 == e;
          }
        }
        NoEntityLeaks(m', finished[1..], e);
      }
    }
  }

  /** The entities of the queried positions that are spawned, in query
      order; each position is removed as it is met. */
  function Evicted(m: map<ChunkPos, Entity>, queried: seq<ChunkPos>): seq<Entity>
  {
    if queried == [] then []
    else (if queried[0] in m then [m[queried[0]]] else []) + Evicted(m - {queried[0]}, queried[1..])
  }

  /** The map after removing the queried positions one by one. */
  function Without(m: map<ChunkPos, Entity>, queried: seq<ChunkPos>): map<ChunkPos, Entity>
  {
    if queried == [] then m else Without(m - {queried[0]}, queried[1..])
  }

  /** Removing positions one by one removes exactly those positions and
      leaves every other entry as it was. */
  lemma {:induction false} WithoutRemovesExactly(m: map<ChunkPos, Entity>, queried: seq<ChunkPos>)
    ensures Without(m, queried) == m - set p | p in queried
  {
    if queried != [] {
      WithoutRemovesExactly(m - {queried[0]}, queried[1..]);
      assert (m - {queried[0]}) - (set p | p in queried[1..]) == m - set p | p in queried;
    }
  }

  /** Every spawned chunk among the queried positions has its entity
      despawned, and nothing else is despawned. */
  lemma {:induction false} EvictedEntities(m: map<ChunkPos, Entity>, queried: seq<ChunkPos>)
    ensures |Evicted(m, queried)| <= |queried|
    ensures forall p :: p in queried && p in m ==> m[p] in Evicted(m, queried)
    ensures forall e :: e in Evicted(m, queried) ==> e in m.Values
  {
    if queried != [] {
      var m' := m - {queried[0]};
      EvictedEntities(m', queried[1..]);
      forall p | p in queried && p in m ensures m[p] in Evicted(m, queried) {
        if p != queried[0] {
          assert p in queried[1..] && p in m' && m'[p] == m[p];
        }
      }
      forall e | e in Evicted(m', queried[1..]) ensures e in m.Values {
        var k :| k in m' && m'[k] == e;
        assert k in m && m[k] == e;
      }
    }
  }

  /** The queried positions whose offset from the player's chunk lies outside
      the render distance. */
  function Outside(queried: seq<ChunkPos>, player: ChunkPos, rd: RenderDistance): (r: seq<ChunkPos>)
    reads rd
    ensures |r| <= |queried|
  {
    if queried == [] then []
    else
      (if rd.Contains(LocalFrom(queried[0], player)) then [] else [queried[0]])
      + Outside(queried[1..], player, rd)
  }

  /** The despawn filter keeps exactly the queried positions whose offset
      from the player's chunk is out of range. */
  lemma {:induction false} OutsideMembers(queried: seq<ChunkPos>, player: ChunkPos, rd: RenderDistance)
    ensures forall p :: p in Outside(queried, player, rd) <==> p in queried && !rd.Contains(LocalFrom(p, player))
  {
    if queried != [] {
      OutsideMembers(queried[1..], player, rd);
      assert queried == [queried[0]] + queried[1..];
    }
  }

  /** The render cube scan around the player: offsets -r..=r on every axis,
      r the render distance in chunks, leaving out the excluded positions.
      The lower bound is an i32 negation, so at r = i32::MIN it is i32::MIN
      again and the cube is the one corner player + (MIN, MIN, MIN). */
  function RenderCube(player: ChunkPos, excluded: set<ChunkPos>, rd: RenderDistance): seq<ChunkPos>
    reads rd
  {
    Scan(player, excluded, NegI32(rd.Chunks()), rd.Chunks())
  }

  /** Every position the render cube yields is one `contains` keeps, so a
      queued chunk is never one the despawn pass drops. */
  lemma RenderCubeContained(player: ChunkPos, excluded: set<ChunkPos>, rd: RenderDistance, q: ChunkPos)
    requires q in RenderCube(player, excluded, rd)
    ensures rd.Contains(LocalFrom(q, player))
  {
    var r := rd.Chunks();
    ScanMembers(player, excluded, NegI32(r), r, q);
    var l := LocalFrom(q, player).pos;
    assert l.x == q.x - player.x && l.y == q.y - player.y && l.z == q.z - player.z;
    if r == -0x8000_0000 {
      assert l == ChunkPos(-0x8000_0000, -0x8000_0000, -0x8000_0000);
    } else {
      assert NegI32(r) == -r;
    }
  }

  /** At 2^31 chunks the cast distance is i32::MIN, and the cube is exactly
      the corner player + (MIN, MIN, MIN), unless it is excluded. */
  lemma RenderCubeAt2To31(player: ChunkPos, excluded: set<ChunkPos>, rd: RenderDistance, q: ChunkPos)
    requires rd.distance == 0x8000_0000
    ensures q in RenderCube(player, excluded, rd) <==>
      q == ChunkAdd(player, ChunkPos(-0x8000_0000, -0x8000_0000, -0x8000_0000)) && q !in excluded
  {
    assert rd.Chunks() == -0x8000_0000;
    ScanMembers(player, excluded, -0x8000_0000, -0x8000_0000, q);
  }

  /** The chunk streaming state: the shown chunks, a mesh cache that is
      created empty and never written, and the spawn queue (FIFO). */
  class ChunkStreaming {
    var spawnedChunks: map<ChunkPos, Entity>
    var chunkMeshes: map<ChunkPos, MeshHandle>
    var spawnQueue: seq<ChunkPos>

    constructor SetupChunkData()
      ensures spawnedChunks == map[] && chunkMeshes == map[] && spawnQueue == []
    {
      spawnedChunks := map[];
      chunkMeshes := map[];
      spawnQueue := [];
    }

    /** Queues every position of the render cube around the player that is
        not shown, in x, y, z order, whether or not it is queued already. */
    method PopulateChunkSpawnQueue(player: ChunkPos, rd: RenderDistance)
      modifies this
      ensures spawnQueue == old(spawnQueue) + RenderCube(player, spawnedChunks.Keys, rd)
      ensures spawnedChunks == old(spawnedChunks) && chunkMeshes == old(chunkMeshes)
    {
      var lower := NegI32(rd.Chunks());
      var upper := rd.Chunks();
      var found := ScanCube(player, spawnedChunks.Keys, lower, upper);
      spawnQueue := spawnQueue + found;
    }

    /** Drains the queue front to back; each popped position whose chunk
        exists starts one mesh task, the others are dropped. */
    method SpawnChunks(world: ExcavateManufacturateWorld) returns (tasks: seq<ChunkPos>)
      modifies this
      ensures spawnQueue == []
      ensures tasks == Present(old(spawnQueue), world.chunks.Keys)
      ensures spawnedChunks == old(spawnedChunks) && chunkMeshes == old(chunkMeshes)
    {
      tasks := [];
      while spawnQueue != []
        invariant tasks + Present(spawnQueue, world.chunks.Keys) == Present(old(spawnQueue), world.chunks.Keys)
        invariant spawnedChunks == old(spawnedChunks) && chunkMeshes == old(chunkMeshes)
        decreases |spawnQueue|
      {
        var chunkPos := spawnQueue[0];
        ghost var rest := Present(spawnQueue[1..], world.chunks.Keys);
        spawnQueue := spawnQueue[1..];
        var chunk := world.GetChunk(chunkPos);
        if chunk.Some? {
          assert tasks + ([chunkPos] + rest) == (tasks + [chunkPos]) + rest;
          tasks := tasks + [chunkPos];
        } else {
          assert [] + rest == rest;
        }
      }
    }

    /** Shows the chunks whose mesh tasks finished, in order, despawning the
        entity each replaces. */
    method PollSpawnedChunks(finished: seq<(ChunkPos, Entity)>) returns (despawned: seq<Entity>)
      modifies this
      ensures spawnedChunks == Installed(old(spawnedChunks), finished)
      ensures despawned == Displaced(old(spawnedChunks), finished)
      ensures spawnQueue == old(spawnQueue) && chunkMeshes == old(chunkMeshes)
    {
      despawned := [];
      var i := 0;
      while i < |finished|
        invariant 0 <= i <= |finished|
        invariant Installed(spawnedChunks, finished[i..]) == Installed(old(spawnedChunks), finished)
        invariant despawned + Displaced(spawnedChunks, finished[i..]) == Displaced(old(spawnedChunks), finished)
        invariant spawnQueue == old(spawnQueue) && chunkMeshes == old(chunkMeshes)
      {
        var (chunkPos, entity) := finished[i];
        assert finished[i..][1..] == finished[i + 1..];
        ghost var rest := Displaced(spawnedChunks[chunkPos := entity], finished[i + 1..]);
        if chunkPos in spawnedChunks {
          var oldChunk := spawnedChunks[chunkPos];
          assert despawned + ([oldChunk] + rest) == (despawned + [oldChunk]) + rest;
          despawned := despawned + [oldChunk];
        } else {
          assert [] + rest == rest;
        }
        spawnedChunks := spawnedChunks[chunkPos := entity];
        i := i + 1;
      }
    }

    /** Removes, in query order, the shown chunks whose offset from the
        player's chunk is outside the render distance. */
    method DespawnChunks(queried: seq<ChunkPos>, player: ChunkPos, rd: RenderDistance) returns (despawned: seq<Entity>)
      modifies this
      ensures spawnedChunks == Without(old(spawnedChunks), Outside(queried, player, rd))
      ensures despawned == Evicted(old(spawnedChunks), Outside(queried, player, rd))
      ensures spawnQueue == old(spawnQueue) && chunkMeshes == old(chunkMeshes)
    {
      despawned := [];
      var i := 0;
      while i < |queried|
        invariant 0 <= i <= |queried|
        invariant Without(spawnedChunks, Outside(queried[i..], player, rd)) == Without(old(spawnedChunks), Outside(queried, player, rd))
        invariant despawned + Evicted(spawnedChunks, Outside(queried[i..], player, rd))
               == Evicted(old(spawnedChunks), Outside(queried, player, rd))
        invariant spawnQueue == old(spawnQueue) && chunkMeshes == old(chunkMeshes)
      {
        var chunkPos := queried[i];
        OutsideStep(queried, i, player, rd);
        ghost var later := Outside(queried[i + 1..], player, rd);
        if !rd.Contains(LocalFrom(chunkPos, player)) {
          assert Outside(queried[i..], player, rd) == [chunkPos] + later;
          despawned := Remove(chunkPos, despawned, later);
        } else {
          assert Outside(queried[i..], player, rd) == later;
        }
        i := i + 1;
      }
    }

    /** Removes every queried position from the shown chunks. */
    method DespawnAllChunks(queried: seq<ChunkPos>) returns (despawned: seq<Entity>)
      modifies this
      ensures spawnedChunks == old(spawnedChunks) - set p | p in queried
      ensures despawned == Evicted(old(spawnedChunks), queried)
      ensures spawnQueue == old(spawnQueue) && chunkMeshes == old(chunkMeshes)
    {
      despawned := [];
      var i := 0;
      while i < |queried|
        invariant 0 <= i <= |queried|
        invariant Without(spawnedChunks, queried[i..]) == Without(old(spawnedChunks), queried)
        invariant despawned + Evicted(spawnedChunks, queried[i..]) == Evicted(old(spawnedChunks), queried)
        invariant spawnQueue == old(spawnQueue) && chunkMeshes == old(chunkMeshes)
      {
        assert queried[i..] == [queried[i]] + queried[i + 1..];
        despawned := Remove(queried[i], despawned, queried[i + 1..]);
        i := i + 1;
      }
      WithoutRemovesExactly(old(spawnedChunks), queried);
    }

    /** Queues, in order, each of the given positions that is shown. */
    method QueueShown(targets: seq<ChunkPos>)
      modifies this
      ensures spawnQueue == old(spawnQueue) + Present(targets, spawnedChunks.Keys)
      ensures spawnedChunks == old(spawnedChunks) && chunkMeshes == old(chunkMeshes)
    {
      var k := 0;
      while k < |targets|
        invariant 0 <= k <= |targets|
        invariant spawnQueue + Present(targets[k..], spawnedChunks.Keys) == old(spawnQueue) + Present(targets, spawnedChunks.Keys)
        invariant spawnedChunks == old(spawnedChunks) && chunkMeshes == old(chunkMeshes)
      {
        assert targets[k..][1..] == targets[k + 1..];
        ghost var rest := Present(targets[k + 1..], spawnedChunks.Keys);
        if targets[k] in spawnedChunks {
          assert spawnQueue + ([targets[k]] + rest) == (spawnQueue + [targets[k]]) + rest;
          spawnQueue := spawnQueue + [targets[k]];
        } else {
          assert [] + rest == rest;
        }
        k := k + 1;
      }
    }

    /** One removal of a despawn loop: the position leaves the map and its
        entity, if it had one, is despawned; later is what the loop still
        removes. */
    method Remove(chunkPos: ChunkPos, despawned: seq<Entity>, ghost later: seq<ChunkPos>) returns (despawned': seq<Entity>)
      modifies this
      ensures spawnedChunks == old(spawnedChunks) - {chunkPos}
      ensures Without(spawnedChunks, later) == Without(old(spawnedChunks), [chunkPos] + later)
      ensures despawned' + Evicted(spawnedChunks, later) == despawned + Evicted(old(spawnedChunks), [chunkPos] + later)
      ensures spawnQueue == old(spawnQueue) && chunkMeshes == old(chunkMeshes)
    {
      assert ([chunkPos] + later)[0] == chunkPos && ([chunkPos] + later)[1..] == later;
      ghost var rest := Evicted(spawnedChunks - {chunkPos}, later);
      if chunkPos in spawnedChunks {
        var entity := spawnedChunks[chunkPos];
        assert despawned + ([entity] + rest) == (despawned + [entity]) + rest;
        despawned' := despawned + [entity];
      } else {
        assert [] + rest == rest;
        despawned' := despawned;
      }
      spawnedChunks := spawnedChunks - {chunkPos};
    }
  }

  /** The outside filter of a suffix, one element at a time. */
  lemma OutsideStep(queried: seq<ChunkPos>, i: int, player: ChunkPos, rd: RenderDistance)
    requires 0 <= i < |queried|
    ensures Outside(queried[i..], player, rd)
         == (if rd.Contains(LocalFrom(queried[i], player)) then [] else [queried[i]]) + Outside(queried[i + 1..], player, rd)
  {
    assert queried[i..][1..] == queried[i + 1..];
  }

  /** One populate pass queues exactly the cube positions that are not shown,
      each once; a position queued already is queued again. */
  lemma PopulateCounts(player: ChunkPos, spawned: set<ChunkPos>, lo: int, hi: int, queue: seq<ChunkPos>, p: ChunkPos)
    ensures multiset(queue + Scan(player, spawned, lo, hi))[p]
         == multiset(queue)[p] + (if InCube(player, lo, hi, p) && p !in spawned then 1 else 0)
  {
    ScanCounts(player, spawned, lo, hi, p);
    AppendCounts(queue, Scan(player, spawned, lo, hi), p);
  }
}
