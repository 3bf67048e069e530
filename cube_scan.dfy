/** The cube of chunk positions around the player that both the generation
    scheduler and the spawn queue walk: `center + (dx, dy, dz)` for dx, dy and
    dz in lo..=hi, in the order of three nested loops over x, then y, then z,
    leaving out the positions in an excluded set. */
module CubeScan {
  import opened SeqFacts
  import opened Coords

  function ScanZ(center: ChunkPos, excluded: set<ChunkPos>, x: int, y: int, z: int, hi: int): seq<ChunkPos>
    decreases hi - z
  {
    if z > hi then []
    else
      var p := ChunkAdd(center, ChunkPos(x, y, z));
      (if p in excluded then [] else [p]) + ScanZ(center, excluded, x, y, z + 1, hi)
  }

  function ScanY(center: ChunkPos, excluded: set<ChunkPos>, x: int, y: int, lo: int, hi: int): seq<ChunkPos>
    decreases hi - y
  {
    if y > hi then []
    else ScanZ(center, excluded, x, y, lo, hi) + ScanY(center, excluded, x, y + 1, lo, hi)
  }

  function ScanX(center: ChunkPos, excluded: set<ChunkPos>, x: int, lo: int, hi: int): seq<ChunkPos>
    decreases hi - x
  {
    if x > hi then []
    else ScanY(center, excluded, x, lo, lo, hi) + ScanX(center, excluded, x + 1, lo, hi)
  }

  /** The whole scan. */
  function Scan(center: ChunkPos, excluded: set<ChunkPos>, lo: int, hi: int): seq<ChunkPos>
  {
    ScanX(center, excluded, lo, lo, hi)
  }

  /** q is within lo..=hi of center on every axis. */
  predicate InCube(center: ChunkPos, lo: int, hi: int, q: ChunkPos)
  {
    lo <= q.x - center.x <= hi && lo <= q.y - center.y <= hi && lo <= q.z - center.z <= hi
  }

  /** How often the z loop for one x and y yields q: once if q lies in the
      rest of that column and is not excluded, never otherwise. */
  lemma {:induction false} ScanZCounts(center: ChunkPos, excluded: set<ChunkPos>, x: int, y: int, z: int, hi: int, q: ChunkPos)
    ensures multiset(ScanZ(center, excluded, x, y, z, hi))[q]
         == if q.x - center.x == x && q.y - center.y == y && z <= q.z - center.z <= hi && q !in excluded then 1 else 0
    decreases hi - z
  {
    if z <= hi {
      var p, rest := ChunkAdd(center, ChunkPos(x, y, z)), ScanZ(center, excluded, x, y, z + 1, hi);
      var head := if p in excluded then [] else [p];
      assert ScanZ(center, excluded, x, y, z, hi) == head + rest;
      ScanZCounts(center, excluded, x, y, z + 1, hi, q);
      AppendCounts(head, rest, q);
    }
  }

  lemma {:induction false} ScanYCounts(center: ChunkPos, excluded: set<ChunkPos>, x: int, y: int, lo: int, hi: int, q: ChunkPos)
    ensures multiset(ScanY(center, excluded, x, y, lo, hi))[q]
         == if q.x - center.x == x && y <= q.y - center.y <= hi && lo <= q.z - center.z <= hi && q !in excluded then 1 else 0
    decreases hi - y
  {
    if y <= hi {
      var column, rest := ScanZ(center, excluded, x, y, lo, hi), ScanY(center, excluded, x, y + 1, lo, hi);
      assert ScanY(center, excluded, x, y, lo, hi) == column + rest;
      ScanZCounts(center, excluded, x, y, lo, hi, q);
      ScanYCounts(center, excluded, x, y + 1, lo, hi, q);
      AppendCounts(column, rest, q);
    }
  }

  lemma {:induction false} ScanXCounts(center: ChunkPos, excluded: set<ChunkPos>, x: int, lo: int, hi: int, q: ChunkPos)
    ensures multiset(ScanX(center, excluded, x, lo, hi))[q]
         == if x <= q.x - center.x <= hi && lo <= q.y - center.y <= hi && lo <= q.z - center.z <= hi && q !in excluded then 1 else 0
    decreases hi - x
  {
    if x <= hi {
      var slice, rest := ScanY(center, excluded, x, lo, lo, hi), ScanX(center, excluded, x + 1, lo, hi);
      assert ScanX(center, excluded, x, lo, hi) == slice + rest;
      ScanYCounts(center, excluded, x, lo, lo, hi, q);
      ScanXCounts(center, excluded, x + 1, lo, hi, q);
      AppendCounts(slice, rest, q);
    }
  }

  /** The scan yields each position of the cube that is not excluded exactly
      once, and nothing else. */
  lemma ScanCounts(center: ChunkPos, excluded: set<ChunkPos>, lo: int, hi: int, q: ChunkPos)
    ensures multiset(Scan(center, excluded, lo, hi))[q] == if InCube(center, lo, hi, q) && q !in excluded then 1 else 0
  {
    ScanXCounts(center, excluded, lo, lo, hi, q);
  }

  /** The scan yields exactly the cube minus the excluded positions. */
  lemma ScanMembers(center: ChunkPos, excluded: set<ChunkPos>, lo: int, hi: int, q: ChunkPos)
    ensures q in Scan(center, excluded, lo, hi) <==> InCube(center, lo, hi, q) && q !in excluded
  {
    ScanCounts(center, excluded, lo, hi, q);
  }

  /** The three nested loops themselves: every position of the cube around
      center, in x, y, z order, that is not excluded. Each loop level is a
      method of its own. */
  method ScanCube(center: ChunkPos, excluded: set<ChunkPos>, lo: int, hi: int) returns (found: seq<ChunkPos>)
    ensures found == Scan(center, excluded, lo, hi)
  {
    found := [];
    var x := lo;
    while x <= hi
      invariant lo <= x
      invariant found + ScanX(center, excluded, x, lo, hi) == Scan(center, excluded, lo, hi)
      decreases hi - x
    {
      var slice := ScanSlice(center, excluded, x, lo, hi);
      assert found + ScanX(center, excluded, x, lo, hi) == (found + slice) + ScanX(center, excluded, x + 1, lo, hi);
      found := found + slice;
      x := x + 1;
    }
    assert found + ScanX(center, excluded, x, lo, hi) == found;
  }

  /** The y and z loops for one x. */
  method ScanSlice(center: ChunkPos, excluded: set<ChunkPos>, x: int, lo: int, hi: int) returns (found: seq<ChunkPos>)
    ensures found == ScanY(center, excluded, x, lo, lo, hi)
  {
    found := [];
    var y := lo;
    while y <= hi
      invariant lo <= y
      invariant found + ScanY(center, excluded, x, y, lo, hi) == ScanY(center, excluded, x, lo, lo, hi)
      decreases hi - y
    {
      var column := ScanColumn(center, excluded, x, y, lo, hi);
      assert found + ScanY(center, excluded, x, y, lo, hi) == (found + column) + ScanY(center, excluded, x, y + 1, lo, hi);
      found := found + column;
      y := y + 1;
    }
    assert found + ScanY(center, excluded, x, y, lo, hi) == found;
  }

  /** The z loop for one x and y. */
  method ScanColumn(center: ChunkPos, excluded: set<ChunkPos>, x: int, y: int, lo: int, hi: int) returns (found: seq<ChunkPos>)
    ensures found == ScanZ(center, excluded, x, y, lo, hi)
  {
    found := [];
    var z := lo;
    while z <= hi
      invariant lo <= z
      invariant found + ScanZ(center, excluded, x, y, z, hi) == ScanZ(center, excluded, x, y, lo, hi)
      decreases hi - z
    {
      var chunkPos := ChunkAdd(center, ChunkPos(x, y, z));
      ghost var rest := ScanZ(center, excluded, x, y, z + 1, hi);
      if chunkPos !in excluded {
        assert found + ([chunkPos] + rest) == (found + [chunkPos]) + rest;
        found := found + [chunkPos];
      } else {
        assert [] + rest == rest;
      }
      z := z + 1;
    }
    assert found + ScanZ(center, excluded, x, y, z, hi) == found;
  }
}
