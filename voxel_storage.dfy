/** Storage of the older design's padded chunk: 18 x 18 x 18 voxels kept in a
    flat array of 18^3 slots, addressed with the stride of the unpadded
    16-voxel chunk, and filled from a terrain generator in one x, y, z walk. */
module VoxelStorage {
  import opened Coords
  import opened VoxelBase

  /** Number of slots of a chunk's voxel array (18^3). */
  const VOXEL_COUNT: int := 5832

  /** The slot of position (x, y, z): x + 16 y + 256 z. The stride is the
      unpadded chunk size although positions run up to 17. */
  function Linearize(x: int, y: int, z: int): (i: int)
    ensures 0 <= x < CHUNK_SIZE && 0 <= y < CHUNK_SIZE && 0 <= z < CHUNK_SIZE ==> 0 <= i < 4096
  {
    x + 16 * y + 256 * z
  }

  /** A position of the padded chunk. */
  predicate InPadded(c: IVec3)
  {
    0 <= c.x < PADDED_CHUNK_SIZE && 0 <= c.y < PADDED_CHUNK_SIZE && 0 <= c.z < PADDED_CHUNK_SIZE
  }

  /** The slot of a padded position: always inside the array, and never
      beyond slot 4641, so the last 1190 slots are never addressed. */
  function Slot(c: IVec3): (s: int)
    requires InPadded(c)
    ensures 0 <= s <= 4641 < VOXEL_COUNT
  {
    Linearize(c.x, c.y, c.z)
  }

  /** Distinct padded positions share a slot: (16, 0, 0) and (0, 1, 0) both
      land in slot 16. */
  lemma LinearizeCollides()
    ensures IVec3(16, 0, 0) != IVec3(0, 1, 0)
    ensures Slot(IVec3(16, 0, 0)) == Slot(IVec3(0, 1, 0)) == 16
  {
  }

  /** Within the unpadded 16^3 range the slots are distinct. */
  lemma LinearizeInjectiveInChunk(a: IVec3, b: IVec3)
    requires 0 <= a.x < 16 && 0 <= a.y < 16 && 0 <= a.z < 16
    requires 0 <= b.x < 16 && 0 <= b.y < 16 && 0 <= b.z < 16
    requires Linearize(a.x, a.y, a.z) == Linearize(b.x, b.y, b.z)
    ensures a == b
  {
    assert a.z == b.z by {
      assert 256 * (a.z - b.z) == (b.x - a.x) + 16 * (b.y - a.y);
    }
    assert a.y == b.y by {
      assert 16 * (a.y - b.y) == b.x - a.x;
    }
  }

  // ---------------------------------------------------------------------
  // The generation walk

  /** The step at which the walk visits padded position c: x slowest, z
      fastest. */
  function PaddedRank(c: IVec3): int
  {
    324 * c.x + 18 * c.y + c.z
  }

  /** The padded position after c in the walk: z advances first, then y,
      then x. */
  function NextCell(c: IVec3): IVec3
  {
    if c.z < 17 then IVec3(c.x, c.y, c.z + 1)
    else if c.y < 17 then IVec3(c.x, c.y + 1, 0)
    else IVec3(c.x + 1, 0, 0)
  }

  /** The padded position visited at step r. */
  function PaddedCell(r: nat): IVec3
  {
    if r == 0 then IVec3(0, 0, 0) else NextCell(PaddedCell(r - 1))
  }

  /** Step r of the walk visits a padded position whose rank is r. */
  lemma {:induction false} PaddedCellAt(r: int)
    requires 0 <= r < VOXEL_COUNT
    ensures InPadded(PaddedCell(r)) && PaddedRank(PaddedCell(r)) == r
  {
    if r > 0 {
      PaddedCellAt(r - 1);
    }
  }

  /** The slot written at step k of the walk. */
  function StepSlot(k: int): (s: int)
    requires 0 <= k < VOXEL_COUNT
    ensures 0 <= s < VOXEL_COUNT
  {
    PaddedCellAt(k);
    Slot(PaddedCell(k))
  }

  /** Distinct padded positions have distinct ranks. */
  lemma PaddedRankInjective(c: IVec3, d: IVec3)
    requires InPadded(c) && InPadded(d) && PaddedRank(c) == PaddedRank(d)
    ensures c == d
  {
    assert c.x == d.x by {
      assert 324 * (c.x - d.x) == 18 * (d.y - c.y) + (d.z - c.z);
    }
    assert c.y == d.y by {
      assert 18 * (c.y - d.y) == d.z - c.z;
    }
  }

  /** The walk visits every padded position, at the step given by its rank. */
  lemma PaddedCellRank(c: IVec3)
    requires InPadded(c)
    ensures 0 <= PaddedRank(c) < VOXEL_COUNT && PaddedCell(PaddedRank(c)) == c
  {
    PaddedCellAt(PaddedRank(c));
    PaddedRankInjective(c, PaddedCell(PaddedRank(c)));
  }

  /** A terrain generator: the voxel for each world position. */
  type Generator = IVec3 -> Voxel

  /** The world position asked of the generator for padded position c of the
      chunk at offset: the chunk's origin, plus c, minus one on each axis. */
  function GeneratedAt(offset: IVec3, c: IVec3): IVec3
  {
    IVec3(16 * offset.x + c.x - 1, 16 * offset.y + c.y - 1, 16 * offset.z + c.z - 1)
  }

  /** A fresh array: every slot air. */
  function AllAir(): (s: seq<Voxel>)
    ensures |s| == VOXEL_COUNT
    ensures forall i :: 0 <= i < |s| ==> s[i] == AIR
  {
    seq(5832, _ => AIR)
  }

  /** The array after the first n steps of the walk: each step stores the
      generated voxel in the slot of its position, over whatever was there. */
  ghost function Writes(offset: IVec3, gen: Generator, n: nat): (s: seq<Voxel>)
    requires n <= VOXEL_COUNT
    ensures |s| == VOXEL_COUNT
  {
    if n == 0 then AllAir()
    else Writes(offset, gen, n - 1)[StepSlot(n - 1) := gen(GeneratedAt(offset, PaddedCell(n - 1)))]
  }

  /** None of the first n generated voxels has a shape. */
  ghost function NoneShaped(offset: IVec3, gen: Generator, n: nat): bool
    requires n <= VOXEL_COUNT
  {
    n == 0 || (NoneShaped(offset, gen, n - 1) && gen(GeneratedAt(offset, PaddedCell(n - 1))).shape == Empty)
  }

  /** One step of the walk: step n visits padded position c. */
  lemma WalkStepAt(offset: IVec3, gen: Generator, c: IVec3, n: nat)
    requires InPadded(c) && n == PaddedRank(c)
    ensures n < VOXEL_COUNT
    ensures Writes(offset, gen, n + 1) == Writes(offset, gen, n)[Slot(c) := gen(GeneratedAt(offset, c))]
    ensures NoneShaped(offset, gen, n + 1) == (NoneShaped(offset, gen, n) && gen(GeneratedAt(offset, c)).shape == Empty)
  {
    PaddedCellRank(c);
  }

  /** Storing the voxel generated for the position of step n, in that
      position's slot, turns the array after n steps into the array after
      n + 1 steps; clearing the flag when that voxel has a shape turns the
      flag after n steps into the flag after n + 1 steps. */
  lemma StoreStep(offset: IVec3, gen: Generator, c: IVec3, n: nat, before: seq<Voxel>, after: seq<Voxel>, empty: bool, empty': bool)
    requires InPadded(c) && n == PaddedRank(c) && before == Writes(offset, gen, n) && empty == NoneShaped(offset, gen, n)
    requires after == before[Slot(c) := gen(GeneratedAt(offset, c))]
    requires empty' == (empty && gen(GeneratedAt(offset, c)).shape == Empty)
    ensures n < VOXEL_COUNT && after == Writes(offset, gen, n + 1) && empty' == NoneShaped(offset, gen, n + 1)
  {
    WalkStepAt(offset, gen, c, n);
  }

  /** The flag after n steps says exactly that every voxel generated so far,
      including the ones later overwritten, has no shape. */
  lemma {:induction false} NoneShapedExactly(offset: IVec3, gen: Generator, n: nat)
    requires n <= VOXEL_COUNT
    ensures NoneShaped(offset, gen, n)
        <==> forall c :: InPadded(c) && PaddedRank(c) < n ==> gen(GeneratedAt(offset, c)).shape == Empty
  {
    if n > 0 {
      NoneShapedExactly(offset, gen, n - 1);
      PaddedCellAt(n - 1);
      var last := PaddedCell(n - 1);
      forall c | InPadded(c) && PaddedRank(c) == n - 1
        ensures c == last
      {
        PaddedCellRank(c);
      }
    }
  }

  /** The last write to a slot decides it: when no step after c's and
      before step n writes c's slot, the slot holds c's voxel. */
  lemma {:induction false} WritesLastWins(offset: IVec3, gen: Generator, n: nat, c: IVec3)
    requires n <= VOXEL_COUNT && InPadded(c) && PaddedRank(c) < n
    requires forall k :: PaddedRank(c) < k < n ==> StepSlot(k) != Slot(c)
    ensures Writes(offset, gen, n)[Slot(c)] == gen(GeneratedAt(offset, c))
  {
    PaddedCellRank(c);
    if PaddedRank(c) < n - 1 {
      WritesLastWins(offset, gen, n - 1, c);
    }
  }

  /** A slot that no step before step n writes is still air. */
  lemma {:induction false} WritesUntouched(offset: IVec3, gen: Generator, n: nat, s: int)
    requires n <= VOXEL_COUNT && 0 <= s < VOXEL_COUNT
    requires forall k :: 0 <= k < n ==> StepSlot(k) != s
    ensures Writes(offset, gen, n)[s] == AIR
  {
    if n > 0 {
      WritesUntouched(offset, gen, n - 1, s);
    }
  }

  /** After the walk, slots past 4641 are still air. */
  lemma TailStaysAir(offset: IVec3, gen: Generator, s: int)
    requires 4641 < s < VOXEL_COUNT
    ensures Writes(offset, gen, VOXEL_COUNT)[s] == AIR
  {
    forall k | 0 <= k < VOXEL_COUNT
      ensures StepSlot(k) != s
    {
      PaddedCellAt(k);
    }
    WritesUntouched(offset, gen, VOXEL_COUNT, s);
  }

  /** After the walk, a padded position with x and y both at least 2 holds
      its own generated voxel: no later position shares its slot. */
  lemma GeneratedCellKept(offset: IVec3, gen: Generator, c: IVec3)
    requires InPadded(c) && c.x >= 2 && c.y >= 2
    ensures Writes(offset, gen, VOXEL_COUNT)[Slot(c)] == gen(GeneratedAt(offset, c))
  {
    PaddedCellRank(c);
    forall k | PaddedRank(c) < k < VOXEL_COUNT
      ensures StepSlot(k) != Slot(c)
    {
      PaddedCellAt(k);
      if StepSlot(k) == Slot(c) {
        SharedSlotEarlier(c, PaddedCell(k));
      }
    }
    WritesLastWins(offset, gen, VOXEL_COUNT, c);
  }

  /** Two padded positions sharing a slot, the first with x and y at least 2:
      the second is visited no later than the first. */
  lemma SharedSlotEarlier(c: IVec3, d: IVec3)
    requires InPadded(c) && InPadded(d) && c.x >= 2 && c.y >= 2
    requires Slot(d) == Slot(c)
    ensures PaddedRank(d) <= PaddedRank(c)
  {
    // The slots agree modulo 16, so the x components are equal or d's is
    // 16 lower; the same then holds for the y components.
    assert d.x - c.x == 16 * ((c.y - d.y) + 16 * (c.z - d.z));
    if d.x == c.x {
      assert d.y - c.y == 16 * (c.z - d.z);
    }
  }

  /** The walk's aliasing in action: slot 16, which get_at reads for padded
      position (0, 1, 0), ends up holding the voxel generated for padded
      position (16, 0, 0), because that position is visited later. */
  lemma Slot16HoldsFarVoxel(offset: IVec3, gen: Generator)
    ensures Writes(offset, gen, VOXEL_COUNT)[Slot(IVec3(0, 1, 0))] == gen(GeneratedAt(offset, IVec3(16, 0, 0)))
  {
    var c := IVec3(16, 0, 0);
    PaddedCellRank(c);
    forall k | PaddedRank(c) < k < VOXEL_COUNT
      ensures StepSlot(k) != Slot(c)
    {
      PaddedCellAt(k);
      var d := PaddedCell(k);
      assert InPadded(d) && PaddedRank(d) == k;
    }
    WritesLastWins(offset, gen, VOXEL_COUNT, c);
  }
}
