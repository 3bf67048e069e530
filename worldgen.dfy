/** Overworld terrain: which block a world position holds, chosen by bands of
    a height value. The noise behind the height is an uninterpreted function
    of the column (x, z); only the band selection around it is modelled. */
module Worldgen {
  import opened Options
  import opened Coords
  import opened Blocks

  /** The hill term the simplex noise adds to y in column (x, z). */
  type Hills = (int, int) -> real

  /** The ground level the bands are measured from. */
  const BASE_GROUND_LEVEL: real := 30.0

  /** The ids terrain generation asks the registry for; unwrapping an
      unregistered one is a fatal error in the source. */
  predicate KnowsTerrain(registry: BlockRegistry)
  {
    GRASS in registry.staticBlockData && DIRT in registry.staticBlockData && STONE in registry.staticBlockData
  }

  /** The block the overworld generator places at a position. */
  function TerrainNoise(pos: BlockPos, registry: BlockRegistry, hills: Hills): (b: BlockData)
    requires KnowsTerrain(registry)
    ensures pos.y < 0 ==> b == None
    ensures pos.y == 0 ==> b == Some(BlockType(GRASS))
  {
    if pos.y < 0 then None
    else if pos.y == 0 then CreateBlock(registry, GRASS)
    else
      var noise := pos.y as real + hills(pos.x, pos.z);
      if noise < BASE_GROUND_LEVEL - 10.0 then CreateBlock(registry, STONE)
      else if noise < BASE_GROUND_LEVEL - 1.0 then CreateBlock(registry, DIRT)
      else if noise < BASE_GROUND_LEVEL then CreateBlock(registry, GRASS)
      else None
  }

  /** The layers of a column, from the bottom up. */
  datatype Band = Stone | Dirt | Grass | Air

  /** Depth of a band below the surface: stone lies deepest. */
  function Depth(b: Band): nat
  {
    match b
    case Stone => 3
    case Dirt => 2
    case Grass => 1
    case Air => 0
  }

  /** The band a block belongs to, for the four outcomes terrain can have. */
  function BandOf(b: BlockData): Band
  {
    if b == Some(BlockType(STONE)) then Stone
    else if b == Some(BlockType(DIRT)) then Dirt
    else if b == Some(BlockType(GRASS)) then Grass
    else Air
  }

  /** Above y = 0 the height value n = y + hills(x, z) picks the band: below
      20 stone, below 29 dirt, below 30 grass, air from 30 up; these are the
      only outcomes and each range yields exactly one of them. */
  lemma AboveGroundBands(pos: BlockPos, registry: BlockRegistry, hills: Hills)
    requires KnowsTerrain(registry) && pos.y > 0
    ensures var n := pos.y as real + hills(pos.x, pos.z);
            var b := TerrainNoise(pos, registry, hills);
            && (b == Some(BlockType(STONE)) <==> n < 20.0)
            && (b == Some(BlockType(DIRT)) <==> 20.0 <= n < 29.0)
            && (b == Some(BlockType(GRASS)) <==> 29.0 <= n < 30.0)
            && (b == None <==> 30.0 <= n)
  {
  }

  /** Every position holds stone, dirt, grass or air, and nothing else. */
  lemma TerrainOutcomes(pos: BlockPos, registry: BlockRegistry, hills: Hills)
    requires KnowsTerrain(registry)
    ensures var b := TerrainNoise(pos, registry, hills);
            b in {None, Some(BlockType(STONE)), Some(BlockType(DIRT)), Some(BlockType(GRASS))}
  {
  }

  /** Going up a column above y = 0, the bands never get deeper again:
      stone, then dirt, then grass, then air. */
  lemma ColumnBandsInOrder(x: int, z: int, lower: int, upper: int, registry: BlockRegistry, hills: Hills)
    requires KnowsTerrain(registry) && 0 < lower <= upper
    ensures Depth(BandOf(TerrainNoise(BlockPos(x, upper, z), registry, hills)))
         <= Depth(BandOf(TerrainNoise(BlockPos(x, lower, z), registry, hills)))
  {
    assert lower as real <= upper as real;
  }

  /** x and z matter only through the hill term of their column: two
      positions at one height whose columns have equal hill terms hold the
      same block. */
  lemma ColumnOnlyThroughHills(p: BlockPos, q: BlockPos, registry: BlockRegistry, h1: Hills, h2: Hills)
    requires KnowsTerrain(registry)
    requires p.y == q.y && h1(p.x, p.z) == h2(q.x, q.z)
    ensures TerrainNoise(p, registry, h1) == TerrainNoise(q, registry, h2)
  {
  }

  /** Air never lies below grass level in a column: once a column turns to
      air above y = 0, it stays air all the way up. */
  lemma AirStaysAir(x: int, z: int, lower: int, upper: int, registry: BlockRegistry, hills: Hills)
    requires KnowsTerrain(registry) && 0 < lower <= upper
    requires TerrainNoise(BlockPos(x, lower, z), registry, hills) == None
    ensures TerrainNoise(BlockPos(x, upper, z), registry, hills) == None
  {
    assert lower as real <= upper as real;
  }
}
