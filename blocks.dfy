/** Block types, per-type static data and the block registry. */
module Blocks {
  import opened Options

  /** A compact registry-issued block id (a u8). */
  type BlockId = x: int | 0 <= x < 256

  /** One placed block. */
  datatype BlockType = BlockType(id: BlockId)

  /** The content of one cell: None is air. */
  type BlockData = Option<BlockType>

  /** This model's numbering of the four block types the registry and the
      terrain generator name. The repository's own id constants are strings
      (src/world/block/excavatemanufacturate_blocks.rs:4-6), which do not
      match the u8 key type, and STONE is used (src/world/block/registry.rs:58,
      src/world/worldgen.rs:43) but declared nowhere. */
  const GRASS: BlockId := 0
  const DIRT: BlockId := 1
  const BEDROCK: BlockId := 2
  const STONE: BlockId := 3

  /** Which texture of a block a face shows. */
  datatype BlockFace = Top | Side | Bottom

  /** A rectangle of the texture atlas, in texels (u16 pairs). */
  datatype AtlasCoordinates = AtlasCoordinates(min: (nat, nat), max: (nat, nat))

  /** Texture regions per face class; sides and bottom default to the top. */
  datatype BlockTextures = BlockTextures(
    top: AtlasCoordinates,
    sides: Option<AtlasCoordinates>,
    bottom: Option<AtlasCoordinates>)

  datatype BlockHardnessLevel = Hand | ToolStrength(level: nat) | Unbreakable

  datatype StaticBlockData = StaticBlockData(textures: BlockTextures, hardness: BlockHardnessLevel)

  /** The process-wide catalogue of block types; read-only after start-up. */
  datatype BlockRegistry = BlockRegistry(staticBlockData: map<BlockId, StaticBlockData>, atlasSize: (nat, nat))

  /** Textures for a block whose faces all look the same. */
  function FromSingle(atlasCoordinates: AtlasCoordinates): (t: BlockTextures)
    ensures forall face :: GetCoords(t, face) == atlasCoordinates
  {
    BlockTextures(atlasCoordinates, None, None)
  }

  /** The atlas region a face shows: its own when set, the top's otherwise. */
  function GetCoords(t: BlockTextures, face: BlockFace): (c: AtlasCoordinates)
    ensures face == Top ==> c == t.top
    ensures face == Side && t.sides.None? ==> c == t.top
    ensures face == Side && t.sides.Some? ==> c == t.sides.value
    ensures face == Bottom && t.bottom.None? ==> c == t.top
    ensures face == Bottom && t.bottom.Some? ==> c == t.bottom.value
  {
    match face
    case Top => t.top
    case Side => if t.sides.Some? then t.sides.value else t.top
    case Bottom => if t.bottom.Some? then t.bottom.value else t.top
  }

  /** A face shows a texture the block's data names: top, sides or bottom. */
  lemma GetCoordsIsDeclared(t: BlockTextures, face: BlockFace)
    ensures GetCoords(t, face) == t.top || Some(GetCoords(t, face)) == t.sides || Some(GetCoords(t, face)) == t.bottom
  {
  }

  /** Static data of a registered id; an unknown id is a fatal error in the
      source, hence the precondition. */
  function GetBlockData(registry: BlockRegistry, id: BlockId): (d: StaticBlockData)
    requires id in registry.staticBlockData
    ensures (id, d) in registry.staticBlockData.Items
  {
    registry.staticBlockData[id]
  }

  /** A fresh block of a registered type; None for an unknown id. */
  function CreateBlock(registry: BlockRegistry, id: BlockId): (b: Option<BlockType>)
    ensures b.Some? <==> id in registry.staticBlockData
    ensures b.Some? ==> b.value.id == id
  {
    if id in registry.staticBlockData then Some(BlockType(id)) else None
  }
}
