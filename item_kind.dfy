/**
 * The item kinds of the game (src/item_kind.rs): a 38-variant enum, the sound
 * category each kind plays and its position in the 16-column block atlas.
 */
module Items {
  import opened Wrappers

  /** Sound categories a block can play. */
  datatype BlockSoundType = Cloth | Dirt | Gravel | Sand | Stone | Wood

  /** Every kind of item, in declaration order; the first variant, `Dirt`, is the default. */
  datatype ItemKind =
    // row 1
    | Dirt | Grass | Stone | Cobblestone | Deepslate | CobbledDeepslate | Bedrock | HayBale
    | OakLog | LeafedOakLog | OakPlank | Leaves | OakSapling | CraftingTable | Furnace | FurnaceBurning
    // row 2
    | Sand | Sandstone | RedSand | RedSandstone | Cactus | RedTulip
    // row 3
    | CoalOre | CoalOreDeepslate | CopperOre | CopperOreDeepslate | IronOre | IronOreDeepslate
    | GoldOre | GoldOreDeepslate | LapisOre | LapisOreDeepslate | RedstoneOre | RedstoneOreDeepslate
    | EmraldOre | EmraldOreDeepslate | DiamondOre | DiamondOreDeepslate

  /** `#[default]`: the kind a fresh inventory slot holds. */
  const DefaultKind: ItemKind := ItemKind.Dirt

  /** Atlas width: each sprite row of the block texture holds this many kinds. */
  const AtlasColumns: nat := 16

  // ---------------------------------------------------------------------------
  // The three tables of the source
  // ---------------------------------------------------------------------------

  /** `is_block`: a single wildcard arm, so every kind is a block. */
  predicate IsBlock(k: ItemKind)
  {
    match k
    case _ => true
  }

  /**
   * `get_sound_type`. The source ends its match with `_ => None`; every variant
   * is already listed, so that arm can never be taken and is left out here
   * (Dafny rejects a match arm that no value reaches).
   */
  function GetSoundType(k: ItemKind): (r: Option<BlockSoundType>)
    ensures r.Some? ==> r.value != Gravel
  {
    if !IsBlock(k) then None
    else
      match k
      case OakSapling | RedTulip | Cactus => Some(Cloth)
      case Dirt | Grass | HayBale | Leaves => Some(BlockSoundType.Dirt)
      case Sand | RedSand => Some(BlockSoundType.Sand)
      case Stone | Cobblestone | Deepslate | CobbledDeepslate | Bedrock | Furnace
        | FurnaceBurning | Sandstone | RedSandstone | CoalOre | CoalOreDeepslate
        | CopperOre | CopperOreDeepslate | IronOre | IronOreDeepslate | GoldOre
        | GoldOreDeepslate | LapisOre | LapisOreDeepslate | RedstoneOre
        | RedstoneOreDeepslate | EmraldOre | EmraldOreDeepslate | DiamondOre
        | DiamondOreDeepslate => Some(BlockSoundType.Stone)
      case OakLog | LeafedOakLog | OakPlank | CraftingTable => Some(Wood)
  }

  /** `to_index`: the kind's cell in the block atlas, counted row by row. */
  function ToIndex(k: ItemKind): (r: nat)
    ensures r < 3 * AtlasColumns
  {
    match k
    // row 1
    case Dirt => 0
    case Grass => 1
    case Stone => 2
    case Cobblestone => 3
    case Deepslate => 4
    case CobbledDeepslate => 5
    case Bedrock => 6
    case HayBale => 7
    case OakLog => 8
    case LeafedOakLog => 9
    case OakPlank => 10
    case Leaves => 11
    case OakSapling => 12
    case CraftingTable => 13
    case Furnace => 14
    case FurnaceBurning => 15
    // row 2
    case Sand => 16
    case Sandstone => 17
    case RedSand => 18
    case RedSandstone => 19
    case Cactus => 20
    case RedTulip => 21
    // row 3
    case CoalOre => 32
    case CoalOreDeepslate => 33
    case CopperOre => 34
    case CopperOreDeepslate => 35
    case IronOre => 36
    case IronOreDeepslate => 37
    case GoldOre => 38
    case GoldOreDeepslate => 39
    case LapisOre => 40
    case LapisOreDeepslate => 41
    case RedstoneOre => 42
    case RedstoneOreDeepslate => 43
    case EmraldOre => 44
    case EmraldOreDeepslate => 45
    case DiamondOre => 46
    case DiamondOreDeepslate => 47
  }

  // ---------------------------------------------------------------------------
  // Independent descriptions of the atlas layout
  // ---------------------------------------------------------------------------

  /** The atlas row a kind is declared under (0, 1 or 2). */
  function Row(k: ItemKind): nat
  {
    match k
    case Dirt | Grass | Stone | Cobblestone | Deepslate | CobbledDeepslate | Bedrock | HayBale
      | OakLog | LeafedOakLog | OakPlank | Leaves | OakSapling | CraftingTable | Furnace | FurnaceBurning => 0
    case Sand | Sandstone | RedSand | RedSandstone | Cactus | RedTulip => 1
    case _ => 2
  }

  /** The kinds of each atlas row, in declaration order. */
  function RowKinds(row: nat): seq<ItemKind>
  {
    if row == 0 then
      [ItemKind.Dirt, Grass, ItemKind.Stone, Cobblestone, Deepslate, CobbledDeepslate, Bedrock, HayBale,
       OakLog, LeafedOakLog, OakPlank, Leaves, OakSapling, CraftingTable, Furnace, FurnaceBurning]
    else if row == 1 then
      [ItemKind.Sand, Sandstone, RedSand, RedSandstone, Cactus, RedTulip]
    else if row == 2 then
      [CoalOre, CoalOreDeepslate, CopperOre, CopperOreDeepslate, IronOre, IronOreDeepslate,
       GoldOre, GoldOreDeepslate, LapisOre, LapisOreDeepslate, RedstoneOre, RedstoneOreDeepslate,
       EmraldOre, EmraldOreDeepslate, DiamondOre, DiamondOreDeepslate]
    else []
  }

  /** Plain ore kinds, each with a Deepslate counterpart. */
  predicate IsPlainOre(k: ItemKind)
  {
    match k
    case CoalOre | CopperOre | IronOre | GoldOre | LapisOre | RedstoneOre | EmraldOre | DiamondOre => true
    case _ => false
  }

  /** The Deepslate counterpart of a plain ore. */
  function DeepslateVariant(k: ItemKind): ItemKind
    requires IsPlainOre(k)
  {
    match k
    case CoalOre => CoalOreDeepslate
    case CopperOre => CopperOreDeepslate
    case IronOre => IronOreDeepslate
    case GoldOre => GoldOreDeepslate
    case LapisOre => LapisOreDeepslate
    case RedstoneOre => RedstoneOreDeepslate
    case EmraldOre => EmraldOreDeepslate
    case DiamondOre => DiamondOreDeepslate
  }

  /** Every ore kind, plain or Deepslate. */
  predicate IsOre(k: ItemKind)
  {
    IsPlainOre(k) || exists p :: IsPlainOre(p) && DeepslateVariant(p) == k
  }

  /** The inverse of `ToIndex`: which kind, if any, sits at an atlas cell. */
  function FromIndex(i: nat): Option<ItemKind>
  {
    var row := i / AtlasColumns;
    var col := i % AtlasColumns;
    if col < |RowKinds(row)| then Some(RowKinds(row)[col]) else None
  }

  // ---------------------------------------------------------------------------
  // Properties of the tables
  // ---------------------------------------------------------------------------

  /**
   * `to_index` lays the kinds out row-major in declaration order: a kind of
   * atlas row `Row(k)` sits at column c of that row exactly when it is the c-th
   * kind declared under that row.
   */
  lemma AtlasLayout(k: ItemKind)
    ensures ToIndex(k) / AtlasColumns == Row(k)
    ensures ToIndex(k) % AtlasColumns < |RowKinds(Row(k))|
    ensures RowKinds(Row(k))[ToIndex(k) % AtlasColumns] == k
  {
    match k
    case Dirt => case Grass => case Stone => case Cobblestone => case Deepslate =>
    case CobbledDeepslate => case Bedrock => case HayBale => case OakLog =>
    case LeafedOakLog => case OakPlank => case Leaves => case OakSapling =>
    case CraftingTable => case Furnace => case FurnaceBurning =>
    case Sand => case Sandstone => case RedSand => case RedSandstone => case Cactus =>
    case RedTulip =>
    case CoalOre => case CoalOreDeepslate => case CopperOre => case CopperOreDeepslate =>
    case IronOre => case IronOreDeepslate => case GoldOre => case GoldOreDeepslate =>
    case LapisOre => case LapisOreDeepslate => case RedstoneOre => case RedstoneOreDeepslate =>
    case EmraldOre => case EmraldOreDeepslate => case DiamondOre => case DiamondOreDeepslate =>
  }

  /** Reading the atlas cell of a kind gives that kind back. */
  lemma IndexRoundTrip(k: ItemKind)
    ensures FromIndex(ToIndex(k)) == Some(k)
  {
    AtlasLayout(k);
  }

  /** Distinct kinds never share an atlas cell. */
  lemma ToIndexInjective(a: ItemKind, b: ItemKind)
    ensures ToIndex(a) == ToIndex(b) ==> a == b
  {
    IndexRoundTrip(a);
    IndexRoundTrip(b);
  }

  /**
   * Row 1 occupies cells 0..15, row 2 cells 16..21 and row 3 cells 32..47;
   * cells 22..31 and everything past 47 stay unused.
   */
  lemma IndexRanges(k: ItemKind)
    ensures Row(k) == 0 ==> 0 <= ToIndex(k) <= 15
    ensures Row(k) == 1 ==> 16 <= ToIndex(k) <= 21
    ensures Row(k) == 2 ==> 32 <= ToIndex(k) <= 47
    ensures !(22 <= ToIndex(k) <= 31) && ToIndex(k) <= 47
  {
    AtlasLayout(k);
  }

  /** Each plain ore has an even cell and its Deepslate variant the next one. */
  lemma OreIndexPairing(k: ItemKind)
    requires IsPlainOre(k)
    ensures ToIndex(k) % 2 == 0
    ensures ToIndex(DeepslateVariant(k)) == ToIndex(k) + 1
  {
  }

  /** `is_block` holds of every kind, so `get_sound_type` always answers `Some`. */
  lemma SoundTypeTotal(k: ItemKind)
    ensures IsBlock(k)
    ensures GetSoundType(k).Some?
  {
  }

  /** The categories `get_sound_type` produces are exactly those other than `Gravel`. */
  lemma SoundTypeImage(t: BlockSoundType)
    ensures (exists k :: GetSoundType(k) == Some(t)) <==> t != Gravel
  {
    match t
    case Cloth => assert GetSoundType(Cactus) == Some(t);
    case Dirt => assert GetSoundType(ItemKind.Dirt) == Some(t);
    case Gravel =>
    case Sand => assert GetSoundType(ItemKind.Sand) == Some(t);
    case Stone => assert GetSoundType(ItemKind.Stone) == Some(t);
    case Wood => assert GetSoundType(OakLog) == Some(t);
  }

  /** Every ore, plain or Deepslate, sounds like stone. */
  lemma OresSoundLikeStone(k: ItemKind)
    requires IsOre(k)
    ensures GetSoundType(k) == Some(BlockSoundType.Stone)
  {
    if IsPlainOre(k) {
      OrePairSoundsLikeStone(k);
    } else {
      var p :| IsPlainOre(p) && DeepslateVariant(p) == k;
      OrePairSoundsLikeStone(p);
    }
  }

  /** A plain ore and its Deepslate variant both make the stone sound. */
  lemma OrePairSoundsLikeStone(p: ItemKind)
    requires IsPlainOre(p)
    ensures GetSoundType(p) == Some(BlockSoundType.Stone)
    ensures GetSoundType(DeepslateVariant(p)) == Some(BlockSoundType.Stone)
  {
    match p
    case CoalOre => case CopperOre => case IronOre => case GoldOre =>
    case LapisOre => case RedstoneOre => case EmraldOre => case DiamondOre =>
  }

  /** The default kind is `Dirt`: atlas cell 0, dirt sound. */
  lemma DefaultKindFacts()
    ensures DefaultKind == ItemKind.Dirt
    ensures ToIndex(DefaultKind) == 0
    ensures GetSoundType(DefaultKind) == Some(BlockSoundType.Dirt)
  {
  }
}
