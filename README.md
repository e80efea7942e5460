# minecraft-2d: inventory, item kinds and range remap in Dafny

This project models three self-contained pieces of the 2D Minecraft clone
`minecraft-2d` and proves properties of them.

- **The player inventory** (`src/inventory.rs`). `Inventory<N, M>` is a fixed
  array of `N` optional stacks. Each stack holds one item kind and at most `M`
  items. `add` tops up a stack of the kind or fills empty slots, recursing on
  what is left. `retrieve` takes from the first stack of the kind. Both report
  `None`, `InvalidRetrieval` or `Overflow` (`InventoryOpError`).
  - `inventory.dfy` models the type as a class over an `array` with `Add` and
    `Retrieve` methods. Each method is proved equal to a function of the slots
    (`AddSpec`, `RetrieveSpec`), and the lemmas are stated about those functions.
  - `usize` arithmetic follows a debug build. An addition past `2^64 - 1` or a
    subtraction below zero panics, which the model records as the outcome
    `Panicked`.
  - Both loops that walk `self.0.clone()` are kept as walks over a copy.
    `Retrieve` has no `modifies` clause at all, which proves it never changes
    the inventory.
- **The item-kind tables** (`src/item_kind.rs`). `item_kind.dfy` holds the
  38-variant `ItemKind` and `BlockSoundType` as datatypes, and `is_block`,
  `get_sound_type` and `to_index` as functions. The atlas layout is proved
  against an independent description: the kinds of each atlas row, in
  declaration order.
- **The range remap** (`src/utils.rs`). `map(x, a, b, c, d)` is
  `(x - a) / (b - a) * (d - c) + c`. `utils.dfy` instantiates it over `int`
  with Rust's truncating division, and over `real`.

`inventory_intended.dfy` holds the corrected `add` and `retrieve` described
under "## Findings", with what they are meant to guarantee proved.
`wrappers.dfy` holds the `Option` type.

## Model

| member | source | states |
|---|---|---|
| Items.IsBlock | src/item_kind.rs:60-64 | `is_block` is a single wildcard arm; it has no contract of its own, and `Items.SoundTypeTotal` proves it holds of every kind |
| Items.GetSoundType | src/item_kind.rs:66-85 | the sound category returned is never `Gravel` |
| Items.ToIndex | src/item_kind.rs:87-132 | every atlas index lies in the first three 16-cell rows (below 48) |
| Items.AtlasLayout | src/item_kind.rs:87-132 | `to_index` is row-major in declaration order: the index divided by 16 is the kind's atlas row, and the index mod 16 is the kind's position among that row's kinds |
| Items.IndexRoundTrip | src/item_kind.rs:87-132 | reading back the atlas cell of any kind gives that kind |
| Items.ToIndexInjective | src/item_kind.rs:87-132 | distinct kinds never share an atlas index |
| Items.IndexRanges | src/item_kind.rs:90-130 | row 1 is on 0..15, row 2 on 16..21, row 3 on 32..47; nothing maps to 22..31 or past 47 |
| Items.OreIndexPairing | src/item_kind.rs:115-130 | each plain ore has an even index, and its Deepslate variant has the next one |
| Items.SoundTypeTotal | src/item_kind.rs:60-85 | `is_block` holds of every kind, so `get_sound_type` always answers `Some` |
| Items.SoundTypeImage | src/item_kind.rs:66-85 | a category is produced by some kind exactly when it is not `Gravel` |
| Items.OresSoundLikeStone | src/item_kind.rs:76-81 | every ore, plain or Deepslate, has the `Stone` sound |
| Items.OrePairSoundsLikeStone | src/item_kind.rs:76-81 | a plain ore and its Deepslate variant both have the `Stone` sound |
| Items.DefaultKindFacts | src/item_kind.rs:13-17 | the default kind is `Dirt`, at atlas index 0, with the `Dirt` sound |
| Utils.TruncDiv | src/utils.rs:11 | Rust's `/` on an integer `T`; no contract of its own: `Utils.TruncDivRemainder` and `Utils.TruncDivSmall` pin it down as division truncating toward zero |
| Utils.TruncDivRemainder | src/utils.rs:11 | integer `/` truncates toward zero: the remainder is smaller than the divisor in magnitude and never has the opposite sign of the dividend |
| Utils.TruncDivSmall | src/utils.rs:11 | a dividend smaller in magnitude than the divisor gives quotient 0 |
| Utils.MapInt | src/utils.rs:3-11 | `map` over `int`; no contract of its own: `Utils.MapIntEndpoints`, `Utils.MapIntCollapses` and `Utils.MapIntRange` state its endpoints and its range |
| Utils.MapIntEndpoints | src/utils.rs:11 | over `int`, `map(a) == c` and `map(b) == d` whenever `a != b` |
| Utils.MapIntCollapses | src/utils.rs:11 | over `int`, every `x` strictly closer to `a` than `b` maps to `c` |
| Utils.MapIntRange | src/utils.rs:3-11 | over `int`, for `a < b` and `a <= x <= b` the result is `c` except at `b`, where it is `d`; with `c <= d` it lies in `[c, d]` as the doc comment says |
| Utils.MapReal | src/utils.rs:11 | over `real`, `(x, map(x))` lies on the line through `(a, c)` and `(b, d)` |
| Utils.MapRealEndpoints | src/utils.rs:11 | over `real`, `map(a) == c` and `map(b) == d` |
| Utils.MapRealRange | src/utils.rs:3-11 | over `real`, for `a < b`, `c <= d` and `a <= x <= b` the result lies in `[c, d]` |
| Utils.MapRealMonotone | src/utils.rs:11 | over `real`, for `a < b` and `c <= d` the result never decreases as `x` grows |
| Utils.MapRealRoundTrip | src/utils.rs:11 | over `real`, mapping `[a, b]` onto `[c, d]` and back returns `x` when `c != d` |
| Inventories.FirstMatch | src/inventory.rs:50-56 | the slot a walk stops at is in range and passes the walk's test |
| Inventories.FirstMatchNone | src/inventory.rs:50-56 | a walk runs to its end exactly when no slot passes its test |
| Inventories.FirstMatchIsFirst | src/inventory.rs:50-56 | no slot before the one a walk stops at passes its test |
| Inventories.FirstMatchAt | src/inventory.rs:50-56 | a passing slot with no passing slot before it is where the walk stops |
| Inventories.AddSpec | src/inventory.rs:49-79 | `add` keeps the number of slots and never reports `InvalidRetrieval` |
| Inventories.RetrieveSpec | src/inventory.rs:81-104 | `retrieve` never reports `Overflow` |
| Inventories.DefaultSlots | src/inventory.rs:107-110 | `[Some(default()); N]` has exactly `N` slots; `Inventories.DefaultHasNoEmptySlot` proves none of them is empty |
| Inventories.Inventory.constructor | src/inventory.rs:107-110 | `default()` gives `N` slots, each `Some` of the default stack (default kind, 0 items), so no slot is empty |
| Inventories.PluginInventory | src/inventory.rs:7-19 | the installed resource is a fresh, valid inventory of `INVENTORY_SIZE` (36) default slots with stacks of `SLOT_SIZE` (64) |
| Inventories.DefaultHasNoEmptySlot | src/inventory.rs:107-110 | the default slots contain no `None` slot |
| Inventories.Inventory.Add | src/inventory.rs:49-79 | the new slots and the outcome are those of `AddSpec` on the old slots, and no stack exceeds `M` |
| Inventories.Inventory.Retrieve | src/inventory.rs:81-104 | the outcome is that of `RetrieveSpec`, and the inventory is not modified |
| Inventories.AddWrites | src/inventory.rs:49-79 | `add` changes only empty slots, each into a stack of the added kind holding at most `M`; every other slot keeps its value |
| Inventories.AddKeepsStacksBounded | src/inventory.rs:66-75 | if every stack holds at most `M` before `add`, every stack does after |
| Inventories.AddOntoPartialStack | src/inventory.rs:50-63 | with a stack of the kind below `M`, `add` leaves the slots unchanged. It returns `None` exactly when `held + q mod M` fits in a stack and nothing overflows; otherwise it panics |
| Inventories.StacksNeededIsFewest | src/inventory.rs:69-74 | the fill pass uses the fewest stacks of at most `M` that hold `q`, and at least one |
| Inventories.AddIntoEmptySlots | src/inventory.rs:66-78 | with no stack to top up, `add` succeeds exactly when there are enough empty slots, and then stores all `q` items. Otherwise it reports `Overflow` after filling every empty slot with a full stack, with no rollback |
| Inventories.FillCounts | src/inventory.rs:66-78 | the fill pass's outcome, and the empty slots it leaves |
| Inventories.FillStores | src/inventory.rs:66-78 | the fill pass stores `q` items, or one full stack per empty slot when they run out |
| Inventories.AddFillsFirstEmptySlot | src/inventory.rs:66-75 | with no stack to top up and `q <= M`, `add` puts `q` items of the kind in the first empty slot, changes no other slot and returns `None` |
| Inventories.DefaultAdd | src/inventory.rs:49-79 | on the default inventory, `add` changes nothing. It returns `None` for the default kind and `Overflow` for any other kind |
| Inventories.RetrieveOutcome | src/inventory.rs:81-104 | `retrieve` reports `InvalidRetrieval` exactly when no stack holds the kind. Otherwise it returns `None` when the first stack of the kind holds at least `M` or at least `q mod M`, and it panics on `quantity - M` in every other case |
| Inventories.DefaultRetrieve | src/inventory.rs:81-104 | on the default inventory, `retrieve` of the default kind returns `None` exactly for multiples of `M` and panics otherwise; any other kind is an `InvalidRetrieval` |
| Inventories.AddOnPartialStackLosesItems | src/inventory.rs:57-63 | adding 5 to a stack of 10 returns `None`, yet the stack still holds 10; adding 10 to a stack of 60 panics |
| Inventories.RetrieveKeepsItemsOrPanics | src/inventory.rs:89-100 | retrieving 5 from a stack of 10 returns `None` and takes nothing; retrieving 20 from stacks of 10 and 64 panics although 74 are stored |
| IntendedInventory.AddIntendedStoresAll | src/inventory.rs:49-79 | the corrected `add` succeeds exactly when there is room for all `q` items, and then stores exactly `q` more. On `Overflow` it has used all the room there was. Stacks stay within `M`, and other kinds are untouched |
| IntendedInventory.AddIntendedFills | src/inventory.rs:49-79 | the corrected `add`'s outcome, the items it stores and the room it leaves |
| IntendedInventory.AddIntendedKeepsOthers | src/inventory.rs:49-79 | the corrected `add` keeps stacks within `M` and leaves other kinds' totals alone |
| IntendedInventory.RetrieveIntendedTakesAll | src/inventory.rs:81-104 | the corrected `retrieve` succeeds exactly when a stack of the kind exists and `q` items are stored, and then removes exactly `q`. On `InvalidRetrieval` every stack of the kind has been emptied. Other kinds are untouched |
| IntendedInventory.IntendedOnLossyInputs | src/inventory.rs:49-104 | on the inputs where the code as written loses items or panics, the corrected operations store or take the requested amounts |

## Left out

- The rest of the plugin wiring: the systems `InventoryPlugin::build` registers and the `CurrentItem` resource. These are Bevy registration with no logic; only the inventory resource it inserts is modelled, by `Inventories.PluginInventory`.
- `manage_block_selection_inv` (src/inventory.rs:115-134). It is keyboard input handling over Bevy's `Input` resource.
- The other files of the repository: entity spawning with physics, asset loading, the camera, game-mode and player controls. These are framework and foreign calls.
- The terrain generator and chunk streaming. No such code exists in the repository; `src/world.rs` only spawns a fixed platform.
- `BlockKind`: `src/inventory.rs` refers to `crate::block::BlockKind`, which is not part of this model. The inventory is modelled over `ItemKind`, which has the same variant names and the default `Dirt`.
- `InventoryOpError::None` is called `NoError` here, to keep it apart from `Option`'s `None`.
- `Inventory<N, 0>`: `Valid` requires `0 < M <= USIZE_MAX`, since `M` is a `usize`. With `M = 0`, `retrieve` on a stack too small for the request recurses forever on `quantity - 0`.
- Items.GetSoundType: the final `_ => None` arm of `get_sound_type` is left out. Every variant is listed before it, so no value reaches it.
- Utils.MapInt: does not model overflow of the intermediate differences and product, because `int` is unbounded. Neither does `map` at any other integer width.
- Utils.MapReal: `real` is an exact stand-in for the `f32` instantiation. It does not model rounding.
- Inventories.Inventory.Add: models `usize` as 64 bits with debug-build panics. Release-mode wrap-around is not modelled.
- IntendedInventory.AddIntended: quantities are unbounded, so the corrected `add` has no `usize` overflow case.
- Items.FromIndex: is proved to invert `to_index` on the indices that `to_index` produces. Its behaviour on unused cells is not tied to the source, which has no inverse.

## Findings

| source | as written | input that shows it | evidently intended | confidence | as-written member | corrected member |
|---|---|---|---|---|---|---|
| src/inventory.rs:50-63 | The top-up loop walks `self.0.clone()`, so `slot.quantity += ...` changes only the copy. When the stack would overflow, it adds `M` to the stack and recurses on `quantity - M`. | A stack of 10 Dirt plus 5 Dirt returns `None`, but the inventory still holds 10. A stack of 60 Dirt and an empty slot, plus 10 Dirt: `10 - 64` underflows and the call panics. | Top up the slot itself to at most `M`, then carry only what did not fit to the next stack or empty slot. | not executed | Inventories.AddOnPartialStackLosesItems | IntendedInventory.AddIntendedStoresAll |
| src/inventory.rs:82-100 | The walk is over `self.0.clone()` and binds a copy (`Some(mut some_slot)`), so neither `*slot = None` nor `some_slot.quantity -= quantity` touches the inventory. A stack smaller than the request makes the call recurse on `quantity - M`. | Retrieving 5 Dirt from a stack of 10 returns `None` and removes nothing. Retrieving 20 Dirt from stacks of 10 and 64 panics on `20 - 64`, although 74 are stored. | Empty or reduce the slot itself, and ask only the shortfall `quantity - held` of the next stack of the kind. | not executed | Inventories.RetrieveKeepsItemsOrPanics | IntendedInventory.RetrieveIntendedTakesAll |
