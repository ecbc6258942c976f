# Stack Everything Redux — a verified model of the stack-splitting core

Stack Everything Redux is a Stardew Valley mod. It raises item stack
limits and adds a "split stack" prompt to the game's menus. Holding the
split key while right-clicking a stack opens a box that asks how many
units to take. The amount entered is then moved onto the cursor, bought,
sold or crafted, depending on the menu.

This project is a Dafny model of the mod's core. One module per source
file:

- `InventoryHandlers` (`inventory_handler.dfy`). The split engine:
  - it remembers the hovered item and decides whether the item may be split;
  - it commits a split by moving the clamped amount from the hovered stack
    onto the picked stack;
  - it keeps a cache of the inventory slots, refreshed when an int32
    fingerprint changes.
- `BuyActions` and `SellActions` (`buy_action.dfy`, `sell_action.dfy`). The
  shop's split-buy and split-sell actions:
  - the purchasable maximum, computed once per action;
  - the clamped purchase;
  - the guarded sale from a remembered slot;
  - the coin animation.
- `HandlerMappings` (`handler_mapping.dfy`). The registry from menu types
  and menu class names to shared handler instances, including the fallback
  to a registered base class.
- `GameMenuPageHandlers` (`game_menu_page_handler.dfy`). The game menu page
  handler. The crafting page's overrides are selected by a `PageKind` tag on
  the same class, which plays the role of the virtual dispatch.
- `DoDoneFishing` (`do_done_fishing_patches.dfy`). The fishing-rod
  prefix/postfix pair that puts a used-up tackle back from its own stack.
- `CanStackWithPatches` (`can_stack_with_patches.dfy`). The prefix that stops
  a dresser holding items from stacking.
- `OtherModMenus` (`other_mods.dfy`). The table of other mods' menus.
- `Config` (`config.dfy`). The configuration record and its defaults.

The game objects the mod reads and writes are in `Host` (`host.dfy`): items,
the farmer, inventory and shop menus, and pages. The .NET type information
the registry needs is in `ClrTypes` (`clr_types.dfy`). Shared helpers are in
`Common` (`common.dfy`). The mod's C# semantics are written out explicitly:
- C# `int` arithmetic wraps modulo 2^32. The model assumes the default
  compilation, which does not check overflow, so this holds outside the
  explicit `unchecked` block too; the build settings are not part of this
  model. `Wrap32` is written
  out wherever a sum can leave the int32 range: the inventory fingerprint, the
  split clamp, the moved counts and the default split `(Stack + 1) / 2`. For
  non-negative int32 stacks the core's other sums stay in range;
- integer division truncates toward zero (`CsDiv`);
- `Math.Min` and `Math.Max` are `Min` and `Max`;
- object identity is Dafny reference identity;
- a thrown exception becomes an `Outcome` value or a `threw` result.

Where the mod's behaviour and its own description differ, the model follows
the code:
- `UpdateInventoryCache` rebuilds when the fingerprint differs OR the length
  differs.
- `SplitSelectedItem` calls the native right-click before clamping the
  amount, and does so even for an amount of 0.
- The amount is clamped against the hovered item's `maxStack`.
- `BuyAction.PerformAction` lowers the amount to the held stack's headroom
  only when that headroom is positive.
- The crafting page replays a single `receiveRightClick` that does not carry
  the count.

## Model

| member | source | states |
|---|---|---|
| InventoryHandlers.HashStep | MenuHandlers/InventoryHandler.cs:100-104 | one fold step of the fingerprint stays an int32 value (unchecked wrap-around) |
| InventoryHandlers.InventoryHash | MenuHandlers/InventoryHandler.cs:92-108 | the fingerprint of any slot list is an int32 value |
| InventoryHandlers.InventoryHashDependsOnContentsOnly | MenuHandlers/InventoryHandler.cs:92-108 | slot lists that agree slot by slot on emptiness, identity hash and stack size have the same fingerprint |
| InventoryHandlers.CountNonNull | MenuHandlers/InventoryHandler.cs:75-82 | the non-empty count is at most the slot count, and it is zero exactly when every slot is empty |
| InventoryHandlers.CountNonNullAfterClear | MenuHandlers/InventoryHandler.cs:237-253 | emptying one occupied slot lowers the non-empty count by exactly one |
| InventoryHandlers.ClearFirst | MenuHandlers/InventoryHandler.cs:237-253 | removal nulls only the first slot holding the item (by reference); the list keeps its length, no other slot changes, an absent item leaves the list alone, and the non-empty count drops by one exactly when the item was present |
| InventoryHandlers.BoundsOf | MenuHandlers/InventoryHandler.cs:111-127 | the bounds are `Rectangle.Empty` without slots; otherwise they run from the first slot's top-left corner to the last slot's bottom-right corner |
| InventoryHandlers.SlotClickIsInsideBounds | MenuHandlers/InventoryHandler.cs:111-141 | a click on any slot that lies between the first and the last slot is inside the bounds |
| InventoryHandlers.DefaultSplitIsCeilingHalf | MenuHandlers/InventoryHandler.cs:231-234 | for a non-negative stack below `int.MaxValue`, `(Stack + 1) / 2` is the ceiling of half the stack; for a stack of at least two it is at least 1 and leaves something behind |
| InventoryHandlers.DefaultSplitWrapsAtIntMax | MenuHandlers/InventoryHandler.cs:231-234 | at a stack of `int.MaxValue`, `Stack + 1` wraps and the default split is -1073741824 |
| InventoryHandlers.ClampSplitAmountIsLargestFit | MenuHandlers/InventoryHandler.cs:188-193 | when the held count plus the requested part of the hovered stack fits in an `int`, the moved amount is the minimum of the non-negative request, the hovered stack and the room under the maximum; the held stack stays within the maximum and the hovered stack never goes negative |
| InventoryHandlers.ClampSplitAmountSkipsOnIntOverflow | MenuHandlers/InventoryHandler.cs:188-196 | when the held count plus the requested amount passes `int.MaxValue`, the wrapped sum is negative, the room check does not fire and the whole request is moved, so the held count wraps to a negative value; with `ClampSplitAmountIsLargestFit` this covers every held count within the maximum |
| InventoryHandlers.ClampSplitAmountBoundaries | MenuHandlers/InventoryHandler.cs:188-193 | with a maximum within `int`, a request of 0 or less moves nothing; a request for at least the whole stack moves the whole stack when it fits |
| InventoryHandlers.InventoryHandler.constructor | MenuHandlers/InventoryHandler.cs:39-41 | a new handler is not initialized, has no hovered item, empty bounds, an empty cache and zero counters |
| InventoryHandlers.InventoryHandler.Init | MenuHandlers/InventoryHandler.cs:46-60 | binds the native menu, sets the bounds to the slots' span and leaves the cache as `UpdateInventoryCache` does; the selection is untouched |
| InventoryHandlers.InventoryHandler.UpdateInventoryCache | MenuHandlers/InventoryHandler.cs:63-89 | the cache is rebuilt exactly when the fingerprint or the length differs; then it equals the live slots, the stored hash is their fingerprint and the count is their number of non-empty slots; otherwise all three are kept |
| InventoryHandlers.InventoryHandler.ComputeInventoryHash | MenuHandlers/InventoryHandler.cs:92-108 | the loop's result is the fingerprint fold (seed 17, factor 23, wrapping) of the live slots |
| InventoryHandlers.InventoryHandler.UpdateBounds | MenuHandlers/InventoryHandler.cs:111-127 | the bounds become the span of the slot buttons |
| InventoryHandlers.InventoryHandler.WasClicked | MenuHandlers/InventoryHandler.cs:130-141 | with up-to-date bounds a click is reported only for a menu with slots and only between the first slot's top-left and the last slot's bottom-right corner |
| InventoryHandlers.InventoryHandler.SelectItem | MenuHandlers/InventoryHandler.cs:144-150 | records the click position and the item the hovered-item field holds |
| InventoryHandlers.InventoryHandler.CanSplitSelectedItem | MenuHandlers/InventoryHandler.cs:153-162 | a splittable selection is a real stack; below `int.MaxValue` the default split takes at least one unit and leaves at least one behind |
| InventoryHandlers.InventoryHandler.GetDefaultSplitStackAmount | MenuHandlers/InventoryHandler.cs:231-234 | for a hovered stack from 0 to `int.MaxValue - 1` the default is half the stack rounded up; at `int.MaxValue` it wraps to a negative value |
| InventoryHandlers.InventoryHandler.MoveSplitAmount | MenuHandlers/InventoryHandler.cs:188-196 | the held count gains and the hovered count loses exactly the amount `ClampSplitAmount` allows, each wrapped to int32 |
| InventoryHandlers.InventoryHandler.CommitSplit | MenuHandlers/InventoryHandler.cs:198-211 | with no count left the hovered item's first slot is cleared and its stack kept, otherwise it takes the new count and the slots stay; the picked item takes the held count and goes to the cursor; the selection is cleared and the cache is refreshed, with the non-empty count lowered for a cleared slot; the menu, bounds and click position are kept |
| InventoryHandlers.InventoryHandler.SplitSelectedItem | MenuHandlers/InventoryHandler.cs:165-219 | (`SplitDone`) the picked stack becomes the held count plus the clamped amount, wrapped to int32, and goes to the cursor; the hovered stack loses that amount (wrapped), or, when nothing is left, its first slot is cleared and its count is kept; the selection is cleared, the menu, bounds and click position are kept, and the cache is refreshed from the resulting slots with the non-empty count adjusted for a cleared slot; only the two stack counts of the items change, their wear is kept |
| InventoryHandlers.InventoryHandler.CancelSplit | MenuHandlers/InventoryHandler.cs:222-228 | with a selection, the split `SplitDone` describes (stack counts only, wear kept) happens with the default amount; without one the handler, the hovered item, the slots, the picked item and the cursor are all unchanged |
| InventoryHandlers.InventoryHandler.RemoveItemFromInventory | MenuHandlers/InventoryHandler.cs:237-253 | the slots become `ClearFirst` of the old slots and the non-empty count drops by one exactly when the item was present |
| BuyActions.ReadPriceAndStock | MenuHandlers/ShopMenuHandlers/BuyAction.cs:123-145 | with all fields readable: the price, and `int.MaxValue` for infinite stock or the stock count otherwise; with any field missing: the item's sale price and unlimited stock |
| BuyActions.BudgetFor | MenuHandlers/ShopMenuHandlers/BuyAction.cs:149-178 | a positive price is paid in the shop currency; barter pays with the count of trade items owned at the trade count; a failed barter lookup gives budget 0 at price 1; the effective price is always at least 1 |
| BuyActions.MaxPurchasableIsLargestAffordable | MenuHandlers/ShopMenuHandlers/BuyAction.cs:174-180 | the maximum is within the stock, is affordable, and is the largest such amount: either it is the whole stock or one more unit is unaffordable |
| BuyActions.BarterLookupFailureBlocksPurchase | MenuHandlers/ShopMenuHandlers/BuyAction.cs:155-171 | a barter item whose barter fields cannot be read has a maximum of at most 0 |
| BuyActions.AffordabilityExample | MenuHandlers/ShopMenuHandlers/BuyAction.cs:174-180 | price 10, stock 4 and 25 money allow 2 units |
| BuyActions.PurchaseAmountBounds | MenuHandlers/ShopMenuHandlers/BuyAction.cs:70-86 | the amount never exceeds the request or the maximum; with headroom it fits in it; without headroom no stack limit applies |
| BuyActions.BuyAction.constructor | MenuHandlers/ShopMenuHandlers/BuyAction.cs:18-28 | eligibility is decided once; the suggested amount is the configured default capped by the maximum when the action can be performed, otherwise 0 |
| BuyActions.BuyAction.CanPerformAction | MenuHandlers/ShopMenuHandlers/BuyAction.cs:36-53 | the first call answers "eligible and the maximum is positive" and caches it; later calls return the cached answer and change nothing |
| BuyActions.BuyAction.GetMaxPurchasable | MenuHandlers/ShopMenuHandlers/BuyAction.cs:105-184 | the first call computes the maximum from the current stock and budget and caches it; later calls return the cached value |
| BuyActions.BuyAction.PerformAction | MenuHandlers/ShopMenuHandlers/BuyAction.cs:58-99 | the amount bought is the clamped request when positive, else nothing; the item leaves both shop tables exactly when a purchase happened and exhausted the stock |
| BuyActions.BuyAction.GetClickedItemIndex | MenuHandlers/ShopMenuHandlers/BuyAction.cs:202-207 | -1 when no sale button contains the point; otherwise the scroll offset plus the first button containing it |
| BuyActions.BuyAction.GetClickedShopItem | MenuHandlers/ShopMenuHandlers/BuyAction.cs:190-196 | the result is an entry of the sale list; with a non-negative scroll offset it is null exactly when no button contains the point |
| BuyActions.BuyAction.Create | MenuHandlers/ShopMenuHandlers/BuyAction.cs:213-217 | an action exists exactly when a shop entry was clicked, and it is for that entry |
| SellActions.CoinSprites | MenuHandlers/ShopMenuHandlers/SellAction.cs:134-171 | each coin adds two sprites |
| SellActions.CoinSpritesLayout | MenuHandlers/ShopMenuHandlers/SellAction.cs:134-171 | coin `j` adds a small coin delayed `j * 25` ticks and a large coin delayed `j * 50` ticks, in that order |
| SellActions.AnimationIsBounded | MenuHandlers/ShopMenuHandlers/SellAction.cs:115-120 | a sale of 1 to 50 units launches `amount / 8 + 2` coins, at most 8, so the cap of 10 never binds; a larger sale is not animated |
| SellActions.AnimationGrowsWithAmount | MenuHandlers/ShopMenuHandlers/SellAction.cs:115-120 | up to the threshold, a larger sale never gets fewer sprites |
| SellActions.SellAction.constructor | MenuHandlers/ShopMenuHandlers/SellAction.cs:23-32 | the default amount is `(Stack + 1) / 2` of the clicked stack with C#'s wrap-around: half the stack rounded up below `int.MaxValue` |
| SellActions.SellAction.CanPerformAction | MenuHandlers/ShopMenuHandlers/SellAction.cs:40-48 | when a sale is possible and the stack is below `int.MaxValue`, the default amount sells at least one unit and keeps at least one |
| SellActions.SellAction.PerformAction | MenuHandlers/ShopMenuHandlers/SellAction.cs:73-110 | the amount is lowered to the stack; a positive amount is taken from the stack only if the remembered slot still holds the item, and that slot is emptied exactly when the whole stack is sold; the coin animation is added for every positive amount |
| SellActions.SellAction.Animate | MenuHandlers/ShopMenuHandlers/SellAction.cs:113-172 | the animation list grows by exactly the sprites of the sale |
| SellActions.SellAction.Create | MenuHandlers/ShopMenuHandlers/SellAction.cs:183-195 | an action exists exactly when the item under the mouse is in a slot; it is for the first such slot, with the default amount |
| ClrTypes.SubclassIsDeeper | HandlerMapping.cs:67 | a proper ancestor sits strictly higher in the type hierarchy |
| ClrTypes.SubclassIsStrict | HandlerMapping.cs:67 | `IsSubclassOf` never holds between a type and itself |
| ClrTypes.SubclassIsTransitive | HandlerMapping.cs:67 | `IsSubclassOf` is transitive |
| ClrTypes.SubclassIsAsymmetric | HandlerMapping.cs:67 | two types are never each other's subclasses |
| HandlerMappings.ResolveTypeFindsAncestor | HandlerMapping.cs:58-74 | an exact registration wins; otherwise a handler is found exactly when a registered key is a proper ancestor, and it is that ancestor's handler |
| HandlerMappings.ResolveTypeGoesUpOnly | HandlerMapping.cs:58-74 | in a registry whose only key is a base class, that handler serves the class and its subclasses and never its ancestors |
| HandlerMappings.HandlerMapping.constructor | HandlerMapping.cs:8-10 | all three dictionaries start out empty |
| HandlerMappings.HandlerMapping.GetSingleton | HandlerMapping.cs:13-26 | a type that is not a menu handler throws; otherwise the stored instance is returned, or a new one for that type is created and stored |
| HandlerMappings.HandlerMapping.AddType | HandlerMapping.cs:28-36 | on success the menu type maps to the shared instance of the handler type; a rejected handler type throws and leaves the type table and the singleton table unchanged; on success the singleton table gains exactly the handler type's key, and stored singletons are never replaced |
| HandlerMappings.HandlerMapping.AddName | HandlerMapping.cs:38-46 | the same for a menu class name: the name maps to the shared instance; a throw leaves the name table and the singleton table unchanged; otherwise the singleton table gains exactly the handler type's key |
| HandlerMappings.HandlerMapping.AddInstance | HandlerMapping.cs:48-56 | the menu type maps to the handler; a new key goes to the end of the enumeration order and a redefined key keeps its place |
| HandlerMappings.HandlerMapping.TryGetHandler | HandlerMapping.cs:58-74 | the lookup agrees with `ResolveType`: the exact entry, else the first registered proper ancestor in enumeration order, else not found with a null handler |
| HandlerMappings.HandlerMapping.TryGetHandlerByName | HandlerMapping.cs:76-79 | found exactly when the class name is registered, with its handler |
| GameMenuPageHandlers.FlattenHoldsExactlyTheContainersItems | MenuHandlers/GameMenuHandlers/CraftingPageHandler.cs:66-76 | the gathered list holds every item of every linked container and nothing else |
| GameMenuPageHandlers.GameMenuPageHandler.constructor | MenuHandlers/GameMenuHandlers/GameMenuPageHandler.cs:12-38 | a new handler is unbound; the crafting page always has an inventory section |
| GameMenuPageHandlers.GameMenuPageHandler.Open | MenuHandlers/GameMenuHandlers/GameMenuPageHandler.cs:45-60 | binding succeeds exactly for a page of the handler's type; a refused page clears the page reference and changes nothing else; a bound page with inventory binds the inventory handler to the page's inventory and keeps its hovered item and click position |
| GameMenuPageHandlers.GameMenuPageHandler.Close | MenuHandlers/GameMenuHandlers/GameMenuPageHandler.cs:63-68 | the menu, the page and the inventory handler are forgotten |
| GameMenuPageHandlers.GameMenuPageHandler.InitInventory | MenuHandlers/GameMenuHandlers/GameMenuPageHandler.cs:71-88 | the generic page binds the inventory handler to the page's inventory menu when both exist and otherwise changes nothing (the exception is swallowed); the crafting override (CraftingPageHandler.cs:27-34) binds unconditionally; binding keeps the handler's hovered item and click position |
| GameMenuPageHandlers.GameMenuPageHandler.InventoryClicked | MenuHandlers/GameMenuHandlers/GameMenuPageHandler.cs:93-106 | only the handler's selection changes (hovered item and click position); the click is Consumed exactly when the hovered stack can be split onto the held one, and then the default split amount is suggested, which below `int.MaxValue` leaves part of the stack; otherwise NotHandled with 0; the crafting override (CraftingPageHandler.cs:39-43) also records that the inventory got the input |
| GameMenuPageHandlers.GameMenuPageHandler.OpenSplitMenu | MenuHandlers/GameMenuHandlers/CraftingPageHandler.cs:48-87 | the generic page (GameMenuPageHandler.cs:111-115) never handles the split key and suggests 0; the crafting page suggests the configured amount and handles the key exactly when a recipe is hovered, anything held matches it, the output stacks and the ingredients (counting linked containers) are there; it then saves the craftable count and the click location |
| GameMenuPageHandlers.GameMenuPageHandler.GatherExtraItems | MenuHandlers/GameMenuHandlers/CraftingPageHandler.cs:66-76 | the collecting loop yields the containers' items in order |
| GameMenuPageHandlers.GameMenuPageHandler.CancelMove | MenuHandlers/GameMenuHandlers/GameMenuPageHandler.cs:119-122 | a page handler never consumes the cancelling input |
| GameMenuPageHandlers.GameMenuPageHandler.CraftReplay | MenuHandlers/GameMenuHandlers/CraftingPageHandler.cs:99-119 | one click at the saved location exactly when the amount capped by the craftable count is positive; sound only for a single item and only with a sound bank |
| GameMenuPageHandlers.GameMenuPageHandler.OnStackAmountEntered | MenuHandlers/GameMenuHandlers/CraftingPageHandler.cs:91-120 | on a generic page (GameMenuPageHandler.cs:126-129), or after an inventory click, the inventory split `SplitDone` describes (stack counts only, wear kept) happens with the entered amount and nothing is replayed; otherwise the crafting page replays the single click `CraftReplay` describes and the cursor is unchanged |
| DoDoneFishing.DoDoneFishingPatches.constructor | Patches/DoDoneFishingPatches.cs:10 | the remembered tackle list starts empty |
| DoDoneFishing.DoDoneFishingPatches.Prefix | Patches/DoDoneFishingPatches.cs:12-15 | the prefix remembers the rod's tackle, replacing any earlier snapshot |
| DoDoneFishing.DoDoneFishingPatches.RefillSlot | Patches/DoDoneFishingPatches.cs:27-33 | an empty slot with more than one unit of the tackle left gets the tackle, which loses one unit and its wear; otherwise the slots and the tackle are unchanged |
| DoDoneFishing.DoDoneFishingPatches.Postfix | Patches/DoDoneFishingPatches.cs:17-41 | without attachments or with one slot nothing changes; otherwise tackle `k` refills slot `k + 1` exactly when the slot was emptied and the tackle has more than one unit, losing one unit and its wear; nothing else changes; a present tackle without a slot reports an index fault |
| CanStackWithPatches.Prefix | Patches/CanStackWithPatches.cs:8-17 | the original runs exactly when neither item is a dresser holding items; otherwise the result is forced to false |
| CanStackWithPatches.PrefixIsSymmetric | Patches/CanStackWithPatches.cs:8-17 | the prefix treats its two items alike |
| CanStackWithPatches.EmptyStorageNeverBlocks | Patches/CanStackWithPatches.cs:8-17 | an empty dresser blocks nothing: the game's own rule decides |
| CanStackWithPatches.FullStorageStacksWithNothing | Patches/CanStackWithPatches.cs:8-17 | a dresser holding items stacks with nothing, itself included |
| CanStackWithPatches.CanStackWithIsSymmetric | Patches/CanStackWithPatches.cs:8-17 | the patched stacking relation is symmetric |
| OtherModMenus.PairUpIsPairwise | OtherMods.cs:11-20 | pairing succeeds exactly for an even list of alternating names and types, and yields entry `j` = (`args[2j]`, `args[2j+1]`) |
| OtherModMenus.OtherMods.Add | OtherMods.cs:11-20 | the stride-2 loop stores exactly the pairing under the mod id, replacing any earlier list; a malformed list throws and leaves the table unchanged |
| OtherModMenus.OtherMods.constructor | OtherMods.cs:22-31 | the table holds exactly the item spawner's menu, served by the item-grab handler |
| OtherModMenus.OtherMods.AsEnumerable | OtherMods.cs:33-36 | the enumeration holds exactly the table's key-value pairs, one per key |

## Left out

- Reflection, logging (`Log.*`), GUIDs, finalizers and the `Stopwatch` timing in `SellAction.PerformAction`: none of them affects the mod's state.
- The game's primitives whose code is not part of this model become parameters:
  - the `Item.Stack` setter: the model writes the stack field as a plain store (`SplitSelectedItem`, `SellAction.PerformAction`, `Postfix`), so a wrapped, negative count (`SplitDone`, `ClampSplitAmountSkipsOnIntOverflow`) is stored as it is; whatever the game's setter does with such a value is not part of this model;
  - `InventoryMenu.rightClick`: the `picked` item, taken to be a different object from the hovered one. The native call's own effects on the hovered slot and the hovered stack are not modelled: the model takes them to leave both unchanged, which is why the cleared branch of `SplitSelectedItem` keeps the hovered count;
  - `ShopMenu.tryToPurchaseItem`: the `exhausted` flag;
  - `InventoryMenu.getItemAt`: the `itemAtMouse` item;
  - the value of the hovered-item reflection field: `hovered`;
  - `FishingRod.GetTackle`: `rodTackle`;
  - whether `Game1.soundBank` is null: `soundBankPresent`;
  - the old mouse position: `oldMouse`.
- The game's own `Item.canStackWith` is reduced to "both stack above 1 and share a kind"; its full rule is not part of this model.
- `ShopAction.cs`, the base of both shop actions, is not part of this model. `Amount` starts at 0, and `InvMenu` is taken to be the shop's inventory menu.
- SellActions.SellAction.PerformAction: never credits the player with money, as in the code. `CalculateSalePrice` (SellAction.cs:175-180) is never called and is not modelled.
- SellActions.SellAction.Animate: sprite positions, motion and textures are floating-point screen geometry and are left out. Each sprite keeps only its delay and scale.
- The HUD message removal in `DoDoneFishingPatches.Postfix` (Patches/DoDoneFishingPatches.cs:35-36) touches only the on-screen message list and is left out.
- DoDoneFishing.DoDoneFishingPatches.Postfix: requires the remembered tackle objects to be distinct. The game gives every slot its own object.
- The `foreach` over `HandlerByType` is modelled as enumeration in insertion order (`typeOrder`). .NET gives this order for a dictionary with no removals, and this one never removes.
- OtherModMenus.OtherMods.AsEnumerable: the entries are a set, so their enumeration order is not modelled.
- The `Point` overload of `WasClicked` only unpacks its argument and is not modelled separately.
- The generic page reads the hovered item through the field `hoveredItem` and the crafting page through `hoverItem`. Both reach the model as the same `hovered` value.
- The `ModConfig` options that the core does not read, and the configuration menu integration, are not part of this model.
- GameMenuPageHandlers.GameMenuPageHandler.Open: on the crafting page it requires `CraftingInitCanRun` (a handler and an inventory menu). The crafting `InitInventory` (CraftingPageHandler.cs:27-34) has no `try` and throws a null reference on a missing handler or inventory; that exception path is not modelled.
- GameMenuPageHandlers.GameMenuPageHandler.InitInventory: the same requirement and the same unmodelled exception for the crafting override.
- `SplitSelectedItem` itself does not guard against a held stack already above its maximum. In that case the clamp can move a negative amount, and the model computes the same value.
