/** The handlers for single pages of the game menu (`GameMenuPageHandler`
    and its crafting variant `CraftingPageHandler`). A handler is bound to
    one open page at a time; it forwards inventory clicks to an
    `InventoryHandler` and, on the crafting page, turns a confirmed amount
    into one replayed craft click. */
module GameMenuPageHandlers {
  import opened Common
  import opened ClrTypes
  import opened Host
  import opened Config
  import opened CanStackWithPatches
  import opened InventoryHandlers

  /** Which override of the virtual members a handler runs. */
  datatype PageKind = GenericPage | CraftingPage

  /** The right-click the crafting page replays on the page after the amount
      is confirmed: at the saved location, with or without sound. */
  datatype ReplayClick = ReplayClick(x: int, y: int, playSound: bool)

  /** The inventory menu a page's `inventory` field holds, or null when the
      field is missing or empty. */
  function InventoryMenuOf(page: Menu): InventoryMenu? {
    match page.inventoryField
    case FieldMissing => null
    case FieldValue(m) => m
  }

  /** All items of the linked containers, container after container, in
      each container's own order (`extraItems.AddRange(container)`). */
  function Flatten(containers: seq<seq<Item?>>): seq<Item?> {
    if |containers| == 0 then [] else Flatten(containers[..|containers| - 1]) + containers[|containers| - 1]
  }

  /** The gathered list holds every item of every container and nothing
      else. */
  lemma {:induction false} FlattenHoldsExactlyTheContainersItems(containers: seq<seq<Item?>>)
    ensures forall x :: x in Flatten(containers) <==> exists c :: c in containers && x in c
  {
    if |containers| > 0 {
      var init := containers[..|containers| - 1];
      var last := containers[|containers| - 1];
      FlattenHoldsExactlyTheContainersItems(init);
      assert containers == init + [last];
      forall x
        ensures x in Flatten(containers) <==> exists c :: c in containers && x in c
      {
        if x in Flatten(containers) {
          if x in Flatten(init) {
            var c :| c in init && x in c;
            assert c in containers;
          } else {
            assert x in last;
          }
        }
      }
    }
  }

  class GameMenuPageHandler {
    const kind: PageKind
    /** `TPageType`: the page type the handler is for. */
    const pageType: ClrType
    const hasInventory: bool
    var inventoryHandler: InventoryHandler?
    var nativeMenu: Menu?
    var menuPage: Menu?
    /** Crafting page only: the click to replay, whether the inventory got
        the last input, and the craftable maximum. */
    var clickItemLocation: Point
    var wasInventoryClicked: bool
    var maxAmount: int

    /** A new handler is unbound; the crafting page always has an
        inventory section. */
    constructor (kind: PageKind, pageType: ClrType, hasInventory: bool)
      ensures this.kind == kind && this.pageType == pageType
      ensures this.hasInventory == (kind == CraftingPage || hasInventory)
      ensures inventoryHandler == null && nativeMenu == null && menuPage == null
      ensures !wasInventoryClicked && maxAmount == 0 && clickItemLocation == Point(0, 0)
    {
      this.kind := kind;
      this.pageType := pageType;
      this.hasInventory := kind == CraftingPage || hasInventory;
      inventoryHandler := null;
      nativeMenu := null;
      menuPage := null;
      clickItemLocation := Point(0, 0);
      wasInventoryClicked := false;
      maxAmount := 0;
    }

    /** `page as TPageType` succeeds. */
    predicate IsPage(page: Menu?) {
      page != null && IsInstanceOf(page.menuType, pageType)
    }

    /** What the crafting override of `InitInventory` needs: it reads the
        page's inventory without a null check or a `try`, so a missing
        inventory or handler would throw out of `Open`. */
    predicate CraftingInitCanRun(page: Menu, handler: InventoryHandler?) {
      handler != null && InventoryMenuOf(page) != null
    }

    /** `Open(menu, page, inventoryHandler)`. A page of another type is
        refused: the page reference is cleared and nothing else changes. A
        page of the handler's type is bound together with the menu and the
        inventory handler, and when the page has an inventory section the
        inventory handler is bound to it (`InitInventory`). */
    method Open(menu: Menu?, page: Menu?, handler: InventoryHandler?) returns (bound: bool)
      requires kind == CraftingPage && IsPage(page) ==> CraftingInitCanRun(page, handler)
      modifies this`menuPage, this`nativeMenu, this`inventoryHandler, handler
      ensures bound <==> IsPage(page)
      ensures !bound ==>
        && menuPage == null && nativeMenu == old(nativeMenu) && inventoryHandler == old(inventoryHandler)
        && (handler != null ==> unchanged(handler))
      ensures bound ==> menuPage == page && nativeMenu == menu && inventoryHandler == handler
      ensures bound && hasInventory && handler != null && InventoryMenuOf(page) != null ==>
        && handler.nativeInventoryMenu == InventoryMenuOf(page)
        && handler.bounds == BoundsOf(InventoryMenuOf(page).inventory)
        && handler.hoveredItem == old(handler.hoveredItem)
        && handler.selectedItemPositionX == old(handler.selectedItemPositionX)
        && handler.selectedItemPositionY == old(handler.selectedItemPositionY)
        && handler.CacheUpdatedFrom(old(handler.cachedInventoryItems), old(handler.lastInventoryHash),
                                    old(handler.nonNullItemCount))
      ensures bound && !(hasInventory && handler != null && InventoryMenuOf(page) != null) ==>
        handler != null ==> unchanged(handler)
    {
      if !IsPage(page) {
        menuPage := null;
        return false;
      }
      menuPage := page;
      nativeMenu := menu;
      inventoryHandler := handler;
      if hasInventory {
        InitInventory();
      }
      return true;
    }

    /** `Close`: forgets the menu, the page and the inventory handler.
        Closing twice is the same as closing once. */
    method Close()
      modifies this`nativeMenu, this`menuPage, this`inventoryHandler
      ensures nativeMenu == null && menuPage == null && inventoryHandler == null
    {
      nativeMenu := null;
      menuPage := null;
      inventoryHandler := null;
    }

    /** `InitInventory`. The generic version reads the page's `inventory`
        field and binds the inventory handler to it when it holds a menu;
        a missing field or a missing handler throws inside its `try` and
        is swallowed. The crafting version binds unconditionally. */
    method InitInventory()
      requires menuPage != null
      requires kind == CraftingPage ==> CraftingInitCanRun(menuPage, inventoryHandler)
      modifies inventoryHandler
      ensures inventoryHandler != null && InventoryMenuOf(menuPage) != null ==>
        var handler := inventoryHandler;
        && handler.nativeInventoryMenu == InventoryMenuOf(menuPage)
        && handler.bounds == BoundsOf(InventoryMenuOf(menuPage).inventory)
        && handler.hoveredItem == old(handler.hoveredItem)
        && handler.selectedItemPositionX == old(handler.selectedItemPositionX)
        && handler.selectedItemPositionY == old(handler.selectedItemPositionY)
        && handler.CacheUpdatedFrom(old(handler.cachedInventoryItems), old(handler.lastInventoryHash),
                                    old(handler.nonNullItemCount))
      ensures !(inventoryHandler != null && InventoryMenuOf(menuPage) != null) ==>
        inventoryHandler != null ==> unchanged(inventoryHandler)
    {
      var inventoryMenu := InventoryMenuOf(menuPage);
      if inventoryMenu != null && inventoryHandler != null {
        inventoryHandler.Init(inventoryMenu);
      }
    }

    /** `InventoryClicked(out stackAmount)`: selects the item under the
        mouse (`hovered` is the page's hovered-item field at that moment)
        and answers Consumed with the default split amount exactly when it
        can be split, NotHandled with 0 otherwise; a stack of
        `int.MaxValue` gets the wrapped, negative default. Only the
        selection of the inventory handler changes. The crafting page also
        records that the inventory got the input. */
    method InventoryClicked(mouseX: int, mouseY: int, hovered: Item?, player: Farmer)
      returns (handled: EInputHandled, stackAmount: int)
      requires inventoryHandler != null && inventoryHandler.Initialized()
      modifies this`wasInventoryClicked
      modifies inventoryHandler`hoveredItem, inventoryHandler`selectedItemPositionX, inventoryHandler`selectedItemPositionY
      ensures inventoryHandler.hoveredItem == hovered
      ensures inventoryHandler.selectedItemPositionX == mouseX && inventoryHandler.selectedItemPositionY == mouseY
      ensures handled == Consumed <==> CanSplit(hovered, player.cursorSlotItem)
      ensures handled == Consumed ==>
        && stackAmount == DefaultSplitAmount(hovered.stack)
        && (hovered.stack < IntMax ==> 1 <= stackAmount < hovered.stack)
        && (hovered.stack == IntMax ==> stackAmount < 0)
      ensures handled == NotHandled ==> stackAmount == 0
      ensures wasInventoryClicked == (kind == CraftingPage || old(wasInventoryClicked))
    {
      if kind == CraftingPage {
        wasInventoryClicked := true;
      }
      stackAmount := 0;
      inventoryHandler.SelectItem(mouseX, mouseY, hovered);
      if inventoryHandler.CanSplitSelectedItem(player) {
        stackAmount := inventoryHandler.GetDefaultSplitStackAmount();
        return Consumed, stackAmount;
      }
      return NotHandled, stackAmount;
    }

    /** The conditions under which the crafting page opens the amount
        prompt: a recipe is hovered, anything held has the output's name,
        the output stacks with itself, and the ingredients are available
        from the inventory plus `extra`. */
    predicate CraftingSplitAllowed(recipe: Option<Recipe>, held: Item?, extra: Option<seq<Item?>>)
      reads held, if recipe.Some? then {recipe.value.output} else {}
    {
      && recipe.Some?
      && (held == null || held.name == recipe.value.output.name)
      && CanStackWith(recipe.value.output, recipe.value.output)
      && recipe.value.doesFarmerHaveIngredientsInInventory(extra)
    }

    /** The extra items the crafting page counts: none when the page has no
        linked containers, otherwise all of their items. */
    function ExtraItems(page: Menu): Option<seq<Item?>>
      reads page
    {
      match page.materialContainers
      case None => None
      case Some(containers) => Some(Flatten(containers))
    }

    /** `OpenSplitMenu(out stackAmount)`. The generic page never handles the
        hotkey and suggests 0. The crafting page suggests the configured
        crafting amount, records that the recipe area got the input, and
        handles the hotkey exactly when `CraftingSplitAllowed`; it then
        saves the craftable count and the click location (`oldMouse`). */
    method OpenSplitMenu(config: ModConfig, oldMouse: Point) returns (handled: EInputHandled, stackAmount: int)
      requires kind == CraftingPage ==> menuPage != null
      modifies this`wasInventoryClicked, this`maxAmount, this`clickItemLocation
      ensures kind == GenericPage ==>
        && handled == NotHandled && stackAmount == 0
        && wasInventoryClicked == old(wasInventoryClicked)
        && maxAmount == old(maxAmount) && clickItemLocation == old(clickItemLocation)
      ensures kind == CraftingPage ==>
        && stackAmount == config.defaultCraftingAmount
        && !wasInventoryClicked
        && (handled == Consumed <==>
              CraftingSplitAllowed(menuPage.hoverRecipe, menuPage.heldItem, ExtraItems(menuPage)))
        && (handled == Consumed ==>
              && maxAmount == menuPage.hoverRecipe.value.getCraftableCount(ExtraItems(menuPage))
              && clickItemLocation == oldMouse)
        && (handled == NotHandled ==>
              maxAmount == old(maxAmount) && clickItemLocation == old(clickItemLocation))
    {
      if kind == GenericPage {
        return NotHandled, 0;
      }
      stackAmount := config.defaultCraftingAmount;
      wasInventoryClicked := false;

      var hoverRecipe := menuPage.hoverRecipe;
      var heldItem := menuPage.heldItem;
      if hoverRecipe.None? || (heldItem != null && heldItem.name != hoverRecipe.value.output.name) {
        return NotHandled, stackAmount;
      }
      var hoveredItem := hoverRecipe.value.output;

      var extraItems: Option<seq<Item?>> := None;
      if menuPage.materialContainers.Some? {
        var gathered := GatherExtraItems(menuPage.materialContainers.value);
        extraItems := Some(gathered);
      }

      if !CanStackWith(hoveredItem, hoveredItem) || !hoverRecipe.value.doesFarmerHaveIngredientsInInventory(extraItems) {
        return NotHandled, stackAmount;
      }

      maxAmount := hoverRecipe.value.getCraftableCount(extraItems);
      clickItemLocation := oldMouse;
      return Consumed, stackAmount;
    }

    /** The loop collecting the linked containers' items into one list. */
    static method GatherExtraItems(containers: seq<seq<Item?>>) returns (extraItems: seq<Item?>)
      ensures extraItems == Flatten(containers)
    {
      extraItems := [];
      var i := 0;
      while i < |containers|
        invariant 0 <= i <= |containers|
        invariant extraItems == Flatten(containers[..i])
      {
        assert containers[..i + 1][..i] == containers[..i];
        extraItems := extraItems + containers[i];
        i := i + 1;
      }
      assert containers[..i] == containers;
    }

    /** `CancelMove`: no page handler consumes the cancelling input. */
    function CancelMove(): (r: EInputHandled)
      ensures r == NotHandled
    {
      NotHandled
    }

    /** Whether a confirmed amount goes to the inventory split rather than
        to a craft. */
    predicate RoutesToSplit()
      reads this
    {
      kind == GenericPage || wasInventoryClicked
    }

    /** The replay a crafting confirmation makes: one click at the saved
        location when the clamped count is positive, none otherwise; sound
        only for a single item and only when a sound bank exists. */
    function CraftReplay(amount: int, soundBankPresent: bool): (r: Option<ReplayClick>)
      reads this
      ensures var count := Min(amount, maxAmount);
        && (r.Some? <==> count > 0)
        && (r.Some? ==> r.value.x == clickItemLocation.x && r.value.y == clickItemLocation.y)
        && (r.Some? ==> (r.value.playSound <==> count == 1 && soundBankPresent))
    {
      var count := Min(amount, maxAmount);
      if count > 0 then Some(ReplayClick(clickItemLocation.x, clickItemLocation.y, count == 1 && soundBankPresent))
      else None
    }

    /** `OnStackAmountEntered(amount)`. On the generic page, or when the
        inventory got the last input, the amount goes to `SplitSelectedItem`
        (`picked` is the item the native right-click returns), with the
        outcome `SplitDone` describes. Otherwise the crafting page hands back
        the single click to replay; the sound bank is restored, so nothing
        of the handler's own state changes. */
    method OnStackAmountEntered(amount: int, player: Farmer, picked: Item, soundBankPresent: bool)
      returns (replay: Option<ReplayClick>)
      requires RoutesToSplit() ==>
        && inventoryHandler != null && inventoryHandler.Initialized()
        && inventoryHandler.hoveredItem != null && picked != inventoryHandler.hoveredItem
      modifies player`cursorSlotItem
      modifies if RoutesToSplit() && inventoryHandler != null && inventoryHandler.nativeInventoryMenu != null
        then {inventoryHandler, inventoryHandler.hoveredItem, picked,
              inventoryHandler.nativeInventoryMenu.actualInventory}
        else {}
      ensures !old(RoutesToSplit()) ==>
        replay == CraftReplay(amount, soundBankPresent) && player.cursorSlotItem == old(player.cursorSlotItem)
      ensures old(RoutesToSplit()) ==>
        && replay == None
        && inventoryHandler.Initialized()
        && inventoryHandler.SplitDone(amount, player, picked, old(inventoryHandler.hoveredItem))
    {
      if RoutesToSplit() {
        inventoryHandler.SplitSelectedItem(amount, player, picked);
        return None;
      }
      var count := Min(amount, maxAmount);
      replay := None;
      if count > 0 {
        var shouldPlaySound := count == 1 && soundBankPresent;
        replay := Some(ReplayClick(clickItemLocation.x, clickItemLocation.y, shouldPlaySound));
      }
    }
  }
}
