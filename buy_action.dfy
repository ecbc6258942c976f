/** Buying a chosen amount from a shop (`BuyAction`): the largest amount
    the player can afford and the shop can supply, computed once per action,
    and the commit that clamps the request to it and to the room on the
    held stack. */
module BuyActions {
  import opened Common
  import opened Host
  import opened Config
  import opened CanStackWithPatches

  /** `ShopMenu.infiniteStock`. */
  const InfiniteStock: int := IntMax

  /** Unit price and available stock as the stock lookup produced them. */
  datatype PriceAndStock = PriceAndStock(price: int, numInStock: int)

  /** The stock lookup with its fallback: `price`, `infinite` and (for
      finite stock) `stock` are read by reflection; when any of them is
      missing the shop is treated as unlimited and the item's sale price is
      used. Infinite stock counts as `int.MaxValue`. */
  function ReadPriceAndStock(info: StockInfo, chosenStack: int, chosenSalePrice: int): (r: PriceAndStock)
    ensures info.price.Some? && info.infinite == Some(true) ==>
      r == PriceAndStock(info.price.value, IntMax)
    ensures info.price.Some? && info.infinite == Some(false) && info.stock.Some? ==>
      r == PriceAndStock(info.price.value, info.stock.value)
    ensures info.price.None? || info.infinite.None? || (info.infinite == Some(false) && info.stock.None?) ==>
      r == PriceAndStock(chosenSalePrice, IntMax)
  {
    match (info.price, info.infinite, info.stock)
    case (Some(price), Some(true), _) => PriceAndStock(price, IntMax)
    case (Some(price), Some(false), Some(stock)) => PriceAndStock(price, stock)
    case _ =>
      PriceAndStock(chosenSalePrice, if InfiniteStock == IntMax then IntMax else chosenStack)
  }

  /** What the player pays with and the (positive) price per unit. */
  datatype Budget = Budget(currency: int, price: int)

  /** A positive price is paid in the shop's currency. A non-positive price
      means barter: the price becomes the trade item count and the currency
      the number of trade items the player owns; if either barter field is
      missing the budget is 0 at price 1. Finally a price still not
      positive is replaced by 1, so the division never sees zero. */
  function BudgetFor(itemPrice: int, info: StockInfo, player: Farmer, currencyType: int): (b: Budget)
    reads player
    ensures b.price >= 1
    ensures itemPrice > 0 ==> b == Budget(player.CurrencyAmount(currencyType), itemPrice)
    ensures itemPrice <= 0 && (info.tradeItemCount.None? || info.tradeItem.None?) ==> b == Budget(0, 1)
    ensures itemPrice <= 0 && info.tradeItemCount.Some? && info.tradeItem.Some? ==>
      b.currency == player.CountId(info.tradeItem.value) &&
      b.price == (if info.tradeItemCount.value <= 0 then 1 else info.tradeItemCount.value)
  {
    var raw :=
      if itemPrice > 0 then Budget(player.CurrencyAmount(currencyType), itemPrice)
      else match (info.tradeItemCount, info.tradeItem)
        case (Some(tradeCount), Some(tradeItem)) => Budget(player.CountId(tradeItem), tradeCount)
        case _ => Budget(0, 1);
    if raw.price <= 0 then Budget(raw.currency, 1) else raw
  }

  /** `GetMaxPurchasable` before memoization: `min(currency / price, stock)`. */
  function MaxPurchasable(info: StockInfo, chosen: Item, player: Farmer, currencyType: int): int
    reads chosen, player
  {
    var ps := ReadPriceAndStock(info, chosen.stack, chosen.salePrice);
    var b := BudgetFor(ps.price, info, player, currencyType);
    Min(CsDiv(b.currency, b.price), ps.numInStock)
  }

  /** With a non-negative budget, the maximum is the largest amount that is
      both affordable at the effective price and within the stock. */
  lemma MaxPurchasableIsLargestAffordable(info: StockInfo, chosen: Item, player: Farmer, currencyType: int)
    requires var ps := ReadPriceAndStock(info, chosen.stack, chosen.salePrice);
      BudgetFor(ps.price, info, player, currencyType).currency >= 0
    ensures var ps := ReadPriceAndStock(info, chosen.stack, chosen.salePrice);
      var b := BudgetFor(ps.price, info, player, currencyType);
      var m := MaxPurchasable(info, chosen, player, currencyType);
      && m <= ps.numInStock
      && m * b.price <= b.currency
      && (m == ps.numInStock || (m + 1) * b.price > b.currency)
  {
  }

  /** A barter item whose barter fields cannot be read is never purchasable. */
  lemma BarterLookupFailureBlocksPurchase(info: StockInfo, chosen: Item, player: Farmer, currencyType: int)
    requires ReadPriceAndStock(info, chosen.stack, chosen.salePrice).price <= 0
    requires info.tradeItemCount.None? || info.tradeItem.None?
    ensures MaxPurchasable(info, chosen, player, currencyType) <= 0
  {
  }

  /** Stock 4, price 10 and 25 in hand allow 2 units. */
  lemma AffordabilityExample(chosen: Item, player: Farmer)
    requires player.CurrencyAmount(0) == 25
    ensures MaxPurchasable(StockInfo(Some(10), Some(false), Some(4), None, None), chosen, player, 0) == 2
  {
  }

  /** What `PerformAction` hands to the purchase: the request lowered to the
      maximum, then to the room under the stack limit when there is room. */
  function PurchaseAmount(requested: int, maxPurchasable: int, chosenMax: int, numHeld: int): int {
    var a := Min(requested, maxPurchasable);
    var remainingStackSpace := chosenMax - numHeld;
    if remainingStackSpace > 0 then Min(a, remainingStackSpace) else a
  }

  /** The amount never exceeds the request or the maximum; when the held
      stack has room it also fits in that room. When it has none, no stack
      limit applies at all. */
  lemma PurchaseAmountBounds(requested: int, maxPurchasable: int, chosenMax: int, numHeld: int)
    ensures var a := PurchaseAmount(requested, maxPurchasable, chosenMax, numHeld);
      && a <= requested && a <= maxPurchasable
      && (chosenMax - numHeld > 0 ==> numHeld + a <= chosenMax)
      && (chosenMax - numHeld <= 0 ==> a == Min(requested, maxPurchasable))
  {
  }

  /** Whether the clicked item may be bought onto the cursor, short of the
      affordability test: it is an item, it stacks with itself, and nothing
      is held or the held stack accepts it and has room. */
  predicate EligibleToBuy(clicked: Item?, held: Item?)
    reads held
  {
    && clicked != null
    && CanStackWith(clicked, clicked)
    && (held == null || (CanStackWith(clicked, held) && held.stack < held.maxStack))
  }

  /** The index of the first button containing `p`, or -1. */
  function FirstButtonContaining(buttons: seq<Rect>, p: Point): int {
    FirstIndexWhere(buttons, (b: Rect) => b.Contains(p.x, p.y))
  }

  class BuyAction {
    const nativeShopMenu: ShopMenu
    const clickedItem: Item?
    var amount: int
    /** `_CanPerformAction`, null until first computed. */
    var canPerformMemo: Option<bool>
    /** `_MaxPurchasable`, null until first computed. */
    var maxPurchasableMemo: Option<int>

    /** The two memos agree: a cached "yes" comes with a positive cached
        maximum. */
    predicate MemosAgree()
      reads this
    {
      canPerformMemo == Some(true) ==> maxPurchasableMemo.Some? && maxPurchasableMemo.value > 0
    }

    /** The maximum as it would be computed in the current state. */
    function CurrentMax(player: Farmer): int
      requires clickedItem != null && clickedItem in nativeShopMenu.itemPriceAndStock
      reads this, nativeShopMenu, clickedItem, player
    {
      MaxPurchasable(nativeShopMenu.itemPriceAndStock[clickedItem], clickedItem, player, nativeShopMenu.currencyType)
    }

    /** The constructor: when the action can be performed, the suggested
        amount is the configured shop default capped by the maximum. The
        amount otherwise keeps its initial value 0. */
    constructor (menu: ShopMenu, item: Item?, config: ModConfig, player: Farmer)
      requires EligibleToBuy(item, menu.heldItem) ==> item in menu.itemPriceAndStock
      ensures nativeShopMenu == menu && clickedItem == item && MemosAgree()
      ensures canPerformMemo.Some?
      ensures canPerformMemo.value <==>
        EligibleToBuy(item, menu.heldItem) && maxPurchasableMemo.Some? && maxPurchasableMemo.value > 0
      ensures EligibleToBuy(item, menu.heldItem) ==>
        maxPurchasableMemo == Some(MaxPurchasable(menu.itemPriceAndStock[item], item, player, menu.currencyType))
      ensures amount == (if canPerformMemo.value then Min(config.defaultShopAmount, maxPurchasableMemo.value) else 0)
    {
      nativeShopMenu := menu;
      clickedItem := item;
      amount := 0;
      canPerformMemo := None;
      maxPurchasableMemo := None;
      new;
      var can := CanPerformAction(player);
      if can {
        var max := GetMaxPurchasable(player);
        amount := Min(config.defaultShopAmount, max);
      }
    }

    /** `CanPerformAction`, memoized: the first call decides eligibility and,
        only if the item is eligible, computes the maximum; the answer is
        "yes" iff eligible and the maximum is positive. Later calls return
        the cached answer and change nothing. */
    method CanPerformAction(player: Farmer) returns (r: bool)
      requires MemosAgree()
      requires canPerformMemo.None? && maxPurchasableMemo.None? && EligibleToBuy(clickedItem, nativeShopMenu.heldItem) ==>
        clickedItem in nativeShopMenu.itemPriceAndStock
      modifies this`canPerformMemo, this`maxPurchasableMemo
      ensures MemosAgree() && canPerformMemo == Some(r)
      ensures old(canPerformMemo).Some? ==>
        r == old(canPerformMemo).value && maxPurchasableMemo == old(maxPurchasableMemo)
      ensures old(canPerformMemo).None? && !EligibleToBuy(clickedItem, nativeShopMenu.heldItem) ==>
        !r && maxPurchasableMemo == old(maxPurchasableMemo)
      ensures old(canPerformMemo).None? && EligibleToBuy(clickedItem, nativeShopMenu.heldItem) ==>
        && maxPurchasableMemo.Some?
        && (old(maxPurchasableMemo).Some? ==> maxPurchasableMemo == old(maxPurchasableMemo))
        && (old(maxPurchasableMemo).None? ==> maxPurchasableMemo.value == CurrentMax(player))
        && (r <==> maxPurchasableMemo.value > 0)
    {
      if canPerformMemo.None? {
        var held := nativeShopMenu.heldItem;
        var can := false;
        if EligibleToBuy(clickedItem, held) {
          var max := GetMaxPurchasable(player);
          can := max > 0;
        }
        canPerformMemo := Some(can);
      }
      r := canPerformMemo.value;
    }

    /** `GetMaxPurchasable`, memoized: the first call computes the maximum
        from the current stock and budget and caches it; later calls return
        the cached value whatever has changed since. */
    method GetMaxPurchasable(player: Farmer) returns (r: int)
      requires maxPurchasableMemo.None? ==>
        clickedItem != null && clickedItem in nativeShopMenu.itemPriceAndStock
      modifies this`maxPurchasableMemo
      ensures maxPurchasableMemo == Some(r)
      ensures old(maxPurchasableMemo).Some? ==> r == old(maxPurchasableMemo).value
      ensures old(maxPurchasableMemo).None? ==> r == CurrentMax(player)
      ensures old(MemosAgree()) ==> MemosAgree()
    {
      if maxPurchasableMemo.None? {
        var info := nativeShopMenu.itemPriceAndStock[clickedItem];
        var ps := ReadPriceAndStock(info, clickedItem.stack, clickedItem.salePrice);
        var b := BudgetFor(ps.price, info, player, nativeShopMenu.currencyType);
        maxPurchasableMemo := Some(Min(CsDiv(b.currency, b.price), ps.numInStock));
      }
      r := maxPurchasableMemo.value;
    }

    /** `PerformAction(amount, clickLocation)`. The purchase primitive is
        called with the clamped amount only when it is positive; `exhausted`
        is what that primitive returns (the shop ran out). The item leaves
        both shop tables exactly when a purchase happened and the primitive
        answered true. `bought` is the amount handed to the primitive, 0
        when the purchase was aborted. */
    method PerformAction(requested: int, clickLocation: Point, player: Farmer, exhausted: bool)
      returns (bought: int)
      requires clickedItem != null
      requires maxPurchasableMemo.None? ==> clickedItem in nativeShopMenu.itemPriceAndStock
      requires MemosAgree()
      modifies this`maxPurchasableMemo, nativeShopMenu`itemPriceAndStock, nativeShopMenu`forSale
      ensures MemosAgree() && maxPurchasableMemo.Some?
      ensures old(maxPurchasableMemo).Some? ==> maxPurchasableMemo == old(maxPurchasableMemo)
      ensures old(maxPurchasableMemo).None? ==> maxPurchasableMemo.value == old(CurrentMax(player))
      ensures var a := PurchaseAmount(requested, maxPurchasableMemo.value, clickedItem.maxStack,
                                      StackOrZero(nativeShopMenu.heldItem));
        bought == (if a > 0 then a else 0)
      ensures bought > 0 && exhausted ==>
        && nativeShopMenu.itemPriceAndStock == old(nativeShopMenu.itemPriceAndStock) - {clickedItem}
        && nativeShopMenu.forSale == RemoveFirst(old(nativeShopMenu.forSale), clickedItem)
      ensures !(bought > 0 && exhausted) ==>
        && nativeShopMenu.itemPriceAndStock == old(nativeShopMenu.itemPriceAndStock)
        && nativeShopMenu.forSale == old(nativeShopMenu.forSale)
    {
      var chosen := clickedItem;
      var chosenMax := chosen.maxStack;
      var nativeMenu := nativeShopMenu;
      var heldItem := nativeMenu.heldItem;

      var maxPurchasable := GetMaxPurchasable(player);
      var amount := Min(requested, maxPurchasable);

      var numHeld := if heldItem == null then 0 else heldItem.stack;
      var remainingStackSpace := chosenMax - numHeld;
      if remainingStackSpace > 0 {
        amount := Min(amount, remainingStackSpace);
      }

      if amount <= 0 {
        bought := 0;
        return;
      }

      bought := amount;
      if exhausted {
        nativeMenu.itemPriceAndStock := nativeMenu.itemPriceAndStock - {chosen};
        nativeMenu.forSale := RemoveFirst(nativeMenu.forSale, chosen);
      }
    }

    /** `GetClickedItemIndex`: the index, counted from the first visible
        entry `currentItemIndex`, of the first sale button containing the
        point, or -1 when no button contains it. */
    static function GetClickedItemIndex(shopMenu: ShopMenu, p: Point): (r: int)
      reads shopMenu
      ensures (forall j :: 0 <= j < |shopMenu.forSaleButtons| ==> !shopMenu.forSaleButtons[j].Contains(p.x, p.y))
        ==> r == -1
      ensures (exists j :: 0 <= j < |shopMenu.forSaleButtons| && shopMenu.forSaleButtons[j].Contains(p.x, p.y))
        ==> var i := r - shopMenu.currentItemIndex;
          && 0 <= i < |shopMenu.forSaleButtons|
          && shopMenu.forSaleButtons[i].Contains(p.x, p.y)
          && forall j :: 0 <= j < i ==> !shopMenu.forSaleButtons[j].Contains(p.x, p.y)
    {
      var saleButtonIndex := FirstButtonContaining(shopMenu.forSaleButtons, p);
      if saleButtonIndex > -1 then shopMenu.currentItemIndex + saleButtonIndex else -1
    }

    /** `GetClickedShopItem`: the entry of `forSale` under the point, or null.
        With a non-negative scroll position it is null exactly when no sale
        button contains the point. */
    static function GetClickedShopItem(shopMenu: ShopMenu, p: Point): (r: Item?)
      requires GetClickedItemIndex(shopMenu, p) < |shopMenu.forSale|
      reads shopMenu
      ensures r != null ==> r in shopMenu.forSale
      ensures shopMenu.currentItemIndex >= 0 ==>
        (r == null <==> forall j :: 0 <= j < |shopMenu.forSaleButtons| ==> !shopMenu.forSaleButtons[j].Contains(p.x, p.y))
    {
      var index := GetClickedItemIndex(shopMenu, p);
      if index >= 0 then shopMenu.forSale[index] else null
    }

    /** `Create`: a new action for the clicked shop entry, or null when no
        entry was clicked. */
    static method Create(shopMenu: ShopMenu, mouse: Point, config: ModConfig, player: Farmer)
      returns (action: BuyAction?)
      requires GetClickedItemIndex(shopMenu, mouse) < |shopMenu.forSale|
      requires EligibleToBuy(GetClickedShopItem(shopMenu, mouse), shopMenu.heldItem) ==>
        GetClickedShopItem(shopMenu, mouse) in shopMenu.itemPriceAndStock
      ensures action == null <==> GetClickedShopItem(shopMenu, mouse) == null
      ensures action != null ==>
        fresh(action) && action.clickedItem == GetClickedShopItem(shopMenu, mouse) &&
        action.nativeShopMenu == shopMenu
    {
      var item := GetClickedShopItem(shopMenu, mouse);
      if item != null {
        action := new BuyAction(shopMenu, item, config, player);
      } else {
        action := null;
      }
    }
  }
}
