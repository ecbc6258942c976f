/** The game objects the mod reads and writes. Only the state the mod
    touches is modelled; everything the game computes on its own (prices,
    recipes, hit tests) is a field or a function value supplied with the
    object. Object identity is reference identity, as in the game. */
module Host {
  import opened Common
  import opened ClrTypes

  /** `StardewValley.Item`. `kind` stands for the identity keys the game's
      `canStackWith` compares (qualified id, quality, name, ...). */
  class Item {
    const kind: int
    const name: string
    /** `maximumStackSize()`. */
    const maxStack: int
    /** `salePrice()`. */
    const salePrice: int
    /** `GetHashCode()`: the object's identity hash, fixed for its lifetime. */
    const hashCode: int
    /** Whether the item is `StorageFurniture` (a dresser). */
    const isStorageFurniture: bool
    /** `StorageFurniture.heldItems.Count`; 0 for other items. */
    const heldItemsCount: nat
    var stack: int
    /** `Object.uses`, the wear counter of fishing tackle. */
    var uses: int

    constructor (kind: int, name: string, maxStack: int, salePrice: int, hashCode: int,
                 isStorageFurniture: bool, heldItemsCount: nat, stack: int)
      ensures this.kind == kind && this.name == name && this.maxStack == maxStack
      ensures this.salePrice == salePrice && this.hashCode == hashCode
      ensures this.isStorageFurniture == isStorageFurniture && this.heldItemsCount == heldItemsCount
      ensures this.stack == stack && this.uses == 0
    {
      this.kind := kind;
      this.name := name;
      this.maxStack := maxStack;
      this.salePrice := salePrice;
      this.hashCode := hashCode;
      this.isStorageFurniture := isStorageFurniture;
      this.heldItemsCount := heldItemsCount;
      this.stack := stack;
      this.uses := 0;
    }
  }

  /** `Game1.player`: the item on the cursor and what the player owns. */
  class Farmer {
    var cursorSlotItem: Item?
    /** Amount owned per shop currency type (money, festival score, ...). */
    var currencyAmounts: map<int, int>
    /** Count of owned items per item id (`Items.CountId`). */
    var itemCounts: map<string, int>

    constructor ()
      ensures cursorSlotItem == null && currencyAmounts == map[] && itemCounts == map[]
    {
      cursorSlotItem := null;
      currencyAmounts := map[];
      itemCounts := map[];
    }

    /** `ShopMenu.getPlayerCurrencyAmount(player, currencyType)`. */
    function CurrencyAmount(currencyType: int): int
      reads this
    {
      if currencyType in currencyAmounts then currencyAmounts[currencyType] else 0
    }

    /** `player.Items.CountId(id)`. */
    function CountId(id: string): int
      reads this
    {
      if id in itemCounts then itemCounts[id] else 0
    }
  }

  /** `StardewValley.Menus.InventoryMenu`: the live slot list (`actualInventory`,
      index-stable, a hole is `null`) and the bounds of its slot buttons
      (`inventory`). */
  class InventoryMenu {
    const actualInventory: array<Item?>
    const inventory: seq<Rect>

    constructor (actualInventory: array<Item?>, inventory: seq<Rect>)
      ensures this.actualInventory == actualInventory && this.inventory == inventory
    {
      this.actualInventory := actualInventory;
      this.inventory := inventory;
    }
  }

  /** One entry of a shop's `itemPriceAndStock`, read field by field through
      reflection; `None` is a field the reflection layer cannot find. */
  datatype StockInfo = StockInfo(
    price: Option<int>,
    infinite: Option<bool>,
    stock: Option<int>,
    tradeItem: Option<string>,
    tradeItemCount: Option<int>)

  /** The integer part of a `TemporaryAnimatedSprite` (a flying coin). */
  datatype Sprite = Sprite(delayBeforeAnimationStart: int, scale: int)

  /** `StardewValley.Menus.ShopMenu`. */
  class ShopMenu {
    var itemPriceAndStock: map<Item, StockInfo>
    var forSale: seq<Item>
    var forSaleButtons: seq<Rect>
    var currentItemIndex: int
    /** The item the shop's own cursor holds (the `heldItem` field). */
    var heldItem: Item?
    var animations: seq<Sprite>
    const currencyType: int
    /** The player's inventory shown under the shop. */
    const inventory: InventoryMenu
    /** `highlightItemToSell(item)`: whether this shop buys the item. */
    const highlightItemToSell: Item -> bool

    constructor (currencyType: int, inventory: InventoryMenu, highlightItemToSell: Item -> bool)
      ensures this.currencyType == currencyType && this.inventory == inventory
      ensures itemPriceAndStock == map[] && forSale == [] && forSaleButtons == []
      ensures currentItemIndex == 0 && heldItem == null && animations == []
    {
      this.currencyType := currencyType;
      this.inventory := inventory;
      this.highlightItemToSell := highlightItemToSell;
      itemPriceAndStock := map[];
      forSale := [];
      forSaleButtons := [];
      currentItemIndex := 0;
      heldItem := null;
      animations := [];
    }
  }

  /** A crafting recipe as the mod uses it: the item `createItem()` returns,
      and the game's ingredient checks given the extra containers' items
      (`None` is a null list). */
  datatype Recipe = Recipe(
    output: Item,
    doesFarmerHaveIngredientsInInventory: Option<seq<Item?>> -> bool,
    getCraftableCount: Option<seq<Item?>> -> int)

  /** What reading a menu's `inventory` field by reflection gives. */
  datatype InventoryField = FieldMissing | FieldValue(menu: InventoryMenu?)

  /** An `IClickableMenu` (a menu or one page of the game menu). The last
      three fields exist on crafting pages only. */
  class Menu {
    const menuType: ClrType
    const inventoryField: InventoryField
    var hoverRecipe: Option<Recipe>
    var heldItem: Item?
    /** `_materialContainers`: the linked chests (fridge, ...), `None` when null. */
    var materialContainers: Option<seq<seq<Item?>>>

    constructor (menuType: ClrType, inventoryField: InventoryField)
      ensures this.menuType == menuType && this.inventoryField == inventoryField
      ensures hoverRecipe == None && heldItem == null && materialContainers == None
    {
      this.menuType := menuType;
      this.inventoryField := inventoryField;
      hoverRecipe := None;
      heldItem := null;
      materialContainers := None;
    }
  }

  /** `item?.Stack ?? 0`: the size of a stack, 0 for no item. */
  function StackOrZero(item: Item?): int
    reads item
  {
    if item == null then 0 else item.stack
  }
}
