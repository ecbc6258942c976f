/** Selling part of a stack to a shop (`SellAction`): the action remembers
    the clicked inventory slot, and its commit re-checks that the slot still
    holds the same item before taking the amount out of it, then adds the
    flying-coin animation. */
module SellActions {
  import opened Common
  import opened Host
  import opened Config
  import opened InventoryHandlers

  /** Sales above this many units get no animation. */
  const AnimationThreshold: int := 50
  /** The coin count never exceeds this cap. */
  const MaxCoins: int := 10

  /** The number of coins `Animate(amount)` launches: `amount / 8 + 2`,
      capped at 10. */
  function CoinCount(amount: int): int {
    Min(CsDiv(amount, 8) + 2, MaxCoins)
  }

  /** The sprites added for coins `0 .. n-1`: coin `j` adds a small coin
      starting after `j * 25` ticks and a large one after `j * 50`. */
  function CoinSprites(n: int): (s: seq<Sprite>)
    ensures |s| == 2 * Max(n, 0)
    decreases n
  {
    if n <= 0 then []
    else CoinSprites(n - 1) + [Sprite((n - 1) * 25, 2), Sprite((n - 1) * 50, 4)]
  }

  /** Coin `j` contributes sprites `2j` and `2j + 1`, with the delays and
      scales listed above. */
  lemma {:induction false} CoinSpritesLayout(n: int, j: int)
    requires 0 <= j < n
    ensures 2 * j + 1 < |CoinSprites(n)|
    ensures CoinSprites(n)[2 * j] == Sprite(j * 25, 2)
    ensures CoinSprites(n)[2 * j + 1] == Sprite(j * 50, 4)
    decreases n
  {
    if j < n - 1 {
      CoinSpritesLayout(n - 1, j);
      assert CoinSprites(n)[..|CoinSprites(n - 1)|] == CoinSprites(n - 1);
    }
  }

  /** Everything `Animate(amount)` adds to the shop's animation list. */
  function AnimationFor(amount: int): seq<Sprite> {
    if amount > AnimationThreshold then [] else CoinSprites(CoinCount(amount))
  }

  /** For every sale that is animated at all (1 to 50 units) the cap of 10
      coins is never reached: at most 8 coins, so at most 16 sprites. Huge
      sales add nothing. */
  lemma AnimationIsBounded(amount: int)
    requires amount > 0
    ensures amount <= AnimationThreshold ==> CoinCount(amount) == CsDiv(amount, 8) + 2 <= 8
    ensures amount <= AnimationThreshold ==> |AnimationFor(amount)| == 2 * CoinCount(amount) <= 16
    ensures amount > AnimationThreshold ==> AnimationFor(amount) == []
  {
  }

  /** The number of sprites does not decrease as the sold amount grows, up
      to the threshold. */
  lemma AnimationGrowsWithAmount(a: int, b: int)
    requires 0 < a <= b <= AnimationThreshold
    ensures |AnimationFor(a)| <= |AnimationFor(b)|
  {
    assert a / 8 <= b / 8;
  }

  class SellAction {
    const nativeShopMenu: ShopMenu
    const clickedItem: Item
    const clickedItemIndex: int
    var amount: int

    /** The default amount is half the stack, rounded up. */
    constructor (menu: ShopMenu, item: Item, itemIndex: int)
      ensures nativeShopMenu == menu && clickedItem == item && clickedItemIndex == itemIndex
      ensures amount == DefaultSplitAmount(item.stack)
    {
      nativeShopMenu := menu;
      clickedItem := item;
      clickedItemIndex := itemIndex;
      amount := DefaultSplitAmount(item.stack);
    }

    /** `CanPerformAction`: the shop option is on, the shop buys the item and
        there is more than one of it. Then the default amount (for a stack
        below `int.MaxValue`) sells part of the stack and keeps the rest. */
    predicate CanPerformAction(config: ModConfig)
      reads clickedItem
      ensures CanPerformAction(config) && clickedItem.stack < IntMax ==>
        1 <= DefaultSplitAmount(clickedItem.stack) < clickedItem.stack
    {
      var can := config.enableStackSplitInShop && nativeShopMenu.highlightItemToSell(clickedItem) && clickedItem.stack > 1;
      if can && clickedItem.stack < IntMax then
        DefaultSplitIsCeilingHalf(clickedItem.stack);
        can
      else
        can
    }

    /** Whether the remembered slot still holds the clicked item. */
    predicate SlotStillHoldsItem()
      reads nativeShopMenu.inventory.actualInventory
    {
      var inventory := nativeShopMenu.inventory.actualInventory;
      0 <= clickedItemIndex < inventory.Length && inventory[clickedItemIndex] == clickedItem
    }

    /** `PerformAction(amount, clickLocation)`. The amount is lowered to the
        stack and recorded. When it is positive: if the remembered slot still
        holds the item, the stack shrinks by it and the slot is emptied when
        nothing is left (no other slot moves); the coin animation is added
        whether or not the slot check passed. */
    method PerformAction(requested: int, clickLocation: Point)
      modifies this`amount, clickedItem`stack, nativeShopMenu.inventory.actualInventory, nativeShopMenu`animations
      ensures amount == Min(requested, old(clickedItem.stack))
      ensures amount <= 0 ==>
        && clickedItem.stack == old(clickedItem.stack)
        && nativeShopMenu.inventory.actualInventory[..] == old(nativeShopMenu.inventory.actualInventory[..])
        && nativeShopMenu.animations == old(nativeShopMenu.animations)
      ensures amount > 0 ==> nativeShopMenu.animations == old(nativeShopMenu.animations) + AnimationFor(amount)
      ensures amount > 0 && !old(SlotStillHoldsItem()) ==>
        && clickedItem.stack == old(clickedItem.stack)
        && nativeShopMenu.inventory.actualInventory[..] == old(nativeShopMenu.inventory.actualInventory[..])
      ensures amount > 0 && old(SlotStillHoldsItem()) ==>
        var inventory := nativeShopMenu.inventory.actualInventory;
        && clickedItem.stack == old(clickedItem.stack) - amount >= 0
        && inventory[..] == old(inventory[..])[clickedItemIndex :=
             if clickedItem.stack <= 0 then null else clickedItem]
        && (inventory[clickedItemIndex] == null <==> amount == old(clickedItem.stack))
    {
      var stack := clickedItem.stack;
      amount := Min(requested, stack);
      if amount <= 0 {
        return;
      }

      var inventory := nativeShopMenu.inventory.actualInventory;
      if 0 <= clickedItemIndex < inventory.Length && inventory[clickedItemIndex] == clickedItem {
        var item := inventory[clickedItemIndex];
        item.stack := item.stack - amount;
        if item.stack <= 0 {
          inventory[clickedItemIndex] := null;
        }
      }

      Animate(amount);
    }

    /** `Animate(amount)`: appends the coin sprites for the sale to the
        shop's animation list. */
    method Animate(sold: int)
      modifies nativeShopMenu`animations
      ensures nativeShopMenu.animations == old(nativeShopMenu.animations) + AnimationFor(sold)
    {
      if sold > AnimationThreshold {
        return;
      }
      var coins := Min(CsDiv(sold, 8) + 2, MaxCoins);
      var j := 0;
      while j < coins
        invariant 0 <= j <= Max(coins, 0)
        invariant nativeShopMenu.animations == old(nativeShopMenu.animations) + CoinSprites(j)
      {
        nativeShopMenu.animations := nativeShopMenu.animations + [Sprite(j * 25, 2), Sprite(j * 50, 4)];
        j := j + 1;
      }
    }

    /** `Create`: a sell action for the first non-empty inventory slot
        holding the item under the mouse (`itemAtMouse` is the value of
        `getItemAt`), or null when no slot holds it. */
    static method Create(shopMenu: ShopMenu, mouse: Point, itemAtMouse: Item?)
      returns (action: SellAction?)
      ensures var slots := shopMenu.inventory.actualInventory[..];
        action == null <==> itemAtMouse == null || itemAtMouse !in slots
      ensures action != null ==>
        var slots := shopMenu.inventory.actualInventory[..];
        && fresh(action)
        && action.nativeShopMenu == shopMenu
        && action.clickedItem == itemAtMouse
        && action.clickedItemIndex == FirstIndexOf(slots, itemAtMouse)
        && action.amount == DefaultSplitAmount(itemAtMouse.stack)
    {
      var inventory := shopMenu.inventory.actualInventory;
      var i := 0;
      while i < inventory.Length
        invariant 0 <= i <= inventory.Length
        invariant itemAtMouse != null ==> itemAtMouse !in inventory[..i]
      {
        var item := inventory[i];
        if item != null && itemAtMouse == item {
          assert inventory[..i + 1][i] == item;
          FirstIndexIsPosition(inventory[..], itemAtMouse, i);
          action := new SellAction(shopMenu, item, i);
          return;
        }
        assert inventory[..i + 1] == inventory[..i] + [item];
        i := i + 1;
      }
      assert inventory[..i] == inventory[..];
      action := null;
    }
  }

  /** A position holding `x` with no `x` before it is the first index of `x`. */
  lemma {:induction false} FirstIndexIsPosition<T>(s: seq<T>, x: T, i: int)
    requires 0 <= i < |s| && s[i] == x && x !in s[..i]
    ensures FirstIndexOf(s, x) == i
    decreases i
  {
    if i > 0 {
      assert s[1..][..i - 1] == s[1..i];
      assert s[1..i] == s[..i][1..];
      FirstIndexIsPosition(s[1..], x, i - 1);
    }
  }
}
