/** The generic "split a stack onto the cursor" engine (`InventoryHandler`):
    it remembers the hovered item, decides whether it may be split, and
    commits a split by moving part of the hovered stack onto the held one.
    It also keeps a cache of the slot list that is refreshed only when a
    cheap fingerprint of the slots changes. */
module InventoryHandlers {
  import opened Common
  import opened Host
  import opened CanStackWithPatches

  /*** Fingerprint and counts of a slot list ***/

  /** One step of the fingerprint fold: mix in the slot's identity hash
      (0 for a hole) and, for an item, its stack size, in wrapping `int`
      arithmetic. */
  function HashStep(hash: int, item: Item?): (r: int)
    reads item
    ensures InInt32(r)
  {
    var h := Wrap32(hash * 23 + (if item == null then 0 else item.hashCode));
    if item == null then h else Wrap32(h * 23 + item.stack)
  }

  /** The fingerprint of a slot list: seed 17, then one `HashStep` per slot
      from first to last. */
  function InventoryHash(s: seq<Item?>): (r: int)
    reads s
    ensures InInt32(r)
  {
    if |s| == 0 then 17 else HashStep(InventoryHash(s[..|s| - 1]), s[|s| - 1])
  }

  /** Two slots look the same to the fingerprint. */
  predicate SameContent(a: Item?, b: Item?)
    reads a, b
  {
    (a == null <==> b == null) &&
    (a != null && b != null ==> a.hashCode == b.hashCode && a.stack == b.stack)
  }

  /** The fingerprint depends on each slot's identity hash and stack size
      only: slot lists that agree on those hash alike. */
  lemma {:induction false} InventoryHashDependsOnContentsOnly(s: seq<Item?>, t: seq<Item?>)
    requires |s| == |t|
    requires forall i :: 0 <= i < |s| ==> SameContent(s[i], t[i])
    ensures InventoryHash(s) == InventoryHash(t)
    decreases |s|
  {
    if |s| > 0 {
      InventoryHashDependsOnContentsOnly(s[..|s| - 1], t[..|t| - 1]);
    }
  }

  /** The number of non-empty slots. */
  function CountNonNull(s: seq<Item?>): (n: nat)
    ensures n <= |s|
    ensures n == 0 <==> forall i :: 0 <= i < |s| ==> s[i] == null
  {
    if |s| == 0 then 0
    else CountNonNull(s[..|s| - 1]) + (if s[|s| - 1] != null then 1 else 0)
  }

  /** Emptying one occupied slot lowers the non-empty count by exactly one. */
  lemma {:induction false} CountNonNullAfterClear(s: seq<Item?>, i: int)
    requires 0 <= i < |s| && s[i] != null
    ensures CountNonNull(s[i := null]) == CountNonNull(s) - 1
    decreases |s|
  {
    var t := s[i := null];
    if i < |s| - 1 {
      assert t[..|t| - 1] == s[..|s| - 1][i := null];
      CountNonNullAfterClear(s[..|s| - 1], i);
    } else {
      assert t[..|t| - 1] == s[..|s| - 1];
    }
  }

  /** The slot list after the first slot holding `x` (by reference) is set
      to null; no index moves. */
  function ClearFirst(s: seq<Item?>, x: Item): (r: seq<Item?>)
    ensures |r| == |s|
    ensures x !in s ==> r == s
    ensures x in s ==> var i := FirstIndexOf(s, x);
      r[i] == null && forall j :: 0 <= j < |s| && j != i ==> r[j] == s[j]
    ensures CountNonNull(r) == CountNonNull(s) - (if x in s then 1 else 0)
  {
    var i := FirstIndexOf(s, x);
    if i == -1 then s
    else
      CountNonNullAfterClear(s, i);
      s[i := null]
  }

  /*** Bounds of the slot buttons ***/

  /** The rectangle from the first slot's top-left corner to the last
      slot's bottom-right corner, or `Rectangle.Empty` without slots. */
  function BoundsOf(slots: seq<Rect>): (r: Rect)
    ensures slots == [] ==> r == EmptyRect
    ensures slots != [] ==> r.x == slots[0].x && r.y == slots[0].y
    ensures slots != [] ==> r.x + r.width == slots[|slots| - 1].x + slots[|slots| - 1].width
    ensures slots != [] ==> r.y + r.height == slots[|slots| - 1].y + slots[|slots| - 1].height
  {
    if slots == [] then EmptyRect
    else
      var first, last := slots[0], slots[|slots| - 1];
      Rect(first.x, first.y, last.x + last.width - first.x, last.y + last.height - first.y)
  }

  /** When the slots are laid out between the first and the last one (rows
      left to right, top to bottom), a click on any slot is inside the
      bounds. */
  lemma SlotClickIsInsideBounds(slots: seq<Rect>, k: int, px: int, py: int)
    requires 0 <= k < |slots| && slots[k].Contains(px, py)
    requires slots[0].x <= slots[k].x && slots[0].y <= slots[k].y
    requires slots[k].x + slots[k].width <= slots[|slots| - 1].x + slots[|slots| - 1].width
    requires slots[k].y + slots[k].height <= slots[|slots| - 1].y + slots[|slots| - 1].height
    ensures BoundsOf(slots).Contains(px, py)
  {
  }

  /*** Split arithmetic ***/

  /** Whether the hovered stack may be split onto the cursor. */
  predicate CanSplit(hovered: Item?, held: Item?)
    reads hovered, held
  {
    && hovered != null
    && hovered.stack > 1
    && (held == null || (CanStackWith(hovered, held) && held.stack < held.maxStack))
  }

  /** The default split: half of the stack, rounded up (`(Stack + 1) / 2`),
      in wrapping `int` arithmetic. */
  function DefaultSplitAmount(stack: int): int {
    CsDiv(Wrap32(stack + 1), 2)
  }

  /** Below `int.MaxValue` the default is the ceiling of half the stack, and
      splitting a stack of at least two by it leaves something behind. */
  lemma DefaultSplitIsCeilingHalf(stack: int)
    requires 0 <= stack < IntMax
    ensures var d := DefaultSplitAmount(stack);
      2 * d == stack || 2 * d == stack + 1
    ensures stack >= 2 ==> 1 <= DefaultSplitAmount(stack) < stack
  {
  }

  /** At `int.MaxValue` the `+ 1` wraps to `int.MinValue`, and the default
      becomes negative. */
  lemma DefaultSplitWrapsAtIntMax()
    ensures DefaultSplitAmount(IntMax) == -0x4000_0000
  {
    assert Wrap32(IntMax + 1) == IntMin;
  }

  /** The amount actually moved: first into `[0, hoveredCount]`, then lowered
      to the room left under `maxStack` when the held stack would overflow.
      The overflow test and the room are computed in wrapping `int`
      arithmetic. */
  function ClampSplitAmount(requested: int, hoveredCount: int, maxStack: int, heldCount: int): int {
    var a := Min(Max(0, requested), hoveredCount);
    if Wrap32(heldCount + a) > maxStack then Wrap32(maxStack - heldCount) else a
  }

  /** When the held stack is within its maximum and the held count plus the
      requested part of the hovered stack fits in an `int` (the case
      `ClampSplitAmountSkipsOnIntOverflow` leaves), the moved amount is the largest amount allowed by the
      request, the hovered stack and the room left; the held stack then
      stays within the maximum and the hovered stack never goes negative. */
  lemma ClampSplitAmountIsLargestFit(requested: int, hoveredCount: int, maxStack: int, heldCount: int)
    requires 0 <= heldCount <= maxStack <= IntMax && 0 <= hoveredCount
    requires heldCount + Min(Max(0, requested), hoveredCount) <= IntMax
    ensures var a := ClampSplitAmount(requested, hoveredCount, maxStack, heldCount);
      && a == Min(Min(Max(0, requested), hoveredCount), maxStack - heldCount)
      && 0 <= a <= hoveredCount
      && heldCount + a <= maxStack
      && (hoveredCount - a <= 0 <==> a == hoveredCount)
  {
  }

  /** When the held count plus the requested amount passes `int.MaxValue`,
      the wrapped sum is negative, so the overflow test fails and the whole
      requested amount is moved: the held stack then wraps to a negative
      count. */
  lemma ClampSplitAmountSkipsOnIntOverflow(requested: int, hoveredCount: int, maxStack: int, heldCount: int)
    requires 0 <= heldCount <= maxStack <= IntMax && 0 <= hoveredCount <= IntMax
    requires heldCount + Min(Max(0, requested), hoveredCount) > IntMax
    ensures var a := Min(Max(0, requested), hoveredCount);
      && ClampSplitAmount(requested, hoveredCount, maxStack, heldCount) == a
      && Wrap32(heldCount + a) == heldCount + a - TwoTo32 < 0
  {
    var a := Min(Max(0, requested), hoveredCount);
    Wrap32OfOverflow(heldCount + a);
  }

  /** Amounts at or below zero move nothing, and amounts above the hovered
      stack move at most the whole stack. */
  lemma ClampSplitAmountBoundaries(requested: int, hoveredCount: int, maxStack: int, heldCount: int)
    requires 0 <= heldCount <= maxStack <= IntMax && 0 <= hoveredCount
    ensures requested <= 0 ==> ClampSplitAmount(requested, hoveredCount, maxStack, heldCount) == 0
    ensures requested >= hoveredCount && heldCount + hoveredCount <= maxStack ==>
      ClampSplitAmount(requested, hoveredCount, maxStack, heldCount) == hoveredCount
  {
  }

  /*** The handler ***/

  class InventoryHandler {
    var nativeInventoryMenu: InventoryMenu?
    var bounds: Rect
    var selectedItemPositionX: int
    var selectedItemPositionY: int
    var hoveredItem: Item?
    var cachedInventoryItems: seq<Item?>
    var lastInventoryHash: int
    var nonNullItemCount: int

    /** `Initialized`: a native inventory menu is bound. */
    predicate Initialized()
      reads this
    {
      nativeInventoryMenu != null
    }

    constructor ()
      ensures !Initialized() && hoveredItem == null && bounds == EmptyRect
      ensures cachedInventoryItems == [] && lastInventoryHash == 0 && nonNullItemCount == 0
      ensures selectedItemPositionX == 0 && selectedItemPositionY == 0
    {
      nativeInventoryMenu := null;
      bounds := EmptyRect;
      selectedItemPositionX, selectedItemPositionY := 0, 0;
      hoveredItem := null;
      cachedInventoryItems := [];
      lastInventoryHash := 0;
      nonNullItemCount := 0;
    }

    /** The state `UpdateInventoryCache` leaves, given the cache fields it
        started from: a rebuild exactly when the fingerprint or the length
        differs, after which the cache is the live list and the count is
        its number of non-empty slots; otherwise the cache is kept and the
        count is `countIfKept`. */
    predicate CacheUpdatedFrom(oldCached: seq<Item?>, oldHash: int, countIfKept: int)
      requires Initialized()
      reads this, nativeInventoryMenu.actualInventory, nativeInventoryMenu.actualInventory[..]
    {
      var live := nativeInventoryMenu.actualInventory[..];
      if InventoryHash(live) != oldHash || |oldCached| != |live| then
        && cachedInventoryItems == live
        && lastInventoryHash == InventoryHash(live)
        && nonNullItemCount == CountNonNull(live)
      else
        && cachedInventoryItems == oldCached
        && lastInventoryHash == oldHash
        && nonNullItemCount == countIfKept
    }

    /** `Init`: binds the native menu, refreshes the cache and the bounds. */
    method Init(inventoryMenu: InventoryMenu)
      modifies this
      ensures nativeInventoryMenu == inventoryMenu
      ensures bounds == BoundsOf(inventoryMenu.inventory)
      ensures CacheUpdatedFrom(old(cachedInventoryItems), old(lastInventoryHash), old(nonNullItemCount))
      ensures hoveredItem == old(hoveredItem)
      ensures selectedItemPositionX == old(selectedItemPositionX)
      ensures selectedItemPositionY == old(selectedItemPositionY)
    {
      nativeInventoryMenu := inventoryMenu;
      UpdateInventoryCache();
      UpdateBounds();
    }

    /** `UpdateInventoryCache`: rebuilds the cache only when the live list
        changed as far as the fingerprint and the length can tell. */
    method UpdateInventoryCache()
      requires Initialized()
      modifies this`cachedInventoryItems, this`lastInventoryHash, this`nonNullItemCount
      ensures CacheUpdatedFrom(old(cachedInventoryItems), old(lastInventoryHash), old(nonNullItemCount))
    {
      var actualInventory := nativeInventoryMenu.actualInventory;
      var currentHash := ComputeInventoryHash(actualInventory);
      if currentHash != lastInventoryHash || |cachedInventoryItems| != actualInventory.Length {
        cachedInventoryItems := actualInventory[..];
        lastInventoryHash := currentHash;
        nonNullItemCount := 0;
        var i := 0;
        while i < |cachedInventoryItems|
          invariant 0 <= i <= |cachedInventoryItems|
          invariant cachedInventoryItems == actualInventory[..] && lastInventoryHash == currentHash
          invariant nonNullItemCount == CountNonNull(cachedInventoryItems[..i])
        {
          assert cachedInventoryItems[..i + 1][..i] == cachedInventoryItems[..i];
          if cachedInventoryItems[i] != null {
            nonNullItemCount := nonNullItemCount + 1;
          }
          i := i + 1;
        }
        assert cachedInventoryItems[..i] == cachedInventoryItems;
      }
    }

    /** `ComputeInventoryHash`: the fingerprint of the live slots. */
    static method ComputeInventoryHash(inventory: array<Item?>) returns (hash: int)
      ensures hash == InventoryHash(inventory[..])
    {
      hash := 17;
      var i := 0;
      while i < inventory.Length
        invariant 0 <= i <= inventory.Length
        invariant hash == InventoryHash(inventory[..i])
      {
        var item := inventory[i];
        assert inventory[..i + 1][..i] == inventory[..i];
        hash := Wrap32(hash * 23 + (if item == null then 0 else item.hashCode));
        if item != null {
          hash := Wrap32(hash * 23 + item.stack);
        }
        i := i + 1;
      }
      assert inventory[..i] == inventory[..];
    }

    /** `UpdateBounds`: the rectangle spanned by the slot buttons. */
    method UpdateBounds()
      requires Initialized()
      modifies this`bounds
      ensures bounds == BoundsOf(nativeInventoryMenu.inventory)
    {
      var inventory := nativeInventoryMenu.inventory;
      if |inventory| == 0 {
        bounds := EmptyRect;
        return;
      }
      var first := inventory[0];
      var last := inventory[|inventory| - 1];
      bounds := Rect(first.x, first.y, last.x + last.width - first.x, last.y + last.height - first.y);
    }

    /** `WasClicked(mouseX, mouseY)` (and the `Point` overload): whether the
        click falls inside the slots' bounds. Once `Init` has run, a menu
        without slots is never clicked, and a click always lies between the
        first slot's top-left corner and the last slot's bottom-right one. */
    function WasClicked(mouseX: int, mouseY: int): (r: bool)
      requires Initialized()
      reads this
      ensures bounds == BoundsOf(nativeInventoryMenu.inventory) && r ==>
        var slots := nativeInventoryMenu.inventory;
        && slots != []
        && slots[0].x <= mouseX < slots[|slots| - 1].x + slots[|slots| - 1].width
        && slots[0].y <= mouseY < slots[|slots| - 1].y + slots[|slots| - 1].height
    {
      bounds.Contains(mouseX, mouseY)
    }

    /** `SelectItem`: remembers the click position and the item the menu's
        hovered-item field holds at that moment (`hovered`). */
    method SelectItem(mouseX: int, mouseY: int, hovered: Item?)
      requires Initialized()
      modifies this`selectedItemPositionX, this`selectedItemPositionY, this`hoveredItem
      ensures selectedItemPositionX == mouseX && selectedItemPositionY == mouseY
      ensures hoveredItem == hovered
    {
      selectedItemPositionX := mouseX;
      selectedItemPositionY := mouseY;
      hoveredItem := hovered;
    }

    /** `CanSplitSelectedItem`: an item is hovered, its stack has more than
        one unit, and nothing is held or the held stack accepts it and has
        room. When it holds for a stack below `int.MaxValue`, the default
        split leaves at least one unit. */
    predicate CanSplitSelectedItem(player: Farmer)
      requires Initialized()
      reads this, hoveredItem, player, player.cursorSlotItem
      ensures CanSplitSelectedItem(player) ==>
        && hoveredItem != null
        && (hoveredItem.stack < IntMax ==> 1 <= DefaultSplitAmount(hoveredItem.stack) < hoveredItem.stack)
    {
      if CanSplit(hoveredItem, player.cursorSlotItem) then
        if hoveredItem.stack < IntMax then
          DefaultSplitIsCeilingHalf(hoveredItem.stack);
          true
        else
          true
      else
        false
    }

    /** `GetDefaultSplitStackAmount`: half of the hovered stack rounded up,
        except at `int.MaxValue`, where the sum wraps. */
    function GetDefaultSplitStackAmount(): (r: int)
      requires hoveredItem != null
      reads this, hoveredItem
      ensures 0 <= hoveredItem.stack < IntMax ==> 2 * r == hoveredItem.stack || 2 * r == hoveredItem.stack + 1
      ensures hoveredItem.stack == IntMax ==> r < 0
    {
      if 0 <= hoveredItem.stack < IntMax then
        DefaultSplitIsCeilingHalf(hoveredItem.stack);
        DefaultSplitAmount(hoveredItem.stack)
      else if hoveredItem.stack == IntMax then
        DefaultSplitWrapsAtIntMax();
        DefaultSplitAmount(hoveredItem.stack)
      else
        DefaultSplitAmount(hoveredItem.stack)
    }

    /** The amount `SplitSelectedItem(stackAmount)` moves in the current state. */
    function SplitAmount(stackAmount: int, player: Farmer): int
      requires hoveredItem != null
      reads this, hoveredItem, player, player.cursorSlotItem
    {
      ClampSplitAmount(stackAmount, hoveredItem.stack, hoveredItem.maxStack, StackOrZero(player.cursorSlotItem))
    }

    /** The state `SplitSelectedItem(stackAmount)` leaves, `hovered` being
        the item that was selected and `picked` the item the native
        right-click returned. The clamped amount (`SplitAmount`) joins the
        held count on `picked`, which goes to the cursor; the hovered stack
        loses it, or, when nothing is left, keeps its count and is taken out
        of its slot. Counts wrap as `int`s do, and only the two stack counts
        of the items change. The selection is cleared, the
        cache is refreshed from the resulting slots, and the binding, bounds
        and click position are kept. */
    twostate predicate SplitDone(stackAmount: int, player: Farmer, picked: Item, hovered: Item)
      requires Initialized()
      reads this, hovered, picked, player, nativeInventoryMenu.actualInventory, nativeInventoryMenu.actualInventory[..]
    {
      var moved := old(ClampSplitAmount(stackAmount, hovered.stack, hovered.maxStack, StackOrZero(player.cursorSlotItem)));
      var left := Wrap32(old(hovered.stack) - moved);
      var inv := nativeInventoryMenu.actualInventory;
      && nativeInventoryMenu == old(nativeInventoryMenu) && bounds == old(bounds)
      && selectedItemPositionX == old(selectedItemPositionX)
      && selectedItemPositionY == old(selectedItemPositionY)
      && hoveredItem == null && player.cursorSlotItem == picked
      && hovered.uses == old(hovered.uses) && picked.uses == old(picked.uses)
      && picked.stack == Wrap32(old(StackOrZero(player.cursorSlotItem)) + moved)
      && if left <= 0 then
           && hovered.stack == old(hovered.stack)
           && inv[..] == ClearFirst(old(inv[..]), hovered)
           && CacheUpdatedFrom(old(cachedInventoryItems), old(lastInventoryHash),
                old(nonNullItemCount) - (if hovered in old(inv[..]) then 1 else 0))
         else
           && hovered.stack == left
           && inv[..] == old(inv[..])
           && CacheUpdatedFrom(old(cachedInventoryItems), old(lastInventoryHash), old(nonNullItemCount))
    }

    /** The counts `SplitSelectedItem` computes: the requested amount is
        clamped to the hovered stack and to the room under `maxStack`, then
        moved from the hovered count to the held count, all in wrapping
        `int` arithmetic. */
    static method MoveSplitAmount(stackAmount: int, hoveredCount: int, maxStack: int, heldCount: int)
      returns (heldItemCount: int, hoveredItemCount: int)
      ensures var moved := ClampSplitAmount(stackAmount, hoveredCount, maxStack, heldCount);
        heldItemCount == Wrap32(heldCount + moved) && hoveredItemCount == Wrap32(hoveredCount - moved)
    {
      heldItemCount, hoveredItemCount := heldCount, hoveredCount;
      var amount := Min(Max(0, stackAmount), hoveredItemCount);
      if Wrap32(heldItemCount + amount) > maxStack {
        amount := Wrap32(maxStack - heldItemCount);
      }
      heldItemCount := Wrap32(heldItemCount + amount);
      hoveredItemCount := Wrap32(hoveredItemCount - amount);
    }

    /** The second half of `SplitSelectedItem`, once the counts are known:
        the hovered item leaves its slot when nothing is left of it and
        otherwise takes the new count, the picked item takes the held count
        and goes to the cursor, the selection is cleared and the cache is
        refreshed. */
    method CommitSplit(player: Farmer, picked: Item, hovered: Item, heldItemCount: int, hoveredItemCount: int)
      requires Initialized() && picked != hovered
      modifies this, hovered`stack, picked`stack, player`cursorSlotItem, nativeInventoryMenu.actualInventory
      ensures Initialized() && nativeInventoryMenu == old(nativeInventoryMenu) && bounds == old(bounds)
      ensures selectedItemPositionX == old(selectedItemPositionX) && selectedItemPositionY == old(selectedItemPositionY)
      ensures hoveredItem == null && player.cursorSlotItem == picked && picked.stack == heldItemCount
      ensures hoveredItemCount <= 0 ==>
        && hovered.stack == old(hovered.stack)
        && nativeInventoryMenu.actualInventory[..] == ClearFirst(old(nativeInventoryMenu.actualInventory[..]), hovered)
        && CacheUpdatedFrom(old(cachedInventoryItems), old(lastInventoryHash),
             old(nonNullItemCount) - (if hovered in old(nativeInventoryMenu.actualInventory[..]) then 1 else 0))
      ensures hoveredItemCount > 0 ==>
        && hovered.stack == hoveredItemCount
        && nativeInventoryMenu.actualInventory[..] == old(nativeInventoryMenu.actualInventory[..])
        && CacheUpdatedFrom(old(cachedInventoryItems), old(lastInventoryHash), old(nonNullItemCount))
    {
      if hoveredItemCount <= 0 {
        RemoveItemFromInventory(hovered);
      } else {
        hovered.stack := hoveredItemCount;
      }

      picked.stack := heldItemCount;
      player.cursorSlotItem := picked;
      hoveredItem := null;

      UpdateInventoryCache();
    }

    /** `SplitSelectedItem(stackAmount)`. The native right-click runs first;
        `picked` is the item it returns (never null, and never the hovered
        object itself). The rest is `SplitDone`. */
    method SplitSelectedItem(stackAmount: int, player: Farmer, picked: Item)
      requires Initialized() && hoveredItem != null
      requires picked != hoveredItem
      modifies this, hoveredItem`stack, picked`stack, player`cursorSlotItem, nativeInventoryMenu.actualInventory
      ensures Initialized() && SplitDone(stackAmount, player, picked, old(hoveredItem))
    {
      var hovered := hoveredItem;
      var heldItem := player.cursorSlotItem;
      var heldItemCount, hoveredItemCount := MoveSplitAmount(stackAmount, hovered.stack, hovered.maxStack,
                                                               StackOrZero(heldItem));
      // the native right-click has already run: its result is `picked`
      CommitSplit(player, picked, hovered, heldItemCount, hoveredItemCount);
    }

    /** `CancelSplit`: the default shift-right-click, i.e. a split by the
        default amount, but only when initialized and an item is selected;
        otherwise nothing changes. */
    method CancelSplit(player: Farmer, picked: Item)
      requires Initialized() && hoveredItem != null ==> picked != hoveredItem
      modifies this, hoveredItem, picked, player`cursorSlotItem
      modifies if nativeInventoryMenu != null then {nativeInventoryMenu.actualInventory} else {}
      ensures !old(Initialized() && hoveredItem != null) ==>
        && unchanged(this) && unchanged(picked) && player.cursorSlotItem == old(player.cursorSlotItem)
        && (hoveredItem != null ==> unchanged(hoveredItem))
        && (nativeInventoryMenu != null ==> unchanged(nativeInventoryMenu.actualInventory))
      ensures old(Initialized() && hoveredItem != null) ==>
        Initialized() && SplitDone(old(DefaultSplitAmount(hoveredItem.stack)), player, picked, old(hoveredItem))
    {
      if Initialized() && hoveredItem != null {
        var amount := GetDefaultSplitStackAmount();
        SplitSelectedItem(amount, player, picked);
      }
    }

    /** `RemoveItemFromInventory`: nulls the first slot holding `item` (by
        reference) and lowers the non-empty count; no other slot changes. */
    method RemoveItemFromInventory(item: Item)
      requires Initialized()
      modifies nativeInventoryMenu.actualInventory, this`nonNullItemCount
      ensures nativeInventoryMenu.actualInventory[..] == ClearFirst(old(nativeInventoryMenu.actualInventory[..]), item)
      ensures nonNullItemCount == old(nonNullItemCount) - (if item in old(nativeInventoryMenu.actualInventory[..]) then 1 else 0)
    {
      var inventoryItems := nativeInventoryMenu.actualInventory;
      var i := 0;
      while i < inventoryItems.Length
        invariant 0 <= i <= inventoryItems.Length
        invariant inventoryItems[..] == old(inventoryItems[..])
        invariant item !in inventoryItems[..i]
        invariant nonNullItemCount == old(nonNullItemCount)
      {
        if inventoryItems[i] == item {
          assert FirstIndexOf(inventoryItems[..], item) == i;
          inventoryItems[i] := null;
          nonNullItemCount := nonNullItemCount - 1;
          return;
        }
        assert inventoryItems[..i + 1] == inventoryItems[..i] + [inventoryItems[i]];
        i := i + 1;
      }
      assert inventoryItems[..i] == inventoryItems[..];
    }
  }
}
