/** The Harmony prefix on `Item.canStackWith`: a dresser that still holds
    items must never merge with anything, itself included. */
module CanStackWithPatches {
  import opened Host

  /** A `StorageFurniture` whose `heldItems` list is not empty. */
  predicate HoldsItems(x: Item?) {
    x != null && x.isStorageFurniture && x.heldItemsCount != 0
  }

  /** What a Harmony prefix gives back: whether the original method still
      runs, and the value of its `ref __result`. */
  datatype PrefixOutcome = PrefixOutcome(runOriginal: bool, result: bool)

  /** `CanStackWithPatches.Prefix(__instance, ref __result, other)`. */
  function Prefix(instance: Item, result: bool, other: Item?): (r: PrefixOutcome)
    ensures r.runOriginal <==> !HoldsItems(instance) && !HoldsItems(other)
    ensures !r.runOriginal ==> !r.result
    ensures r.runOriginal ==> r.result == result
  {
    if HoldsItems(instance) || HoldsItems(other) then PrefixOutcome(false, false)
    else PrefixOutcome(true, result)
  }

  /** The game's own `canStackWith`, reduced to what the mod depends on: both
      items stack (maximum above 1) and share their identity keys. */
  predicate OriginalCanStackWith(a: Item, b: Item?) {
    b != null && a.maxStack > 1 && b.maxStack > 1 && a.kind == b.kind
  }

  /** `a.canStackWith(b)` with the prefix installed: Harmony runs the prefix
      first and the original only when the prefix lets it. */
  predicate CanStackWith(a: Item, b: Item?) {
    var p := Prefix(a, false, b);
    if p.runOriginal then OriginalCanStackWith(a, b) else p.result
  }

  /** Blocking does not depend on the order of the two items. */
  lemma PrefixIsSymmetric(a: Item, b: Item, result: bool)
    ensures Prefix(a, result, b) == Prefix(b, result, a)
  {
  }

  /** A dresser with no items blocks nothing: the prefix lets the original
      decide whenever the other item is not a full dresser either. */
  lemma EmptyStorageNeverBlocks(a: Item, b: Item?, result: bool)
    requires a.isStorageFurniture && a.heldItemsCount == 0
    requires !HoldsItems(b)
    ensures Prefix(a, result, b).runOriginal
    ensures CanStackWith(a, b) == OriginalCanStackWith(a, b)
  {
  }

  /** A dresser holding items stacks with nothing, not even itself. */
  lemma FullStorageStacksWithNothing(a: Item, b: Item?)
    requires HoldsItems(a) || HoldsItems(b)
    ensures !CanStackWith(a, b)
  {
  }

  /** The patched relation is symmetric. */
  lemma CanStackWithIsSymmetric(a: Item, b: Item)
    ensures CanStackWith(a, b) == CanStackWith(b, a)
  {
  }
}
