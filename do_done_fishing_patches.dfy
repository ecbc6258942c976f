/** The patch around `FishingRod.doDoneFishing` (`DoDoneFishingPatches`).
    Before the game uses up tackle, the prefix remembers the rod's tackle;
    afterwards the postfix puts a remembered tackle back into a tackle slot
    the game emptied, taking one unit off its stack, as long as more than
    one unit was left. */
module DoDoneFishing {
  import opened Host

  /** Whether the postfix refills a slot: the remembered tackle exists, the
      slot is empty and the stack has more than one unit. */
  predicate Refills(tackle: Item?, slotBefore: Item?, stackBefore: int) {
    tackle != null && slotBefore == null && stackBefore > 1
  }

  /** Whether the postfix indexes past the end of the attachment slots:
      tackle `k` is matched to slot `k + 1`, and a present tackle with no
      slot to match makes the slot read fail. */
  predicate PostfixOverruns(tackles: seq<Item?>, slotCount: int) {
    exists k :: 0 <= k < |tackles| && tackles[k] != null && k + 1 >= slotCount
  }

  /** The remembered tackle objects are all different. */
  predicate DistinctTackles(tackles: seq<Item?>) {
    forall j, k :: 0 <= j < k < |tackles| && tackles[j] != null ==> tackles[j] != tackles[k]
  }

  /** A tackle's stack and wear are as they were. */
  twostate predicate Kept(tackle: Item)
    reads tackle
  {
    tackle.stack == old(tackle.stack) && tackle.uses == old(tackle.uses)
  }

  class DoDoneFishingPatches {
    /** The snapshot taken by the prefix, one entry per tackle slot. */
    var tackles: seq<Item?>

    constructor ()
      ensures tackles == []
    {
      tackles := [];
    }

    /** `Prefix`: remembers the rod's tackle (`rodTackle` is what
        `GetTackle()` returns), replacing any earlier snapshot. */
    method Prefix(rodTackle: seq<Item?>)
      modifies this`tackles
      ensures tackles == rodTackle
    {
      tackles := rodTackle;
    }

    /** One step of the postfix: an empty slot `i` gets `tackle` when more
        than one unit of it is left, which costs the tackle one unit and its
        wear; otherwise nothing changes. */
    static method RefillSlot(attachments: array<Item?>, i: int, tackle: Item)
      requires 0 <= i < attachments.Length
      modifies attachments, tackle
      ensures Refills(tackle, old(attachments[i]), old(tackle.stack)) ==>
        && attachments[..] == old(attachments[..])[i := tackle]
        && tackle.stack == old(tackle.stack) - 1 && tackle.uses == 0
      ensures !Refills(tackle, old(attachments[i]), old(tackle.stack)) ==>
        attachments[..] == old(attachments[..]) && Kept(tackle)
    {
      if attachments[i] == null && tackle.stack > 1 {
        tackle.stack := tackle.stack - 1;
        tackle.uses := 0;
        attachments[i] := tackle;
      }
    }

    /** `Postfix`. Nothing happens when the rod has no attachment array or
        at most one slot. Otherwise tackle `k` of the snapshot is matched
        with slot `k + 1`: when `Refills` holds, the slot gets the tackle,
        its stack loses one unit and its wear counter is reset; every other
        slot and tackle is left alone. `overran` reports the index fault of
        a present tackle without a matching slot, which ends the loop; every
        slot in range has been handled by then. */
    method Postfix(attachments: array?<Item?>) returns (overran: bool)
      requires DistinctTackles(tackles)
      modifies attachments, set t | t in tackles && t != null
      ensures attachments == null || attachments.Length <= 1 ==>
        && !overran
        && (attachments != null ==> attachments[..] == old(attachments[..]))
        && forall k :: 0 <= k < |tackles| && tackles[k] != null ==> Kept(tackles[k])
      ensures attachments != null && attachments.Length > 1 ==>
        && overran == PostfixOverruns(tackles, attachments.Length)
        && attachments[0] == old(attachments[0])
        && (forall i :: 1 <= i < attachments.Length && i - 1 >= |tackles| ==> attachments[i] == old(attachments[i]))
        && (forall i :: 1 <= i < attachments.Length && i - 1 < |tackles| ==>
              if Refills(tackles[i - 1], old(attachments[i]), old(StackOrZero(tackles[i - 1])))
              then attachments[i] == tackles[i - 1]
              else attachments[i] == old(attachments[i]))
        && (forall k :: 0 <= k < |tackles| && tackles[k] != null ==>
              if k + 1 < attachments.Length && Refills(tackles[k], old(attachments[k + 1]), old(tackles[k].stack))
              then tackles[k].stack == old(tackles[k].stack) - 1 && tackles[k].uses == 0
              else Kept(tackles[k]))
    {
      overran := false;
      if attachments == null || attachments.Length <= 1 {
        return;
      }
      var i := 1;
      var k := 0;
      while k < |tackles|
        invariant 0 <= k <= |tackles| && i == k + 1
        invariant !PostfixOverruns(tackles[..k], attachments.Length)
        invariant attachments[0] == old(attachments[0])
        invariant forall j :: i <= j < attachments.Length ==> attachments[j] == old(attachments[j])
        invariant forall j :: 1 <= j < i && j < attachments.Length ==>
          if Refills(tackles[j - 1], old(attachments[j]), old(StackOrZero(tackles[j - 1])))
          then attachments[j] == tackles[j - 1]
          else attachments[j] == old(attachments[j])
        invariant forall m :: 0 <= m < |tackles| && tackles[m] != null ==>
          if m < k && m + 1 < attachments.Length && Refills(tackles[m], old(attachments[m + 1]), old(tackles[m].stack))
          then tackles[m].stack == old(tackles[m].stack) - 1 && tackles[m].uses == 0
          else Kept(tackles[m])
      {
        var tackle := tackles[k];
        if tackle != null {
          if i >= attachments.Length {
            overran := true;
            return;
          }
          RefillSlot(attachments, i, tackle);
        }
        assert tackles[..k + 1] == tackles[..k] + [tackle];
        i := i + 1;
        k := k + 1;
      }
      assert tackles[..k] == tackles;
    }
  }
}
