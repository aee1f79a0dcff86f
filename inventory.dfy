/**
 * The vehicle's inventory: lazy resizing against the current description, the
 * projection of a slot group onto the stacks it addresses, and the stacks the
 * vehicle drops when it is destroyed.
 */
module Inventory {
  import opened Items
  import opened Description

  /** The contents of a freshly created inventory of `size` slots. */
  function EmptyInventory(size: nat): seq<ItemStack> {
    seq(size, _ => EMPTY)
  }

  /**
   * What the inventory holds after it has been checked against the described
   * size: the old contents when the sizes agree, a fresh empty inventory when
   * they do not.
   */
  function Normalized(contents: seq<ItemStack>, size: nat): (r: seq<ItemStack>)
    ensures |r| == size
    ensures |contents| == size ==> r == contents
    ensures |contents| != size ==> forall i :: 0 <= i < size ==> r[i] == EMPTY
  {
    if |contents| == size then contents else EmptyInventory(size)
  }

  /** Checking the size a second time never resets the inventory again. */
  lemma {:induction false} NormalizedIdempotent(contents: seq<ItemStack>, size: nat)
    ensures Normalized(Normalized(contents, size), size) == Normalized(contents, size)
  {
  }

  /** The stack at each slot of `slots`, in slot order. */
  function SlotItems(items: seq<ItemStack>, slots: seq<Slot>): seq<ItemStack>
    requires SlotsWithin(slots, |items|)
  {
    seq(|slots|, i requires 0 <= i < |slots| => items[slots[i].index])
  }

  /** Builds the list of the stacks a slot group addresses, one per slot. */
  method Project(inv: array<ItemStack>, slots: seq<Slot>) returns (list: seq<ItemStack>)
    requires SlotsWithin(slots, inv.Length)
    ensures |list| == |slots|
    ensures forall i :: 0 <= i < |slots| ==> list[i] == inv[slots[i].index]
  {
    list := [];
    for i := 0 to |slots|
      invariant |list| == i
      invariant forall k :: 0 <= k < i ==> list[k] == inv[slots[k].index]
    {
      assert slots[i] in slots;
      list := list + [inv[slots[i].index]];
    }
  }

  /** A stack is dropped unless it is empty or carries the curse of vanishing. */
  predicate Droppable(s: ItemStack, vanishing: ItemStack -> bool) {
    !s.IsEmpty() && !vanishing(s)
  }

  /** The stacks emitted when the vehicle is destroyed, in slot order. */
  function Dropped(items: seq<ItemStack>, vanishing: ItemStack -> bool): (r: seq<ItemStack>)
    ensures |r| <= |items|
    ensures forall s :: s in r ==> s in items && Droppable(s, vanishing)
  {
    if items == [] then []
    else
      var rest := Dropped(items[..|items| - 1], vanishing);
      var s := items[|items| - 1];
      if Droppable(s, vanishing) then rest + [s] else rest
  }

  /**
   * Every droppable stack is dropped exactly as often as the inventory holds
   * it; empty and vanishing stacks are never dropped.
   */
  lemma {:induction false} DroppedCounts(items: seq<ItemStack>, vanishing: ItemStack -> bool)
    ensures forall s :: multiset(Dropped(items, vanishing))[s]
                        == if Droppable(s, vanishing) then multiset(items)[s] else 0
    ensures |Dropped(items, vanishing)| <= |items|
  {
    if items != [] {
      var init, last := items[..|items| - 1], items[|items| - 1];
      DroppedCounts(init, vanishing);
      assert items == init + [last];
      assert multiset(items) == multiset(init) + multiset{last};
    }
  }

  /** Collects the stacks to drop, walking the inventory slot by slot. */
  method DroppedStacks(inv: array<ItemStack>, vanishing: ItemStack -> bool) returns (dropped: seq<ItemStack>)
    ensures dropped == Dropped(inv[..], vanishing)
  {
    dropped := [];
    for i := 0 to inv.Length
      invariant dropped == Dropped(inv[..i], vanishing)
    {
      assert inv[..i + 1][..i] == inv[..i];
      var itemStack := inv[i];
      if itemStack.IsEmpty() || vanishing(itemStack) {
        continue;
      }
      dropped := dropped + [itemStack];
    }
    assert inv[..inv.Length] == inv[..];
  }
}
