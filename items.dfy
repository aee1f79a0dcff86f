/**
 * Item stacks as the vehicle's inventory holds them.
 *
 * In the game a stack is a mutable object compared by reference. The model
 * keeps stacks as values and gives each one an opaque `handle` that stands for
 * that reference: two stacks with the same item and count but different handles
 * are different objects, and shrinking a stack in place keeps its handle.
 */
module Items {
  /** Item identifier; `AIR` is the item of the empty stack. */
  type ItemId = nat

  const AIR: ItemId := 0

  datatype ItemStack = ItemStack(handle: nat, item: ItemId, count: int) {
    /** A stack is empty when it holds air or its count has dropped to zero or below. */
    predicate IsEmpty() {
      item == AIR || count <= 0
    }

    /** The item the stack reports holding: air once it is empty, whatever item it was. */
    function ItemOf(): (r: ItemId)
      ensures r == AIR <==> IsEmpty()
      ensures !IsEmpty() ==> r == item
    {
      if IsEmpty() then AIR else item
    }

    /** The same stack object with `n` fewer items. */
    function Shrink(n: int): ItemStack {
      ItemStack(handle, item, count - n)
    }
  }

  /** The shared empty stack every fresh inventory slot holds. */
  const EMPTY: ItemStack := ItemStack(0, AIR, 0)
}
