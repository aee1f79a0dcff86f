/**
 * Weapon-mount lookup: the mount points a weapon item in a slot is anchored
 * at, read from the two-level table slot -> mount type -> mounts, with the
 * one-element placeholder list as fallback.
 */
module Mounts {
  import opened Wrappers
  import opened Items
  import opened Description

  /** Which items are weapon items, and the mount type each one needs. */
  type WeaponItems = ItemId -> Option<MountType>

  /** The fallback list: the placeholder mount alone. */
  const EMPTY_WEAPONS: seq<WeaponMount> := [EmptyMount]

  /**
   * The mounts for the stack held in `slot`, looked up by the item the stack
   * reports (air once it is empty). The result is the placeholder
   * list or one of the lists the table configures for that slot.
   */
  function WeaponMounts(stack: ItemStack, slot: int, weaponItems: WeaponItems, table: MountTable): (r: seq<WeaponMount>)
    ensures r == EMPTY_WEAPONS || (slot in table && r in table[slot].Values)
  {
    match weaponItems(stack.ItemOf())
    case None => EMPTY_WEAPONS
    case Some(mountType) =>
      var bySlot := if slot in table then table[slot] else map[];
      if mountType in bySlot then bySlot[mountType] else EMPTY_WEAPONS
  }

  /** Every list the table configures holds at least one mount. */
  predicate Configured(table: MountTable) {
    forall slot, mountType :: slot in table && mountType in table[slot] ==> |table[slot][mountType]| > 0
  }

  /**
   * The lookup falls back to exactly the placeholder list when the item is not
   * a weapon, when the slot has no entry, or when the slot has no entry for the
   * weapon's mount type; otherwise it returns the configured list.
   */
  lemma MountFallback(stack: ItemStack, slot: int, weaponItems: WeaponItems, table: MountTable)
    ensures var r := WeaponMounts(stack, slot, weaponItems, table);
      match weaponItems(stack.ItemOf())
      case None => r == [EmptyMount]
      case Some(mountType) =>
        if slot in table && mountType in table[slot] then r == table[slot][mountType]
        else r == [EmptyMount]
  {
  }

  /**
   * An emptied weapon stack reports air, so the lookup treats it as the empty
   * stack; with air not a weapon item that is the placeholder list.
   */
  lemma EmptyStackMounts(stack: ItemStack, slot: int, weaponItems: WeaponItems, table: MountTable)
    requires stack.IsEmpty()
    ensures WeaponMounts(stack, slot, weaponItems, table) == WeaponMounts(EMPTY, slot, weaponItems, table)
    ensures weaponItems(AIR).None? ==> WeaponMounts(stack, slot, weaponItems, table) == EMPTY_WEAPONS
  {
  }

  /** With every configured list non-empty, the lookup never yields an empty list. */
  lemma MountsNeverEmpty(stack: ItemStack, slot: int, weaponItems: WeaponItems, table: MountTable)
    requires Configured(table)
    ensures |WeaponMounts(stack, slot, weaponItems, table)| >= 1
  {
    var r := WeaponMounts(stack, slot, weaponItems, table);
    if r != EMPTY_WEAPONS {
      var mountType :| mountType in table[slot] && table[slot][mountType] == r;
    }
  }
}
