/**
 * The per-vehicle-type configuration the data loader provides: the inventory
 * description (size and typed slots) and the weapon-mount table.
 */
module Description {
  datatype SlotType = WeaponSlot | BoosterSlot | UpgradeSlot | OtherSlot(tag: nat)

  datatype Slot = Slot(index: int, slotType: SlotType)

  /** Every slot's index addresses a position of an inventory of `size` stacks. */
  predicate SlotsWithin(slots: seq<Slot>, size: int) {
    forall s :: s in slots ==> 0 <= s.index < size
  }

  /**
   * The slots of type `t`, in the order the description lists them; a slot
   * listed several times is kept as often as it is listed.
   */
  function SlotsOfType(slots: seq<Slot>, t: SlotType): (r: seq<Slot>)
    ensures forall s {:trigger multiset(r)[s]} :: multiset(r)[s] == if s.slotType == t then multiset(slots)[s] else 0
    ensures forall s :: s in r <==> s in slots && s.slotType == t
    ensures |r| <= |slots|
  {
    if slots == [] then []
    else
      var rest := SlotsOfType(slots[1..], t);
      assert slots == [slots[0]] + slots[1..];
      assert multiset(slots) == multiset{slots[0]} + multiset(slots[1..]);
      assert forall s :: s in slots <==> s == slots[0] || s in slots[1..];
      if slots[0].slotType == t then
        assert multiset([slots[0]] + rest) == multiset{slots[0]} + multiset(rest);
        [slots[0]] + rest
      else rest
  }

  /**
   * Selection keeps the description's order: the slots of type `t` in a
   * concatenation are those of the first part followed by those of the second.
   */
  lemma {:induction false} SlotsOfTypeConcat(a: seq<Slot>, b: seq<Slot>, t: SlotType)
    ensures SlotsOfType(a + b, t) == SlotsOfType(a, t) + SlotsOfType(b, t)
  {
    if a == [] {
      assert a + b == b;
    } else {
      assert (a + b)[0] == a[0];
      assert (a + b)[1..] == a[1..] + b;
      SlotsOfTypeConcat(a[1..], b, t);
    }
  }

  datatype InventoryDescription = InventoryDescription(inventorySize: nat, slots: seq<Slot>) {
    /** A description whose slots all lie inside the inventory it describes. */
    predicate WellFormed() {
      SlotsWithin(slots, inventorySize)
    }

    function SlotsOf(t: SlotType): seq<Slot> {
      SlotsOfType(slots, t)
    }
  }

  /** The kind of mount a weapon item needs; opaque. */
  type MountType = nat

  /** A mount point; `EmptyMount` is the placeholder for "no configured geometry". */
  datatype WeaponMount = EmptyMount | Mount(geometry: nat)

  /** Slot index, then mount type, to the mounts configured there. */
  type MountTable = map<int, map<MountType, seq<WeaponMount>>>

  datatype VehicleData = VehicleData(inventory: InventoryDescription, weaponMounts: MountTable)
}
