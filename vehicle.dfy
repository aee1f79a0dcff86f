/**
 * The inventory-bearing vehicle entity: it owns the inventory (resized lazily
 * whenever the vehicle's type data describes a different size), the live weapons
 * of its WEAPON slots, its velocity, and two smoothed steering inputs.
 *
 * The type data the data loader currently holds for the vehicle's identifier
 * is passed to each operation as `data`, since a data reload can change it
 * between calls; registries and host-world queries are parameters too.
 */
module Vehicle {
  import opened Wrappers
  import opened Items
  import opened Description
  import Inventory
  import Upgrades
  import Mounts
  import Weapons
  import Boosting
  import Motion

  class InventoryVehicle {
    var inventory: array<ItemStack>
    var weapons: Weapons.WeaponMap
    var velocity: Motion.Vec3
    var pressingX: real
    var pressingZ: real

    /** Everything but the inventory is as it was. */
    twostate predicate KeepsNonInventory()
      reads this
    {
      weapons == old(weapons) && velocity == old(velocity)
      && pressingX == old(pressingX) && pressingZ == old(pressingZ)
    }

    /**
     * The inventory has been checked against the described size: the same
     * inventory with the same contents when the sizes agreed, a fresh empty one
     * of the described size when they did not. Nothing else changed.
     */
    twostate predicate InventoryChecked(data: VehicleData)
      reads this, inventory
    {
      var size := data.inventory.inventorySize;
      && inventory.Length == size
      && inventory[..] == Inventory.Normalized(old(inventory[..]), size)
      && (old(inventory.Length) == size ==> inventory == old(inventory))
      && (old(inventory.Length) != size ==> fresh(inventory))
      && KeepsNonInventory()
    }

    /**
     * The inventory check a slot lookup of type `t` leaves behind: a lookup
     * reads the inventory once per slot, so a type without slots leaves the
     * inventory (even one of the wrong size) and everything else untouched.
     */
    twostate predicate SlotsChecked(data: VehicleData, t: SlotType)
      reads this, inventory
    {
      if |data.inventory.SlotsOf(t)| > 0 then InventoryChecked(data)
      else inventory == old(inventory) && inventory[..] == old(inventory[..]) && KeepsNonInventory()
    }

    constructor (data: VehicleData)
      ensures fresh(inventory) && inventory[..] == Inventory.EmptyInventory(data.inventory.inventorySize)
      ensures weapons == map[] && velocity == Motion.ZERO && pressingX == 0.0 && pressingZ == 0.0
    {
      inventory := new ItemStack[data.inventory.inventorySize](_ => EMPTY);
      weapons := map[];
      velocity := Motion.ZERO;
      pressingX, pressingZ := 0.0, 0.0;
      new;
      assert inventory[..] == Inventory.EmptyInventory(data.inventory.inventorySize);
    }

    /** Replaces the inventory by a fresh, empty one of the described size. */
    method InitInventory(data: VehicleData)
      modifies this
      ensures fresh(inventory) && inventory[..] == Inventory.EmptyInventory(data.inventory.inventorySize)
      ensures KeepsNonInventory()
    {
      inventory := new ItemStack[data.inventory.inventorySize](_ => EMPTY);
      assert inventory[..] == Inventory.EmptyInventory(data.inventory.inventorySize);
    }

    /** The inventory, first reinitialised when its size differs from the described size. */
    method GetInventory(data: VehicleData) returns (inv: array<ItemStack>)
      modifies this
      ensures inv == inventory
      ensures InventoryChecked(data)
    {
      var inventorySize := data.inventory.inventorySize;
      if inventorySize != inventory.Length {
        InitInventory(data);
      }
      inv := inventory;
    }

    /** The stacks of the slots of type `t`, one per described slot, in order. */
    method GetSlots(data: VehicleData, t: SlotType) returns (list: seq<ItemStack>)
      requires data.inventory.WellFormed()
      modifies this
      ensures SlotsChecked(data, t)
      ensures |list| == |data.inventory.SlotsOf(t)|
      ensures list == Inventory.SlotItems(inventory[..], data.inventory.SlotsOf(t))
    {
      var slots := data.inventory.SlotsOf(t);
      list := [];
      for j := 0 to |slots|
        invariant j == 0 ==> inventory == old(inventory) && inventory[..] == old(inventory[..]) && KeepsNonInventory()
        invariant j > 0 ==> InventoryChecked(data)
        invariant |list| == j
        invariant forall k :: 0 <= k < j ==> list[k] == inventory[slots[k].index]
      {
        assert slots[j] in slots;
        var inv := GetInventory(data);
        list := list + [inv[slots[j].index]];
      }
    }

    /** The factor the installed upgrades apply to `stat`; never negative. */
    method GetTotalUpgrade(data: VehicleData, registry: Upgrades.UpgradeRegistry, stat: Upgrades.Stat) returns (value: real)
      requires data.inventory.WellFormed()
      modifies this
      ensures SlotsChecked(data, UpgradeSlot)
      ensures value >= 0.0
      ensures value == Upgrades.Aggregate(Upgrades.Contributions(registry, stat,
                         Inventory.SlotItems(inventory[..], data.inventory.SlotsOf(UpgradeSlot))))
    {
      var upgrades := GetSlots(data, UpgradeSlot);
      value := Upgrades.TotalUpgrade(upgrades, registry, stat);
    }

    /** The mounts of the weapon held in `slot`, or the placeholder list. */
    method GetWeaponMounts(data: VehicleData, weaponItems: Mounts.WeaponItems, slot: int) returns (mounts: seq<WeaponMount>)
      requires 0 <= slot < data.inventory.inventorySize
      modifies this
      ensures InventoryChecked(data)
      ensures mounts == Mounts.WeaponMounts(inventory[slot], slot, weaponItems, data.weaponMounts)
    {
      var inv := GetInventory(data);
      var stack := inv[slot];
      mounts := Mounts.WeaponMounts(stack, slot, weaponItems, data.weaponMounts);
    }

    /** The stacks emitted when the vehicle is destroyed: all but empty and vanishing ones. */
    method DropInventory(data: VehicleData, vanishing: ItemStack -> bool) returns (dropped: seq<ItemStack>)
      modifies this
      ensures InventoryChecked(data)
      ensures dropped == Inventory.Dropped(inventory[..], vanishing)
    {
      var inv := GetInventory(data);
      dropped := Inventory.DroppedStacks(inv, vanishing);
    }

    /** Whether a boost may start: a non-empty booster stack and no charge left. */
    method CanBoost(data: VehicleData, charge: real) returns (b: bool)
      requires data.inventory.WellFormed()
      modifies this
      ensures SlotsChecked(data, BoosterSlot)
      ensures b <==> (exists s :: s in data.inventory.SlotsOf(BoosterSlot) && !inventory[s.index].IsEmpty())
                     && charge <= 0.0
    {
      var boosters := GetSlots(data, BoosterSlot);
      b := Boosting.CanBoost(boosters, charge);
      ghost var slots := data.inventory.SlotsOf(BoosterSlot);
      assert forall i :: 0 <= i < |slots| ==> slots[i] in slots && boosters[i] == inventory[slots[i].index];
      assert forall s :: s in slots ==> exists i :: 0 <= i < |slots| && slots[i] == s;
    }

    /**
     * Starts a boost: every booster slot's stack shrinks by one, in place. The
     * stacks are reached through the inventory check, so without booster slots
     * the inventory is left as it was.
     */
    method Boost(data: VehicleData)
      requires data.inventory.WellFormed()
      modifies this, inventory
      ensures |data.inventory.SlotsOf(BoosterSlot)| == 0 ==> inventory == old(inventory) && inventory[..] == old(inventory[..])
      ensures |data.inventory.SlotsOf(BoosterSlot)| > 0 ==>
        var size := data.inventory.inventorySize;
        && inventory.Length == size
        && inventory[..] == Boosting.ShrinkSlots(Inventory.Normalized(old(inventory[..]), size),
                                                 data.inventory.SlotsOf(BoosterSlot))
        && (old(inventory.Length) == size ==> inventory == old(inventory))
        && (old(inventory.Length) != size ==> fresh(inventory))
      ensures KeepsNonInventory()
    {
      var boosters := data.inventory.SlotsOf(BoosterSlot);
      if |boosters| > 0 {
        var inv := GetInventory(data);
        ghost var checked := inv[..];
        for j := 0 to |boosters|
          modifies inv
          invariant inv[..] == Boosting.ShrinkSlots(checked, boosters[..j])
        {
          assert boosters[..j + 1][..j] == boosters[..j];
          assert boosters[j] in boosters;
          var k := boosters[j].index;
          inv[k] := inv[k].Shrink(1);
        }
        assert boosters[..|boosters|] == boosters;
      }
    }

    /** An active boost pushes the vehicle along its forward direction. */
    method ApplyBoost(forward: Motion.Vec3, charge: real)
      modifies this
      ensures velocity == Boosting.Boosted(old(velocity), forward, charge)
      ensures inventory == old(inventory) && weapons == old(weapons)
      ensures pressingX == old(pressingX) && pressingZ == old(pressingZ)
    {
      var thrust := Boosting.Thrust(charge);
      velocity := velocity.Add(forward.Scale(thrust));
    }

    /**
     * One step's weapon reconciliation, after the inventory check. The weapon
     * map becomes what the reconciliation pass over the WEAPON slots gives;
     * `ok` is false when a slot tracked with an empty weapon list made the pass
     * fail, and the map then is as the pass left it.
     */
    method Tick(data: VehicleData, constructors: Weapons.WeaponConstructors, weaponItems: Mounts.WeaponItems)
      returns (ok: bool)
      requires data.inventory.WellFormed()
      modifies this
      ensures var size := data.inventory.inventorySize;
        && inventory.Length == size
        && inventory[..] == Inventory.Normalized(old(inventory[..]), size)
        && (old(inventory.Length) == size ==> inventory == old(inventory))
        && (old(inventory.Length) != size ==> fresh(inventory))
      ensures var outcome := Weapons.ReconcileAll(old(weapons), data.inventory.SlotsOf(WeaponSlot), inventory[..],
                                                  Weapons.Armory(constructors, weaponItems, data.weaponMounts));
        weapons == outcome.weapons && ok == outcome.Done?
      ensures velocity == old(velocity) && pressingX == old(pressingX) && pressingZ == old(pressingZ)
    {
      var inv := GetInventory(data);
      ghost var items := inv[..];
      ghost var armory := Weapons.Armory(constructors, weaponItems, data.weaponMounts);
      var slots := data.inventory.SlotsOf(WeaponSlot);
      ghost var target := Weapons.ReconcileAll(weapons, slots, items, armory);
      ok := true;
      for j := 0 to |slots|
        invariant inventory == inv && inv[..] == items
        invariant velocity == old(velocity) && pressingX == old(pressingX) && pressingZ == old(pressingZ)
        invariant forall s :: s in slots[j..] ==> s in slots
        invariant Weapons.ReconcileAll(weapons, slots[j..], items, armory) == target
      {
        assert slots[j] in slots;
        assert slots[j..][1..] == slots[j + 1..];
        var index := slots[j].index;
        var weaponItemStack := inv[index];
        if weaponItemStack.IsEmpty() && index in weapons {
          weapons := weapons - {index};
        } else if !weaponItemStack.IsEmpty() {
          if index in weapons && |weapons[index]| == 0 {
            // the first weapon of an empty list cannot be read: the step fails
            ok := false;
            return;
          }
          if index !in weapons || weapons[index][0].stackHandle != weaponItemStack.handle {
            var weaponConstructor := constructors(weaponItemStack);
            if weaponConstructor.Some? {
              var weaponMounts := Mounts.WeaponMounts(weaponItemStack, index, weaponItems, data.weaponMounts);
              var built := Weapons.BuildWeapons(weaponConstructor.value, weaponItemStack, weaponMounts, index);
              assert built == Weapons.Armed(weaponConstructor.value, weaponItemStack.handle, weaponMounts, index);
              weapons := weapons[index := built];
            }
          }
        }
      }
    }

    /**
     * Velocity and steering decay for one step. `baseGravity` is the host's
     * gravity, `groundDecay` what the vehicle's ground-decay hook reports (the
     * ground-friction stat unless a vehicle kind overrides it) and
     * `decayToward(value, target, amount)` the smoothing its interpolated
     * inputs apply.
     */
    method ApplyFriction(contact: Motion.Contact, properties: Upgrades.Stat -> real, groundDecay: real,
                         baseGravity: real, decayToward: (real, real, real) -> real)
      modifies this
      ensures var d := Motion.Decay(contact, properties(Upgrades.Friction), groundDecay);
        var rf := Motion.RotationFactor(d, properties(Upgrades.RotationDecay));
        && velocity == Motion.DecayedVelocity(old(velocity), d, properties(Upgrades.HorizontalDecay),
                                              properties(Upgrades.VerticalDecay),
                                              Motion.EffectiveGravity(contact, baseGravity))
        && pressingX == decayToward(old(pressingX), 0.0, 1.0 - rf)
        && pressingZ == decayToward(old(pressingZ), 0.0, 1.0 - rf)
      ensures inventory == old(inventory) && weapons == old(weapons)
    {
      var decay := 1.0 - properties(Upgrades.Friction);
      var gravity := baseGravity;
      if contact.touchingWater {
        gravity := gravity * Motion.WATER_GRAVITY_SCALE;
        decay := Motion.WATER_DECAY;
      } else if contact.onGround {
        if contact.hasPassenger {
          decay := groundDecay;
        } else {
          decay := Motion.UNRIDDEN_GROUND_DECAY;
        }
      }
      assert decay == Motion.Decay(contact, properties(Upgrades.Friction), groundDecay);
      assert gravity == Motion.EffectiveGravity(contact, baseGravity);
      var v := velocity;
      var hd := properties(Upgrades.HorizontalDecay);
      var vd := properties(Upgrades.VerticalDecay);
      velocity := Motion.DecayedVelocity(v, decay, hd, vd, gravity);
      var rf := Motion.RotationFactor(decay, properties(Upgrades.RotationDecay));
      pressingX := decayToward(pressingX, 0.0, 1.0 - rf);
      pressingZ := decayToward(pressingZ, 0.0, 1.0 - rf);
    }
  }
}
