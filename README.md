# Inventory vehicle entity — a Dafny model

This project models the equipment and simulation core of the vehicle entity of
Immersive Aircraft (`InventoryVehicleEntity`): the vehicle's resizable
inventory, the stat factor derived from installed upgrade items, the lookup of
weapon-mount geometry for a weapon slot, the per-step reconciliation of live
weapons against the WEAPON slots, the boost rules, the friction and decay step,
and the stacks dropped when the vehicle is destroyed.

Modules, one per concern of the entity:

- `Items` — item stacks. A stack carries an opaque `handle` that stands for the
  Java object reference, so "a different stack" means a different handle even
  when item and count agree; shrinking in place keeps the handle. `ItemOf()`
  is the item a stack reports: air once the stack is empty, as the game's
  `ItemStack.getItem()` does, so an emptied stack is looked up as air.
- `Description` — the vehicle type's data: the inventory description (size and
  typed slots) and the weapon-mount table `slot -> mount type -> mounts`.
- `Inventory` — the lazy resize (`Normalized`), the projection of a slot group
  onto its stacks (`Project`), and the drop filter (`Dropped`).
- `Upgrades` — the two-pass aggregation of `getTotalUpgrade` over reals.
- `Mounts` — `getWeaponMounts` and its placeholder fallback.
- `Weapons` — the reconciliation step of `tick` as functions on a
  `map<int, seq<Weapon>>`, and the lemmas about it.
- `Boosting` — `canBoost`, the consumption done by `boost`, and the thrust of
  `applyBoost`.
- `Motion` — the decay selection and velocity update of `applyFriction`.
- `Vehicle` — the class `InventoryVehicle` with the entity's mutable state
  (`inventory: array<ItemStack>`, `weapons`, `velocity`, the two smoothed
  steering inputs) and one method per operation, each proved against the
  functions above.

Collaborators that are not part of this model are parameters:
the vehicle's current type data (`VehicleDataLoader.get(identifier)`, passed to
every call because a data reload may change it between calls), the upgrade
registry, the weapon registry, the weapon-item test and its mount type, the
vehicle properties (`VehicleProperties.get`), the vanishing-curse test, host
gravity, contact with water and ground, the passenger test, the forward
direction, the boost charge, and the smoothing rule of the interpolated
steering inputs.

In two places the code does something a reader might not expect; the model follows the code:

- When a WEAPON slot holds a new stack for which no weapon constructor is
  registered, the code leaves the slot's existing entry as it is (it does not
  remove it); `Weapons.ReconcileSlot` does the same.
- The mount lookup returns a configured list as it is, so a configured empty
  list comes back empty rather than as the placeholder. The reconciliation then
  stores an empty weapon list, and the next step fails when it reads that list's
  first weapon. The model keeps this failure as the `Failed` outcome.
  `Weapons.ReconcileNeverFails` shows that it cannot happen when every
  configured list is non-empty and no slot is already tracked with an empty
  list, which holds from construction on while every table stays configured.
  A list stored empty under an earlier table still makes the pass fail after
  a data reload, even when the new table is configured.

## Model

| member | source | states |
|---|---|---|
| `Description.SlotsOfType` | common/src/main/java/immersive_aircraft/entity/InventoryVehicleEntity.java:75 | the slots of one type are the described slots of that type, each kept exactly as often as the description lists it and no other slot, never more than the description lists |
| `Description.SlotsOfTypeConcat` | common/src/main/java/immersive_aircraft/entity/InventoryVehicleEntity.java:75-79 | selection keeps description order: the slots of one type in a concatenation are those of the first part followed by those of the second |
| `Inventory.Normalized` | common/src/main/java/immersive_aircraft/entity/InventoryVehicleEntity.java:103-114 | after the size check the inventory has the described size; matching sizes keep the contents, a mismatch leaves every slot empty |
| `Inventory.NormalizedIdempotent` | common/src/main/java/immersive_aircraft/entity/InventoryVehicleEntity.java:108-114 | a second size check never resets the inventory again |
| `Inventory.Project` | common/src/main/java/immersive_aircraft/entity/InventoryVehicleEntity.java:74-81 | the list has one element per described slot, and element i is the inventory stack at slot i's index |
| `Inventory.DroppedStacks` | common/src/main/java/immersive_aircraft/entity/InventoryVehicleEntity.java:121-131 | the slot-by-slot loop emits exactly the filtered stack list |
| `Inventory.Dropped` | common/src/main/java/immersive_aircraft/entity/InventoryVehicleEntity.java:125-128 | never more stacks than the inventory holds, and every dropped stack is held and is neither empty nor vanishing |
| `Inventory.DroppedCounts` | common/src/main/java/immersive_aircraft/entity/InventoryVehicleEntity.java:125-128 | each non-empty, non-vanishing stack is dropped as many times as the inventory holds it; empty and vanishing stacks are never dropped |
| `Upgrades.Contributions` | common/src/main/java/immersive_aircraft/entity/InventoryVehicleEntity.java:89-91 | one contribution per installed stack: a non-empty stack contributes its item's registered value for the stat, or nothing when its item has no upgrade; an emptied stack contributes exactly what the empty stack (air) does |
| `Upgrades.EmptyStackContribution` | common/src/main/java/immersive_aircraft/entity/InventoryVehicleEntity.java:89-91 | an emptied upgrade stack is looked up as air, so it contributes nothing unless air itself is registered as an upgrade |
| `Upgrades.Aggregate` | common/src/main/java/immersive_aircraft/entity/InventoryVehicleEntity.java:85-100 | the factor is never negative, never below penalty product plus bonus sum, equal to that sum whenever it is not negative and zero whenever it is negative |
| `Upgrades.TotalUpgrade` | common/src/main/java/immersive_aircraft/entity/InventoryVehicleEntity.java:84-101 | the two-pass loop returns the starting value 1.0, times every `1 + u` for negative u, plus every positive u, floored at zero; never negative |
| `Upgrades.NeutralUpgrades` | common/src/main/java/immersive_aircraft/entity/InventoryVehicleEntity.java:85-99 | with no upgrades, or only unregistered or zero contributions, the factor is exactly 1.0 |
| `Upgrades.NeutralInsertion` | common/src/main/java/immersive_aircraft/entity/InventoryVehicleEntity.java:89-97 | adding an unregistered or zero-contribution upgrade anywhere leaves the result unchanged |
| `Upgrades.PenaltyPermutation` | common/src/main/java/immersive_aircraft/entity/InventoryVehicleEntity.java:95-96 | the penalty pass depends only on the multiset of contributions |
| `Upgrades.BonusPermutation` | common/src/main/java/immersive_aircraft/entity/InventoryVehicleEntity.java:93-94 | the bonus pass depends only on the multiset of contributions |
| `Upgrades.AggregatePermutation` | common/src/main/java/immersive_aircraft/entity/InventoryVehicleEntity.java:86-100 | reordering the upgrade slots never changes the factor |
| `Upgrades.BonusesOnly` | common/src/main/java/immersive_aircraft/entity/InventoryVehicleEntity.java:93-94 | with only bonuses the factor is 1.0 plus their sum |
| `Upgrades.PenaltiesOnly` | common/src/main/java/immersive_aircraft/entity/InventoryVehicleEntity.java:95-100 | with only penalties the factor is the product of the `1 + u` factors, floored at zero |
| `Upgrades.PenaltiesShrink` | common/src/main/java/immersive_aircraft/entity/InventoryVehicleEntity.java:95-96 | penalties no further below zero than -1 keep the penalty product within [0, 1] |
| `Upgrades.MixedExample` | common/src/main/java/immersive_aircraft/entity/InventoryVehicleEntity.java:87-99 | -0.5 and +0.5 give 1.0 in either slot order, because penalties are applied before bonuses |
| `Mounts.WeaponMounts` | common/src/main/java/immersive_aircraft/entity/InventoryVehicleEntity.java:63-72 | the result is the placeholder list or one of the lists configured for that slot |
| `Mounts.EmptyStackMounts` | common/src/main/java/immersive_aircraft/entity/InventoryVehicleEntity.java:66-71 | an emptied weapon stack is looked up as air, so it gets the placeholder list unless air itself is a weapon item |
| `Mounts.MountFallback` | common/src/main/java/immersive_aircraft/entity/InventoryVehicleEntity.java:66-72 | looked up by the item the stack reports: exactly `[EMPTY]` for a non-weapon item, a slot with no entry, or a mount type with no entry; otherwise the configured list |
| `Mounts.MountsNeverEmpty` | common/src/main/java/immersive_aircraft/entity/InventoryVehicleEntity.java:63-72 | when every configured list is non-empty, the lookup never yields an empty list |
| `Weapons.ReconcileSlot` | common/src/main/java/immersive_aircraft/entity/InventoryVehicleEntity.java:220-234 | one slot step fails exactly when a non-empty stack meets an empty tracked list; otherwise no other slot's entry changes, and an empty stack leaves the slot untracked |
| `Weapons.ReconcileAll` | common/src/main/java/immersive_aircraft/entity/InventoryVehicleEntity.java:218-235 | the pass only ever adds entries for slots it visits: every key of the outcome was tracked before or is the index of a visited WEAPON slot |
| `Weapons.BuildWeapons` | common/src/main/java/immersive_aircraft/entity/InventoryVehicleEntity.java:227-231 | one weapon per mount, in mount order, all built by the same constructor from the same stack object for that slot |
| `Weapons.ReconcileSlotCases` | common/src/main/java/immersive_aircraft/entity/InventoryVehicleEntity.java:218-235 | an empty stack untracks the slot; the same stack object keeps the entry; a different or untracked stack is re-armed with a constructor and left alone without one; the step fails exactly when a non-empty stack meets an empty weapon list; other slots keep their entries |
| `Weapons.SettledFixed` | common/src/main/java/immersive_aircraft/entity/InventoryVehicleEntity.java:220-234 | a slot step leaves the weapon map unchanged exactly when the slot's entry is already in step with its stack |
| `Weapons.SlotSettles` | common/src/main/java/immersive_aircraft/entity/InventoryVehicleEntity.java:222-233 | with non-empty configured mount lists, one step brings its slot in step with its stack |
| `Weapons.ReconcileAllFrame` | common/src/main/java/immersive_aircraft/entity/InventoryVehicleEntity.java:218-235 | slots the pass does not visit keep their entries, whether the pass completes or fails |
| `Weapons.SettledSurvives` | common/src/main/java/immersive_aircraft/entity/InventoryVehicleEntity.java:218-235 | a slot in step with its stack stays in step for the rest of the pass |
| `Weapons.ReconcileSettles` | common/src/main/java/immersive_aircraft/entity/InventoryVehicleEntity.java:218-235 | with non-empty configured mount lists, after a completed pass every WEAPON slot is in step with the stack it holds |
| `Weapons.SettledFixpoint` | common/src/main/java/immersive_aircraft/entity/InventoryVehicleEntity.java:218-235 | a pass over slots that are all in step changes nothing |
| `Weapons.ReconcileIdempotent` | common/src/main/java/immersive_aircraft/entity/InventoryVehicleEntity.java:218-235 | with non-empty configured mount lists, a second pass against the same inventory changes nothing |
| `Weapons.ReconcileNeverFails` | common/src/main/java/immersive_aircraft/entity/InventoryVehicleEntity.java:224 | with non-empty configured mount lists and no empty tracked list, reading the first weapon never fails, and no tracked list becomes empty |
| `Weapons.EqualStackRearmsOnce` | common/src/main/java/immersive_aircraft/entity/InventoryVehicleEntity.java:224-232 | with non-empty configured mount lists, an equal-valued but different stack object makes the slot's weapons be rebuilt around the new object, and a second step keeps them |
| `Boosting.AnyNonEmpty` | common/src/main/java/immersive_aircraft/entity/InventoryVehicleEntity.java:210 | true exactly when some stack of the list is non-empty |
| `Boosting.CanBoost` | common/src/main/java/immersive_aircraft/entity/InventoryVehicleEntity.java:209-211 | true exactly when some booster stack is non-empty and the boost charge is at most zero |
| `Boosting.ShrinkSlots` | common/src/main/java/immersive_aircraft/entity/InventoryVehicleEntity.java:188 | shrinking the booster stacks keeps the inventory size |
| `Boosting.ShrinkSlotsAt` | common/src/main/java/immersive_aircraft/entity/InventoryVehicleEntity.java:188 | each slot loses one item per booster slot addressing it and keeps its stack object and item; other slots are untouched |
| `Boosting.LastBoostersConsumed` | common/src/main/java/immersive_aircraft/entity/InventoryVehicleEntity.java:185-211 | after a boost consumes booster stacks of at most one item, no boost can start, whatever charge remains |
| `Boosting.Boosted` | common/src/main/java/immersive_aircraft/entity/InventoryVehicleEntity.java:196-198 | subtracting the same thrust along the same direction gives back the velocity before the boost |
| `Boosting.BoostAlongDirection` | common/src/main/java/immersive_aircraft/entity/InventoryVehicleEntity.java:196-198 | the boost adds the forward direction scaled by charge / 2000; positive charge pushes forward, zero charge changes nothing |
| `Motion.Decay` | common/src/main/java/immersive_aircraft/entity/InventoryVehicleEntity.java:253-264 | the decay factor is one of 0.9, 0.75, the ground-friction stat or 1 - friction, and always 0.9 in water |
| `Motion.DecayedVelocity` | common/src/main/java/immersive_aircraft/entity/InventoryVehicleEntity.java:270 | a zero decay factor, or a vehicle at rest, leaves only the vertical gravity term |
| `Motion.DecayPrecedence` | common/src/main/java/immersive_aircraft/entity/InventoryVehicleEntity.java:253-264 | water decides the decay (0.9) whatever else holds; on the ground only the passenger chooses between ground friction and 0.75; in the air only the friction stat counts |
| `Motion.DecayBounded` | common/src/main/java/immersive_aircraft/entity/InventoryVehicleEntity.java:253-264 | with friction stats in [0, 1] the decay factor lies in [0, 1] |
| `Motion.FrictionNeverSpeedsUp` | common/src/main/java/immersive_aircraft/entity/InventoryVehicleEntity.java:266-270 | a decay factor and horizontal decay in [0, 1] never increase the horizontal speed on either axis |
| `Motion.GroundedUnriddenExample` | common/src/main/java/immersive_aircraft/entity/InventoryVehicleEntity.java:258-270 | a grounded vehicle without passenger decays by 0.75 whatever its friction stat: 10 along x becomes 7.5 |
| `Motion.RotationFactorBounded` | common/src/main/java/immersive_aircraft/entity/InventoryVehicleEntity.java:272-275 | with decay and rotation decay in [0, 1] the steering factor lies in [0, 1] |
| `Vehicle.InventoryVehicle.constructor` | common/src/main/java/immersive_aircraft/entity/InventoryVehicleEntity.java:47-53 | a new vehicle has a fresh empty inventory of the described size and no live weapons |
| `Vehicle.InventoryVehicle.InitInventory` | common/src/main/java/immersive_aircraft/entity/InventoryVehicleEntity.java:103-106 | the inventory is replaced by a fresh, empty one of the described size; nothing else changes |
| `Vehicle.InventoryVehicle.GetInventory` | common/src/main/java/immersive_aircraft/entity/InventoryVehicleEntity.java:108-114 | the returned inventory has the described size; the same object and contents when sizes matched, a fresh empty one when not |
| `Vehicle.InventoryVehicle.GetSlots` | common/src/main/java/immersive_aircraft/entity/InventoryVehicleEntity.java:74-81 | the stacks of the slots of one type in description order; the inventory size is checked when the type has at least one slot, and with no slot the inventory (even one of the wrong size) and all other state stay as they were |
| `Vehicle.InventoryVehicle.GetTotalUpgrade` | common/src/main/java/immersive_aircraft/entity/InventoryVehicleEntity.java:84-101 | the aggregate of the UPGRADE slots' contributions to the stat, never negative; the size check happens only when there is an UPGRADE slot |
| `Vehicle.InventoryVehicle.GetWeaponMounts` | common/src/main/java/immersive_aircraft/entity/InventoryVehicleEntity.java:66-72 | the mount lookup applied to the stack in the slot after the size check |
| `Vehicle.InventoryVehicle.DropInventory` | common/src/main/java/immersive_aircraft/entity/InventoryVehicleEntity.java:121-131 | the non-empty, non-vanishing stacks of the checked inventory, in slot order |
| `Vehicle.InventoryVehicle.CanBoost` | common/src/main/java/immersive_aircraft/entity/InventoryVehicleEntity.java:209-211 | true exactly when some BOOSTER slot holds a non-empty stack and the charge is at most zero; the size check happens only when there is a BOOSTER slot |
| `Vehicle.InventoryVehicle.Boost` | common/src/main/java/immersive_aircraft/entity/InventoryVehicleEntity.java:185-189 | after the size check, each BOOSTER slot's stack shrinks by one in place; the rest of the inventory and all other state are unchanged; with no BOOSTER slot the inventory is not checked and stays as it was |
| `Vehicle.InventoryVehicle.ApplyBoost` | common/src/main/java/immersive_aircraft/entity/InventoryVehicleEntity.java:191-198 | the velocity gains the forward direction times `0.05 * charge / 100` |
| `Vehicle.InventoryVehicle.Tick` | common/src/main/java/immersive_aircraft/entity/InventoryVehicleEntity.java:213-235 | after the size check, the weapon map becomes the result of the reconciliation pass over the WEAPON slots, or the map as it stood when the pass failed |
| `Vehicle.InventoryVehicle.ApplyFriction` | common/src/main/java/immersive_aircraft/entity/InventoryVehicleEntity.java:251-276 | the velocity becomes `(vx·d·hd, vy·d·vd + g, vz·d·hd)` with the chosen decay d and gravity g; both steering inputs decay toward 0 with amount `1 - d·rotationDecay` |

## Left out

- Float arithmetic: stats, velocities and the upgrade factor are reals; IEEE rounding, NaN and signed zero are not modelled.
- `load` and `saveWithoutId`: they delegate to the inventory's NBT reading and writing; `SparseSimpleInventory` is not part of this model, so no persistence round trip is stated.
- `openInventory`, `createMenu`, the UI path of `interact`, and the network message they send: presentation and networking.
- The particles of `applyBoost` (every second tick) and `level().addParticle`: rendering only.
- `super.boost()`, `super.applyBoost()`, `super.tick()`, `super.interact(...)`: `VehicleEntity` is not part of this model. The boost charge is a parameter.
- `SparseSimpleInventory.tick` and the container listener. `containerChanged` does nothing.
- `Weapon.tick` and the weapon ticking loop of `tick`: the `Weapon` class is not part of this model. Weapons are values recording their constructor, stack object, mount and slot.
- `WeaponRegistry`, `VehicleUpgradeRegistry`, `VehicleProperties.get`, the `WeaponItem` test and its mount type, and `EnchantmentHelper.hasVanishingCurse` are function parameters with no behaviour assumed.
- `spawnAtLocation`: `DropInventory` returns the list of stacks it would spawn, in order.
- `getDurability`, `getGroundDecay`, `getProperties`, `getInventoryDescription` and `getWeapons`: one-line accessors. `getGroundDecay` is a parameter of `ApplyFriction` (the ground-friction stat unless a vehicle kind overrides it), and the map is the `weapons` field.
- Stack aliasing: stacks are values with a handle, so one stack object held by two slots at once is not modelled. A slot listed twice among the booster slots is modelled: that stack shrinks twice.
- Out-of-range slot indices in a description are a configuration error. Operations over slot groups require `WellFormed()`, and `GetWeaponMounts` requires a slot inside the inventory.
- `VehicleInventoryDescription.getSlots(type)` is taken to return the slots of that type in description order. `ItemStack.isEmpty` is taken to mean "air, or a count of zero or less", and `ItemStack.getItem` to report air for an empty stack.
- `forge/src/main/java/immersive_aircraft/forge/cobalt/registration/RegistrationImpl.java`: registry glue with no algorithmic content.
