/**
 * Weapon reconciliation, run once per simulation step over the WEAPON slots:
 * the live weapons of each slot are kept in step with the stack the slot holds.
 * A slot whose stack became empty loses its weapons; a slot whose stack is a
 * different object than the one its weapons hold (reference identity, here the
 * stack handle) gets one new weapon per mount point, when a weapon constructor
 * is registered for the stack; otherwise the entry is left as it is.
 */
module Weapons {
  import opened Wrappers
  import opened Items
  import opened Description
  import Mounts

  /** Identifies the registered weapon constructor that built a weapon. */
  type ConstructorId = nat

  /** The weapon registry: the constructor registered for a stack, if any. */
  type WeaponConstructors = ItemStack -> Option<ConstructorId>

  /** The registries and configuration reconciliation consults. */
  datatype Armory = Armory(constructors: WeaponConstructors, weaponItems: Mounts.WeaponItems, mounts: MountTable)

  /** A live weapon: built by `kind` from the stack with `stackHandle`, anchored at `mount` of `slot`. */
  datatype Weapon = Weapon(kind: ConstructorId, stackHandle: nat, mount: WeaponMount, slot: int)

  /** Slot index to the live weapons of that slot. */
  type WeaponMap = map<int, seq<Weapon>>

  /**
   * The weapon map after a reconciliation pass, or the map as it stood when a
   * slot tracked with an empty weapon list made the pass fail.
   */
  datatype Outcome = Done(weapons: WeaponMap) | Failed(weapons: WeaponMap)

  /** One weapon per mount, in mount order, all holding the same stack. */
  function Armed(kind: ConstructorId, handle: nat, mounts: seq<WeaponMount>, slot: int): seq<Weapon> {
    seq(|mounts|, i requires 0 <= i < |mounts| => Weapon(kind, handle, mounts[i], slot))
  }

  /** Creates the weapons for a slot, one per mount, walking the mounts in order. */
  method BuildWeapons(kind: ConstructorId, stack: ItemStack, mounts: seq<WeaponMount>, slot: int)
    returns (weapons: seq<Weapon>)
    ensures |weapons| == |mounts|
    ensures forall i :: 0 <= i < |mounts| ==> weapons[i] == Weapon(kind, stack.handle, mounts[i], slot)
  {
    weapons := [];
    for i := 0 to |mounts|
      invariant |weapons| == i
      invariant forall k :: 0 <= k < i ==> weapons[k] == Weapon(kind, stack.handle, mounts[k], slot)
    {
      weapons := weapons + [Weapon(kind, stack.handle, mounts[i], slot)];
    }
  }

  /** The entry of slot `k`, or `None` when the slot is not tracked. */
  function Lookup(w: WeaponMap, k: int): Option<seq<Weapon>> {
    if k in w then Some(w[k]) else None
  }

  /** The tracked weapons of `index` hold exactly the stack object `stack`. */
  predicate Holds(w: WeaponMap, index: int, stack: ItemStack) {
    index in w && |w[index]| > 0 && w[index][0].stackHandle == stack.handle
  }

  /** The slot's mounts, as the weapon-mount lookup gives them. */
  function SlotMounts(index: int, stack: ItemStack, armory: Armory): seq<WeaponMount> {
    Mounts.WeaponMounts(stack, index, armory.weaponItems, armory.mounts)
  }

  /**
   * One slot of the reconciliation pass; `None` when the slot is tracked with
   * an empty weapon list and holds a non-empty stack, so that reading its first
   * weapon fails.
   */
  function ReconcileSlot(w: WeaponMap, index: int, stack: ItemStack, armory: Armory): (r: Option<WeaponMap>)
    ensures r.None? <==> !stack.IsEmpty() && index in w && |w[index]| == 0
    ensures r.Some? ==> forall k :: k != index ==> Lookup(r.value, k) == Lookup(w, k)
    ensures r.Some? && stack.IsEmpty() ==> index !in r.value
  {
    if stack.IsEmpty() then
      Some(if index in w then w - {index} else w)
    else if index in w && |w[index]| == 0 then
      None
    else if Holds(w, index, stack) then
      Some(w)
    else
      match armory.constructors(stack)
      case None => Some(w)
      case Some(kind) => Some(w[index := Armed(kind, stack.handle, SlotMounts(index, stack, armory), index)])
  }

  /** The reconciliation pass over `slots`, in order, reading each slot's stack from `items`. */
  function ReconcileAll(w: WeaponMap, slots: seq<Slot>, items: seq<ItemStack>, armory: Armory): (r: Outcome)
    requires SlotsWithin(slots, |items|)
    ensures forall k :: k in r.weapons ==> k in w || exists s :: s in slots && s.index == k
    decreases |slots|
  {
    if slots == [] then Done(w)
    else
      assert slots[0] in slots;
      var index := slots[0].index;
      match ReconcileSlot(w, index, items[index], armory)
      case None => Failed(w)
      case Some(next) =>
        assert forall s :: s in slots[1..] ==> s in slots;
        assert forall k :: k in next ==> k in w || k == index by {
          forall k | k in next && k != index
            ensures k in w
          {
            assert Lookup(next, k) == Lookup(w, k);
          }
        }
        ReconcileAll(next, slots[1..], items, armory)
  }

  /**
   * The cases of one slot: an empty stack untracks the slot; a stack the slot's
   * weapons already hold changes nothing; a different (or untracked) stack is
   * armed with one weapon per mount when a constructor is registered, and
   * left alone when none is; the step fails exactly when a non-empty stack
   * meets an empty tracked list. No other slot's entry changes.
   */
  lemma ReconcileSlotCases(w: WeaponMap, index: int, stack: ItemStack, armory: Armory)
    ensures var r := ReconcileSlot(w, index, stack, armory);
      && (r.None? <==> !stack.IsEmpty() && index in w && |w[index]| == 0)
      && (r.Some? ==> forall k :: k != index ==> Lookup(r.value, k) == Lookup(w, k))
      && (r.Some? && stack.IsEmpty() ==> Lookup(r.value, index) == None)
      && (!stack.IsEmpty() && Holds(w, index, stack) ==> r == Some(w))
      && (r.Some? && !stack.IsEmpty() && armory.constructors(stack).None? ==> r == Some(w))
      && (r.Some? && !stack.IsEmpty() && !Holds(w, index, stack) && armory.constructors(stack).Some? ==>
            Lookup(r.value, index)
            == Some(Armed(armory.constructors(stack).value, stack.handle, SlotMounts(index, stack, armory), index)))
  {
  }

  /** An entry the reconciliation of its slot leaves as it is. */
  predicate Settled(entry: Option<seq<Weapon>>, stack: ItemStack, armory: Armory) {
    if stack.IsEmpty() then entry.None?
    else
      (entry.Some? ==> |entry.value| > 0)
      && (armory.constructors(stack).None? || (entry.Some? && entry.value[0].stackHandle == stack.handle))
  }

  /** A slot step leaves the map unchanged exactly when the slot's entry is settled. */
  lemma SettledFixed(w: WeaponMap, index: int, stack: ItemStack, armory: Armory)
    ensures ReconcileSlot(w, index, stack, armory) == Some(w) <==> Settled(Lookup(w, index), stack, armory)
  {
  }

  /** With every configured mount list non-empty, a slot step leaves that slot settled. */
  lemma SlotSettles(w: WeaponMap, index: int, stack: ItemStack, armory: Armory)
    requires Mounts.Configured(armory.mounts)
    requires ReconcileSlot(w, index, stack, armory).Some?
    ensures Settled(Lookup(ReconcileSlot(w, index, stack, armory).value, index), stack, armory)
  {
    var next := ReconcileSlot(w, index, stack, armory).value;
    if next == w {
      SettledFixed(w, index, stack, armory);
    } else if !stack.IsEmpty() {
      Mounts.MountsNeverEmpty(stack, index, armory.weaponItems, armory.mounts);
    }
  }

  /** Slots the pass does not visit keep their entries, whether the pass completes or fails. */
  lemma {:induction false} ReconcileAllFrame(w: WeaponMap, slots: seq<Slot>, items: seq<ItemStack>, armory: Armory, k: int)
    requires SlotsWithin(slots, |items|)
    requires forall s :: s in slots ==> s.index != k
    ensures Lookup(ReconcileAll(w, slots, items, armory).weapons, k) == Lookup(w, k)
    decreases |slots|
  {
    if slots != [] {
      assert slots[0] in slots;
      var index := slots[0].index;
      ReconcileSlotCases(w, index, items[index], armory);
      match ReconcileSlot(w, index, items[index], armory)
      case None =>
      case Some(next) =>
        assert forall s :: s in slots[1..] ==> s in slots;
        ReconcileAllFrame(next, slots[1..], items, armory, k);
    }
  }

  /** A settled slot stays settled for the rest of the pass, since every visit of it reads the same stack. */
  lemma {:induction false} SettledSurvives(w: WeaponMap, slots: seq<Slot>, items: seq<ItemStack>, armory: Armory, k: int)
    requires SlotsWithin(slots, |items|) && 0 <= k < |items|
    requires Settled(Lookup(w, k), items[k], armory)
    ensures Settled(Lookup(ReconcileAll(w, slots, items, armory).weapons, k), items[k], armory)
    decreases |slots|
  {
    if slots != [] {
      assert slots[0] in slots;
      var index := slots[0].index;
      ReconcileSlotCases(w, index, items[index], armory);
      match ReconcileSlot(w, index, items[index], armory)
      case None =>
      case Some(next) =>
        if index == k {
          SettledFixed(w, k, items[k], armory);
        }
        assert Lookup(next, k) == Lookup(w, k);
        assert forall s :: s in slots[1..] ==> s in slots;
        SettledSurvives(next, slots[1..], items, armory, k);
    }
  }

  /** After a completed pass every visited slot is settled. */
  lemma {:induction false} ReconcileSettles(w: WeaponMap, slots: seq<Slot>, items: seq<ItemStack>, armory: Armory)
    requires SlotsWithin(slots, |items|)
    requires Mounts.Configured(armory.mounts)
    requires ReconcileAll(w, slots, items, armory).Done?
    ensures forall s :: s in slots ==>
      Settled(Lookup(ReconcileAll(w, slots, items, armory).weapons, s.index), items[s.index], armory)
    decreases |slots|
  {
    if slots != [] {
      assert slots[0] in slots;
      var index := slots[0].index;
      var next := ReconcileSlot(w, index, items[index], armory).value;
      assert forall s :: s in slots[1..] ==> s in slots;
      ReconcileSettles(next, slots[1..], items, armory);
      SlotSettles(w, index, items[index], armory);
      SettledSurvives(next, slots[1..], items, armory, index);
      assert forall s :: s in slots ==> s == slots[0] || s in slots[1..];
    }
  }

  /** A map in which every slot of the pass is settled is a fixed point of the pass. */
  lemma {:induction false} SettledFixpoint(w: WeaponMap, slots: seq<Slot>, items: seq<ItemStack>, armory: Armory)
    requires SlotsWithin(slots, |items|)
    requires forall s :: s in slots ==> Settled(Lookup(w, s.index), items[s.index], armory)
    ensures ReconcileAll(w, slots, items, armory) == Done(w)
    decreases |slots|
  {
    if slots != [] {
      assert slots[0] in slots;
      SettledFixed(w, slots[0].index, items[slots[0].index], armory);
      assert forall s :: s in slots[1..] ==> s in slots;
      SettledFixpoint(w, slots[1..], items, armory);
    }
  }

  /**
   * Reconciling twice against the same inventory changes nothing the second
   * time: the first pass leaves the live weapons in step with the stacks.
   */
  lemma {:induction false} ReconcileIdempotent(w: WeaponMap, slots: seq<Slot>, items: seq<ItemStack>, armory: Armory)
    requires SlotsWithin(slots, |items|)
    requires Mounts.Configured(armory.mounts)
    requires ReconcileAll(w, slots, items, armory).Done?
    ensures var r := ReconcileAll(w, slots, items, armory).weapons;
      ReconcileAll(r, slots, items, armory) == Done(r)
  {
    ReconcileSettles(w, slots, items, armory);
    SettledFixpoint(ReconcileAll(w, slots, items, armory).weapons, slots, items, armory);
  }

  /** Every tracked slot holds at least one weapon. */
  predicate NoEmptyEntries(w: WeaponMap) {
    forall k :: k in w ==> |w[k]| > 0
  }

  /**
   * When every configured mount list is non-empty and no slot is tracked with
   * an empty list, the pass never fails and keeps every tracked list non-empty.
   */
  lemma {:induction false} ReconcileNeverFails(w: WeaponMap, slots: seq<Slot>, items: seq<ItemStack>, armory: Armory)
    requires SlotsWithin(slots, |items|)
    requires Mounts.Configured(armory.mounts)
    requires NoEmptyEntries(w)
    ensures ReconcileAll(w, slots, items, armory).Done?
    ensures NoEmptyEntries(ReconcileAll(w, slots, items, armory).weapons)
    decreases |slots|
  {
    if slots != [] {
      assert slots[0] in slots;
      var index := slots[0].index;
      var stack := items[index];
      var next := ReconcileSlot(w, index, stack, armory).value;
      if !stack.IsEmpty() && !Holds(w, index, stack) && armory.constructors(stack).Some? {
        Mounts.MountsNeverEmpty(stack, index, armory.weaponItems, armory.mounts);
      }
      assert NoEmptyEntries(next);
      assert forall s :: s in slots[1..] ==> s in slots;
      ReconcileNeverFails(next, slots[1..], items, armory);
    }
  }

  /**
   * Identity, not value, decides: replacing the armed stack of a slot by an
   * equal-valued but different stack object rebuilds the slot's weapons
   * around the new object, and a second step with that object keeps them.
   */
  lemma EqualStackRearmsOnce(w: WeaponMap, index: int, oldStack: ItemStack, newStack: ItemStack, armory: Armory)
    requires Mounts.Configured(armory.mounts)
    requires oldStack.item == newStack.item && oldStack.count == newStack.count
    requires oldStack.handle != newStack.handle && !newStack.IsEmpty()
    requires Holds(w, index, oldStack)
    requires armory.constructors(newStack).Some?
    ensures var r := ReconcileSlot(w, index, newStack, armory);
      && r.Some? && r.value != w
      && Lookup(r.value, index)
         == Some(Armed(armory.constructors(newStack).value, newStack.handle, SlotMounts(index, newStack, armory), index))
      && ReconcileSlot(r.value, index, newStack, armory) == r
  {
    var r := ReconcileSlot(w, index, newStack, armory);
    Mounts.MountsNeverEmpty(newStack, index, armory.weaponItems, armory.mounts);
    assert r.value[index][0].stackHandle == newStack.handle;
  }
}
