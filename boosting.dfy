/**
 * Boost rules: when a boost may start, what starting one consumes from the
 * BOOSTER slots, and the forward thrust an active boost adds each step.
 */
module Boosting {
  import opened Items
  import opened Description
  import Inventory
  import opened Motion

  /** Whether any stack of the list is non-empty (a short-circuiting scan). */
  function AnyNonEmpty(stacks: seq<ItemStack>): (b: bool)
    ensures b <==> exists i :: 0 <= i < |stacks| && !stacks[i].IsEmpty()
  {
    if stacks == [] then false
    else if !stacks[0].IsEmpty() then true
    else
      var rest := AnyNonEmpty(stacks[1..]);
      assert forall i :: 1 <= i < |stacks| ==> stacks[i] == stacks[1..][i - 1];
      rest
  }

  /** A boost may start when some booster stack is non-empty and no boost charge is left. */
  function CanBoost(boosters: seq<ItemStack>, charge: real): (b: bool)
    ensures b <==> (exists i :: 0 <= i < |boosters| && !boosters[i].IsEmpty()) && charge <= 0.0
  {
    AnyNonEmpty(boosters) && charge <= 0.0
  }

  /** How many of `slots` address inventory position `k`. */
  function Occurrences(slots: seq<Slot>, k: int): nat {
    if slots == [] then 0
    else Occurrences(slots[..|slots| - 1], k) + (if slots[|slots| - 1].index == k then 1 else 0)
  }

  /** Starting a boost shrinks the stack of every booster slot by one, slot by slot. */
  function ShrinkSlots(items: seq<ItemStack>, slots: seq<Slot>): (r: seq<ItemStack>)
    requires SlotsWithin(slots, |items|)
    ensures |r| == |items|
  {
    if slots == [] then items
    else
      var init := slots[..|slots| - 1];
      assert forall s :: s in init ==> s in slots;
      assert slots[|slots| - 1] in slots;
      var r := ShrinkSlots(items, init);
      var k := slots[|slots| - 1].index;
      r[k := r[k].Shrink(1)]
  }

  /**
   * Each inventory position loses one item per booster slot that addresses it;
   * the stack object (its handle) and its item stay the same. Positions no
   * booster slot addresses are untouched.
   */
  lemma {:induction false} ShrinkSlotsAt(items: seq<ItemStack>, slots: seq<Slot>, k: int)
    requires SlotsWithin(slots, |items|) && 0 <= k < |items|
    ensures ShrinkSlots(items, slots)[k] == items[k].Shrink(Occurrences(slots, k))
    ensures Occurrences(slots, k) == 0 ==> ShrinkSlots(items, slots)[k] == items[k]
  {
    if slots != [] {
      var init := slots[..|slots| - 1];
      assert forall s :: s in init ==> s in slots;
      ShrinkSlotsAt(items, init, k);
    }
  }

  lemma {:induction false} OccursOnce(slots: seq<Slot>, s: Slot)
    requires s in slots
    ensures Occurrences(slots, s.index) >= 1
  {
    var init := slots[..|slots| - 1];
    if slots[|slots| - 1] != s {
      assert slots == init + [slots[|slots| - 1]];
      assert s in init;
      OccursOnce(init, s);
    }
  }

  /**
   * Starting a boost with at most one item in each booster stack leaves no
   * boost to start, whatever charge remains.
   */
  lemma {:induction false} LastBoostersConsumed(items: seq<ItemStack>, slots: seq<Slot>, charge: real)
    requires SlotsWithin(slots, |items|)
    requires forall s :: s in slots ==> items[s.index].count <= 1
    ensures var after := ShrinkSlots(items, slots);
      !CanBoost(Inventory.SlotItems(after, slots), charge)
  {
    var after := ShrinkSlots(items, slots);
    var boosters := Inventory.SlotItems(after, slots);
    forall i | 0 <= i < |boosters|
      ensures boosters[i].IsEmpty()
    {
      assert slots[i] in slots;
      OccursOnce(slots, slots[i]);
      ShrinkSlotsAt(items, slots, slots[i].index);
    }
  }

  /** The forward thrust of a boost with the given charge. */
  function Thrust(charge: real): real {
    0.05 * charge / 100.0
  }

  /** The velocity after an active boost pushes along `direction`. */
  function Boosted(velocity: Vec3, direction: Vec3, charge: real): (r: Vec3)
    ensures r.Add(direction.Scale(-Thrust(charge))) == velocity
  {
    velocity.Add(direction.Scale(Thrust(charge)))
  }

  /**
   * The boost adds `direction` scaled by charge / 2000, so it pushes forward
   * for a positive charge and changes nothing at zero charge.
   */
  lemma BoostAlongDirection(velocity: Vec3, direction: Vec3, charge: real)
    ensures Thrust(charge) == charge / 2000.0
    ensures Thrust(charge) > 0.0 <==> charge > 0.0
    ensures charge == 0.0 ==> Boosted(velocity, direction, charge) == velocity
    ensures Boosted(velocity, direction, charge)
            == Vec3(velocity.x + direction.x * (charge / 2000.0),
                    velocity.y + direction.y * (charge / 2000.0),
                    velocity.z + direction.z * (charge / 2000.0))
  {
    var t := Thrust(charge);
    assert t == charge / 2000.0;
    assert direction.Scale(t) == Vec3(direction.x * t, direction.y * t, direction.z * t);
  }
}
