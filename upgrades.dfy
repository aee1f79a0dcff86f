/**
 * Upgrade aggregation: the factor an installed set of upgrade items applies to
 * one vehicle stat. Penalties (negative contributions) compound
 * multiplicatively in a first pass; bonuses (positive contributions) are added
 * in a second pass; the result is floored at zero. Float rounding is not
 * modelled: values are reals.
 */
module Upgrades {
  import opened Wrappers
  import opened Items

  datatype Stat = Friction | GroundFriction | HorizontalDecay | VerticalDecay
                | RotationDecay | Durability | OtherStat(id: nat)

  /** An upgrade item's contribution to each stat. */
  type Upgrade = Stat -> real

  /** The upgrade registry: items without a registered upgrade map to `None`. */
  type UpgradeRegistry = ItemId -> Option<Upgrade>

  /** What one installed stack contributes to `stat`, if the item it reports is an upgrade. */
  function Contribution(registry: UpgradeRegistry, stat: Stat, stack: ItemStack): Option<real> {
    match registry(stack.ItemOf())
    case None => None
    case Some(upgrade) => Some(upgrade(stat))
  }

  /**
   * One contribution per installed stack, in slot order. An empty stack reports
   * air, so it contributes exactly what the empty stack does, whatever item it
   * last held.
   */
  function Contributions(registry: UpgradeRegistry, stat: Stat, stacks: seq<ItemStack>): (cs: seq<Option<real>>)
    ensures |cs| == |stacks|
    ensures forall i :: 0 <= i < |stacks| && !stacks[i].IsEmpty() ==>
      cs[i] == (if registry(stacks[i].item).Some? then Some(registry(stacks[i].item).value(stat)) else None)
    ensures forall i :: 0 <= i < |stacks| && stacks[i].IsEmpty() ==> cs[i] == Contribution(registry, stat, EMPTY)
  {
    seq(|stacks|, i requires 0 <= i < |stacks| => Contribution(registry, stat, stacks[i]))
  }

  /** The multiplier a contribution applies in the penalty pass. */
  function PenaltyFactor(c: Option<real>): real {
    if c.Some? && c.value < 0.0 then c.value + 1.0 else 1.0
  }

  /** The amount a contribution adds in the bonus pass. */
  function BonusTerm(c: Option<real>): real {
    if c.Some? && c.value > 0.0 then c.value else 0.0
  }

  /** The penalty pass: the starting value 1.0 times every penalty factor, in list order. */
  function PenaltyProduct(cs: seq<Option<real>>): real {
    if cs == [] then 1.0 else Penalize(PenaltyProduct(cs[..|cs| - 1]), cs[|cs| - 1])
  }

  /** One step of the penalty pass: the value so far times the contribution's factor. */
  function Penalize(p: real, c: Option<real>): real {
    p * PenaltyFactor(c)
  }

  /** Two penalty steps can be taken in either order. */
  lemma PenalizeCommutes(p: real, c: Option<real>, d: Option<real>)
    ensures Penalize(Penalize(p, c), d) == Penalize(Penalize(p, d), c)
  {
    MulSwap(p, PenaltyFactor(c), PenaltyFactor(d));
  }

  /** The bonus pass: the sum of every positive contribution, in list order. */
  function BonusSum(cs: seq<Option<real>>): real {
    if cs == [] then 0.0 else BonusSum(cs[..|cs| - 1]) + BonusTerm(cs[|cs| - 1])
  }

  /** The floor at zero applied to the final value. */
  function Floor0(v: real): real {
    if v >= 0.0 then v else 0.0
  }

  /** Both passes, penalties first, then the floor. */
  function Aggregate(cs: seq<Option<real>>): (r: real)
    ensures r >= 0.0 && r >= PenaltyProduct(cs) + BonusSum(cs)
    ensures PenaltyProduct(cs) + BonusSum(cs) >= 0.0 ==> r == PenaltyProduct(cs) + BonusSum(cs)
    ensures PenaltyProduct(cs) + BonusSum(cs) < 0.0 ==> r == 0.0
  {
    Floor0(PenaltyProduct(cs) + BonusSum(cs))
  }

  /**
   * The two-pass loop over the installed upgrade stacks. Its result is never
   * negative and equals the aggregate of the stacks' contributions.
   */
  method TotalUpgrade(upgrades: seq<ItemStack>, registry: UpgradeRegistry, stat: Stat) returns (value: real)
    ensures value >= 0.0
    ensures value == Aggregate(Contributions(registry, stat, upgrades))
  {
    ghost var cs := Contributions(registry, stat, upgrades);
    value := 1.0;
    assert cs[..0] == [];
    for step := 0 to 2
      invariant value == PassValue(cs, step, 0)
    {
      for i := 0 to |upgrades|
        invariant value == PassValue(cs, step, i)
      {
        ghost var before := value;
        var upgrade := registry(upgrades[i].ItemOf());
        if upgrade.Some? {
          var u := upgrade.value(stat);
          if u > 0.0 && step == 1 {
            value := value + u;
          } else if u < 0.0 && step == 0 {
            value := value * (u + 1.0);
          }
        }
        PassStep(cs, i, step, before, value);
      }
      PassDone(cs, step);
    }
    value := if 0.0 >= value then 0.0 else value;
  }

  lemma {:induction false} BonusSumConcat(a: seq<Option<real>>, b: seq<Option<real>>)
    ensures BonusSum(a + b) == BonusSum(a) + BonusSum(b)
    decreases |b|
  {
    if b == [] {
      assert a + b == a;
    } else {
      var init := b[..|b| - 1];
      assert (a + b)[..|a + b| - 1] == a + init;
      BonusSumConcat(a, init);
    }
  }

  /** A contribution that affects neither pass: no upgrade, or exactly zero. */
  predicate Neutral(c: Option<real>) {
    c.None? || c.value == 0.0
  }

  /**
   * An emptied upgrade stack contributes what the empty stack does; with air
   * unregistered as an upgrade, that is nothing at all.
   */
  lemma EmptyStackContribution(registry: UpgradeRegistry, stat: Stat, stack: ItemStack)
    requires stack.IsEmpty()
    ensures Contribution(registry, stat, stack) == Contribution(registry, stat, EMPTY)
    ensures registry(AIR).None? ==> Neutral(Contribution(registry, stat, stack))
  {
  }

  /** With no upgrades, or only neutral ones, the factor is exactly 1.0. */
  lemma {:induction false} NeutralUpgrades(cs: seq<Option<real>>)
    requires forall i :: 0 <= i < |cs| ==> Neutral(cs[i])
    ensures PenaltyProduct(cs) == 1.0 && BonusSum(cs) == 0.0
    ensures Aggregate(cs) == 1.0
  {
    if cs != [] {
      NeutralUpgrades(cs[..|cs| - 1]);
    }
  }

  /** Installing a neutral upgrade anywhere leaves the result unchanged. */
  lemma {:induction false} NeutralInsertion(a: seq<Option<real>>, c: Option<real>, b: seq<Option<real>>)
    requires Neutral(c)
    ensures Aggregate(a + [c] + b) == Aggregate(a + b)
  {
    PenaltyProductSplit(a, c, b);
    BonusSumSnoc(a, c);
    BonusSumConcat(a + [c], b);
    BonusSumConcat(a, b);
  }

  /**
   * The value the two-pass loop holds before position `i` of pass `step`: the
   * penalty product of the first `i` contributions in pass 0, the full product
   * plus the bonuses of the first `i` in pass 1, and both full folds after.
   */
  ghost function PassValue(cs: seq<Option<real>>, step: int, i: nat): real
    requires i <= |cs|
  {
    if step == 0 then PenaltyProduct(cs[..i])
    else if step == 1 then PenaltyProduct(cs) + BonusSum(cs[..i])
    else PenaltyProduct(cs) + BonusSum(cs)
  }

  /** One iteration of either pass extends the pass's fold by one contribution. */
  lemma {:induction false} PassStep(cs: seq<Option<real>>, i: nat, step: int, before: real, after: real)
    requires i < |cs| && (step == 0 || step == 1)
    requires before == PassValue(cs, step, i)
    requires step == 0 ==> after == Penalize(before, cs[i])
    requires step == 1 ==> after == before + BonusTerm(cs[i])
    ensures after == PassValue(cs, step, i + 1)
  {
    assert cs[..i + 1] == cs[..i] + [cs[i]];
    PenaltyProductSnoc(cs[..i], cs[i]);
    BonusSumSnoc(cs[..i], cs[i]);
  }

  /** The end of one pass is the start of the next. */
  lemma PassDone(cs: seq<Option<real>>, step: int)
    requires step == 0 || step == 1
    ensures PassValue(cs, step, |cs|) == PassValue(cs, step + 1, 0)
  {
    assert cs[..|cs|] == cs;
    assert cs[..0] == [];
  }

  lemma {:induction false} PenaltyProductSnoc(s: seq<Option<real>>, x: Option<real>)
    ensures PenaltyProduct(s + [x]) == Penalize(PenaltyProduct(s), x)
  {
    assert (s + [x])[..|s|] == s;
  }

  lemma {:induction false} BonusSumSnoc(s: seq<Option<real>>, x: Option<real>)
    ensures BonusSum(s + [x]) == BonusSum(s) + BonusTerm(x)
  {
    assert (s + [x])[..|s|] == s;
  }

  /** Splits `b` around an occurrence of the last element of `a`, when the two are permutations. */
  lemma {:induction false} PermutationSplit<T>(a: seq<T>, b: seq<T>) returns (left: seq<T>, right: seq<T>)
    requires a != [] && multiset(a) == multiset(b)
    ensures b == left + [a[|a| - 1]] + right
    ensures multiset(a[..|a| - 1]) == multiset(left + right)
  {
    var init, x := a[..|a| - 1], a[|a| - 1];
    assert a == init + [x];
    assert x in multiset(b);
    var k :| 0 <= k < |b| && b[k] == x;
    left, right := b[..k], b[k + 1..];
    assert b == left + [x] + right;
    assert multiset(b) == multiset(left) + multiset{x} + multiset(right);
    assert multiset(left + right) == multiset(left) + multiset(right);
    MultisetCancel(multiset(init), multiset(left + right), x);
  }

  lemma MultisetCancel<T>(m: multiset<T>, n: multiset<T>, x: T)
    requires m + multiset{x} == n + multiset{x}
    ensures m == n
  {
    assert m == (m + multiset{x}) - multiset{x};
    assert n == (n + multiset{x}) - multiset{x};
  }

  /** Moving one contribution to the end of the list leaves the penalty product unchanged. */
  lemma {:induction false} PenaltyProductSplit(left: seq<Option<real>>, x: Option<real>, right: seq<Option<real>>)
    ensures PenaltyProduct(left + [x] + right) == Penalize(PenaltyProduct(left + right), x)
    decreases |right|
  {
    if right == [] {
      assert left + [x] + right == left + [x];
      assert left + right == left;
      PenaltyProductSnoc(left, x);
    } else {
      var init, y := right[..|right| - 1], right[|right| - 1];
      assert left + [x] + right == (left + [x] + init) + [y];
      assert left + right == (left + init) + [y];
      PenaltyProductSplit(left, x, init);
      PenaltyProductSnoc(left + [x] + init, y);
      PenaltyProductSnoc(left + init, y);
      PenalizeCommutes(PenaltyProduct(left + init), x, y);
    }
  }

  /** The penalty pass depends only on the multiset of contributions. */
  lemma {:induction false} PenaltyPermutation(a: seq<Option<real>>, b: seq<Option<real>>)
    requires multiset(a) == multiset(b)
    ensures PenaltyProduct(a) == PenaltyProduct(b)
    decreases |a|
  {
    if a == [] {
      assert |b| == |multiset(b)| == 0;
    } else {
      var init, x := a[..|a| - 1], a[|a| - 1];
      var left, right := PermutationSplit(a, b);
      PenaltyPermutation(init, left + right);
      PenaltyProductSplit(left, x, right);
    }
  }

  lemma MulSwap(x: real, y: real, z: real)
    ensures (x * y) * z == (x * z) * y
  {
  }

  /** The bonus pass depends only on the multiset of contributions. */
  lemma {:induction false} BonusPermutation(a: seq<Option<real>>, b: seq<Option<real>>)
    requires multiset(a) == multiset(b)
    ensures BonusSum(a) == BonusSum(b)
    decreases |a|
  {
    if a == [] {
      assert |b| == |multiset(b)| == 0;
    } else {
      var init, x := a[..|a| - 1], a[|a| - 1];
      var left, right := PermutationSplit(a, b);
      BonusPermutation(init, left + right);
      BonusSumConcat(left, right);
      BonusSumConcat(left + [x], right);
      BonusSumConcat(left, [x]);
      assert [x][..0] == [];
    }
  }

  /** Within a pass the order of the upgrades does not matter: only their multiset does. */
  lemma {:induction false} AggregatePermutation(a: seq<Option<real>>, b: seq<Option<real>>)
    requires multiset(a) == multiset(b)
    ensures Aggregate(a) == Aggregate(b)
  {
    PenaltyPermutation(a, b);
    BonusPermutation(a, b);
  }

  /** With only bonuses installed the factor is 1.0 plus their sum. */
  lemma {:induction false} BonusesOnly(cs: seq<Option<real>>)
    requires forall i :: 0 <= i < |cs| ==> PenaltyFactor(cs[i]) == 1.0
    ensures PenaltyProduct(cs) == 1.0
    ensures BonusSum(cs) >= 0.0
    ensures Aggregate(cs) == 1.0 + BonusSum(cs)
  {
    if cs != [] {
      BonusesOnly(cs[..|cs| - 1]);
    }
  }

  /** With only penalties installed the factor is the floored product of `1 + u`. */
  lemma {:induction false} PenaltiesOnly(cs: seq<Option<real>>)
    requires forall i :: 0 <= i < |cs| ==> BonusTerm(cs[i]) == 0.0
    ensures BonusSum(cs) == 0.0
    ensures Aggregate(cs) == Floor0(PenaltyProduct(cs))
  {
    if cs != [] {
      PenaltiesOnly(cs[..|cs| - 1]);
    }
  }

  /** Penalties no larger than -1 in magnitude only ever shrink the starting value 1.0. */
  lemma {:induction false} PenaltiesShrink(cs: seq<Option<real>>)
    requires forall i :: 0 <= i < |cs| ==> cs[i].Some? ==> cs[i].value >= -1.0
    ensures 0.0 <= PenaltyProduct(cs) <= 1.0
  {
    if cs != [] {
      var init := cs[..|cs| - 1];
      PenaltiesShrink(init);
      PenalizeShrinks(PenaltyProduct(init), cs[|cs| - 1]);
    }
  }

  /** A penalty of at least -1 never makes a non-negative value negative or larger. */
  lemma PenalizeShrinks(p: real, c: Option<real>)
    requires 0.0 <= p && (c.Some? ==> c.value >= -1.0)
    ensures 0.0 <= Penalize(p, c) <= p
  {
    var f := PenaltyFactor(c);
    assert Penalize(p, c) == p * f;
    assert 0.0 <= f <= 1.0;
    NonNegativeProduct(p, f);
    NonNegativeProduct(p, 1.0 - f);
    assert p * (1.0 - f) == p - p * f;
  }

  lemma NonNegativeProduct(a: real, b: real)
    requires 0.0 <= a && 0.0 <= b
    ensures 0.0 <= a * b
  {
  }

  /**
   * The penalty pass runs before the bonus pass whatever the slot order: -0.5
   * and +0.5 give 0.5 + 0.5 = 1.0 in either order, not (1.0 + 0.5) * 0.5.
   */
  lemma MixedExample()
    ensures Aggregate([Some(-0.5), Some(0.5)]) == 1.0
    ensures Aggregate([Some(0.5), Some(-0.5)]) == 1.0
    ensures Aggregate([Some(0.5), Some(-0.5)]) != (1.0 + 0.5) * 0.5
  {
    var neg: Option<real>, pos: Option<real> := Some(-0.5), Some(0.5);
    assert [neg, pos][..1] == [neg] && [pos, neg][..1] == [pos];
    assert [neg][..0] == [] && [pos][..0] == [];
    assert PenaltyProduct([neg]) == 0.5 && PenaltyProduct([pos]) == 1.0;
    assert BonusSum([neg]) == 0.0 && BonusSum([pos]) == 0.5;
  }
}
