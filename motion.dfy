/**
 * Friction and decay: the per-step decay factor chosen from the vehicle's
 * surroundings, and the velocity and steering updates that follow from it.
 * Values are reals; float rounding is not modelled.
 */
module Motion {
  datatype Vec3 = Vec3(x: real, y: real, z: real) {
    function Add(o: Vec3): Vec3 {
      Vec3(x + o.x, y + o.y, z + o.z)
    }

    function Scale(k: real): Vec3 {
      Vec3(x * k, y * k, z * k)
    }
  }

  const ZERO: Vec3 := Vec3(0.0, 0.0, 0.0)

  /** What the host world reports about the vehicle this step. */
  datatype Contact = Contact(touchingWater: bool, onGround: bool, hasPassenger: bool)

  const WATER_DECAY: real := 0.9
  const WATER_GRAVITY_SCALE: real := 0.25
  const UNRIDDEN_GROUND_DECAY: real := 0.75

  /**
   * The decay factor: water first, then the ground (ground friction with a
   * passenger, a fixed 0.75 without), and in the air `1 - friction`.
   */
  function Decay(contact: Contact, friction: real, groundFriction: real): (r: real)
    ensures r in {WATER_DECAY, UNRIDDEN_GROUND_DECAY, groundFriction, 1.0 - friction}
    ensures contact.touchingWater ==> r == WATER_DECAY
  {
    if contact.touchingWater then WATER_DECAY
    else if contact.onGround then
      if contact.hasPassenger then groundFriction else UNRIDDEN_GROUND_DECAY
    else 1.0 - friction
  }

  /** Gravity is scaled down in water. */
  function EffectiveGravity(contact: Contact, gravity: real): real {
    if contact.touchingWater then gravity * WATER_GRAVITY_SCALE else gravity
  }

  /** The velocity after decay: horizontal and vertical decay per axis, gravity added vertically. */
  function DecayedVelocity(v: Vec3, decay: real, horizontalDecay: real, verticalDecay: real, gravity: real): (r: Vec3)
    ensures decay == 0.0 ==> r == Vec3(0.0, gravity, 0.0)
    ensures v == ZERO ==> r == Vec3(0.0, gravity, 0.0)
  {
    Vec3(v.x * decay * horizontalDecay, v.y * decay * verticalDecay + gravity, v.z * decay * horizontalDecay)
  }

  /** The factor steering inputs keep from one step to the next. */
  function RotationFactor(decay: real, rotationDecay: real): real {
    decay * rotationDecay
  }

  /**
   * What each case looks at: in water nothing else matters; on the ground the
   * friction stat is ignored and only the passenger decides between the
   * ground-friction stat and 0.75; in the air only the friction stat counts.
   */
  lemma DecayPrecedence(contact: Contact, friction: real, groundFriction: real, friction': real, groundFriction': real)
    ensures contact.touchingWater ==>
      forall ground: bool, passenger: bool ::
        Decay(Contact(true, ground, passenger), friction', groundFriction') == Decay(contact, friction, groundFriction) == WATER_DECAY
    ensures !contact.touchingWater && contact.onGround ==>
      Decay(contact, friction', groundFriction) == Decay(contact, friction, groundFriction)
      && Decay(contact, friction, groundFriction) == (if contact.hasPassenger then groundFriction else UNRIDDEN_GROUND_DECAY)
    ensures !contact.touchingWater && !contact.onGround ==>
      Decay(Contact(false, false, !contact.hasPassenger), friction, groundFriction') == Decay(contact, friction, groundFriction)
      && Decay(contact, friction, groundFriction) == 1.0 - friction
  {
  }

  /** With friction and ground-friction stats in [0, 1] the decay factor lies in [0, 1]. */
  lemma DecayBounded(contact: Contact, friction: real, groundFriction: real)
    requires 0.0 <= friction <= 1.0 && 0.0 <= groundFriction <= 1.0
    ensures 0.0 <= Decay(contact, friction, groundFriction) <= 1.0
  {
  }

  function Abs(r: real): real {
    if r < 0.0 then -r else r
  }

  /** A decay factor and horizontal decay in [0, 1] never speed the vehicle up horizontally. */
  lemma FrictionNeverSpeedsUp(v: Vec3, decay: real, horizontalDecay: real, verticalDecay: real, gravity: real)
    requires 0.0 <= decay <= 1.0 && 0.0 <= horizontalDecay <= 1.0
    ensures var v' := DecayedVelocity(v, decay, horizontalDecay, verticalDecay, gravity);
      Abs(v'.x) <= Abs(v.x) && Abs(v'.z) <= Abs(v.z)
  {
    var k := decay * horizontalDecay;
    UnitProduct(decay, horizontalDecay);
    ShrinkFactor(v.x, k);
    ShrinkFactor(v.z, k);
    MulAssociative(v.x, decay, horizontalDecay);
    MulAssociative(v.z, decay, horizontalDecay);
    var v' := DecayedVelocity(v, decay, horizontalDecay, verticalDecay, gravity);
    assert v'.x == v.x * k && v'.z == v.z * k;
  }

  lemma MulAssociative(a: real, b: real, c: real)
    ensures a * b * c == a * (b * c)
  {
  }

  lemma UnitProduct(a: real, b: real)
    requires 0.0 <= a <= 1.0 && 0.0 <= b <= 1.0
    ensures 0.0 <= a * b <= 1.0
  {
    assert a * b <= a by {
      assert a * (1.0 - b) >= 0.0;
    }
  }

  lemma ShrinkFactor(a: real, k: real)
    requires 0.0 <= k <= 1.0
    ensures Abs(a * k) <= Abs(a)
  {
    if a < 0.0 {
      assert (-a) * k <= -a by {
        assert (-a) * (1.0 - k) >= 0.0;
      }
    } else {
      assert a * (1.0 - k) >= 0.0;
    }
  }

  /**
   * A grounded vehicle without a passenger decays by 0.75 whatever its
   * friction stat: with horizontal decay 1.0 a velocity of 10 along x becomes 7.5.
   */
  lemma GroundedUnriddenExample(friction: real, groundFriction: real, verticalDecay: real, gravity: real)
    ensures var d := Decay(Contact(false, true, false), friction, groundFriction);
      d == 0.75 && DecayedVelocity(Vec3(10.0, 0.0, 0.0), d, 1.0, verticalDecay, gravity).x == 7.5
  {
  }

  /** With decay and rotation decay in [0, 1] the steering factor lies in [0, 1]. */
  lemma RotationFactorBounded(decay: real, rotationDecay: real)
    requires 0.0 <= decay <= 1.0 && 0.0 <= rotationDecay <= 1.0
    ensures 0.0 <= RotationFactor(decay, rotationDecay) <= 1.0
  {
    UnitProduct(decay, rotationDecay);
  }
}
