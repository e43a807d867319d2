/** The positioning profile seen from the target: a distance that is still to go
    and a speed towards the target. The signed code of the servo is proved to be
    this one-sided approach, and the approach is proved to end. */
module Approach {
  import opened Reals
  import opened ServoSpec
  import opened Kinematics

  /** Velocity limit, acceleration, deceleration (in velocity units per second),
      counts per velocity unit and second, and the position window. */
  datatype Profile = Profile(top: real, up: real, down: real, kv: real, window: real)
  {
    predicate Valid() {
      top >= 0.0 && up >= 0.0 && down >= 0.0 && kv > 0.0 && window >= 0.0
    }
  }

  function ProfileOf(c: Config, maxVelocity: real): Profile {
    Profile(maxVelocity, Mul(c.acceleration, Ka(c)), Mul(c.deceleration, Ka(c)), Kv(c), c.window)
  }

  lemma ProfileIsValid(c: Config, maxVelocity: real)
    requires c.Valid() && maxVelocity >= 0.0
    ensures ProfileOf(c, maxVelocity).Valid()
  {
    Units(c);
    MulNonNeg(c.acceleration, Ka(c));
    MulNonNeg(c.deceleration, Ka(c));
  }

  datatype Approach = Near(distance: real, speed: real) | Arrived

  predicate Braking(p: Profile, distance: real, speed: real) {
    distance <= BrakeLength(Mul(p.kv, speed), Mul(p.down, p.kv))
  }

  function NextSpeed(p: Profile, distance: real, speed: real, dt: real): real {
    if Braking(p, distance, speed) then MoveTowards(speed, 0.0, Mul(p.down, dt))
    else MoveTowards(speed, p.top, Mul(p.up, dt))
  }

  function ApproachStep(p: Profile, distance: real, speed: real, dt: real): Approach {
    if distance <= p.window && speed <= Max(Mul(p.down, dt), EPS) then Arrived
    else
      var v := NextSpeed(p, distance, speed, dt);
      var rest := distance - Travel(p.kv, v, dt);
      if Reaches(distance, rest) then Arrived else Near(rest, v)
  }

  // ---- The signed profile refines the approach ----

  lemma MoveTowardsMirrors(current: real, target: real, maxDelta: real, forward: bool)
    ensures MoveTowards(Signed(forward, current), Signed(forward, target), maxDelta)
            == Signed(forward, MoveTowards(current, target, maxDelta))
  {
  }

  lemma ReachesMirrors(forward: bool, distance: real, rest: real)
    ensures Reaches(Signed(forward, distance), Signed(forward, rest)) == Reaches(distance, rest)
  {
  }

  lemma BrakingAgrees(c: Config, velocity: real, forward: bool)
    requires Signed(forward, velocity) >= 0.0
    ensures StoppingDistance(c, velocity, forward)
            == BrakeLength(Mul(Kv(c), Signed(forward, velocity)), Mul(Mul(c.deceleration, Ka(c)), Kv(c)))
  {
    hide BrakeLength;
    VelocityRateIsLinear(c, velocity);
    AccelerationRateIsLinear(c, c.deceleration);
    Units(c);
    MulNonNeg(Kv(c), Signed(forward, velocity));
    assert Signed(forward, VelocityRate(c, velocity)) == Mul(Kv(c), Signed(forward, velocity));
    assert Max(Signed(forward, VelocityRate(c, velocity)), 0.0) == Mul(Kv(c), Signed(forward, velocity));
    assert AccelerationRate(c, c.deceleration) == Mul(Mul(c.deceleration, Ka(c)), Kv(c));
  }

  /** The axis after one signed ramp step is the mirror image of the approach. */
  lemma SignedRamp(c: Config, a: Axis, target: real, top: real, ramp: real, dt: real, forward: bool)
    requires forward == (target - a.position >= 0.0)
    ensures var next := Integrate(c, a, Signed(forward, top), ramp, dt);
            var v := MoveTowards(Signed(forward, a.velocity), top, VelocityDelta(c, ramp, dt));
            var rest := Abs(target - a.position) - Travel(Kv(c), v, dt);
            && next == Axis(target - Signed(forward, rest), Signed(forward, v))
            && Reaches(target - a.position, target - next.position)
               == Reaches(Abs(target - a.position), rest)
  {
    hide MoveTowards, Reaches, Kv, Integrate, VelocityDelta;
    var speed, delta := Signed(forward, a.velocity), VelocityDelta(c, ramp, dt);
    var v := MoveTowards(speed, top, delta);
    IntegrateMoves(c, a, Signed(forward, top), ramp, dt);
    MoveTowardsMirrors(speed, top, delta, forward);
    var distance, path := Abs(target - a.position), Travel(Kv(c), v, dt);
    var next := Integrate(c, a, Signed(forward, top), ramp, dt);
    assert Signed(forward, speed) == a.velocity;
    assert next.velocity == Signed(forward, v);
    assert Travel(Kv(c), Signed(forward, v), dt) == Signed(forward, path);
    assert next.position == a.position + Signed(forward, path);
    assert target - next.position == Signed(forward, distance - path);
    assert target - a.position == Signed(forward, distance);
    ReachesMirrors(forward, distance, distance - path);
  }

  /** Moving towards the target at a speed, one signed step is one approach step. */
  lemma SignedStepIsApproach(c: Config, a: Axis, target: real, maxVelocity: real, dt: real)
    requires Signed(target >= a.position, a.velocity) >= 0.0
    ensures var forward := target >= a.position;
            var m := PpMove(c, a, target, maxVelocity, dt);
            match ApproachStep(ProfileOf(c, maxVelocity), Abs(target - a.position),
                               Signed(forward, a.velocity), dt)
            case Arrived => m == Motion(Axis(target, 0.0), false)
            case Near(distance, speed) =>
              m == Motion(Axis(target - Signed(forward, distance), Signed(forward, speed)), true)
  {
    hide BrakeLength, StoppingDistance, VelocityDelta, Integrate, MoveTowards, Reaches, Kv, Ka, Travel, Mul;
    var forward := target - a.position >= 0.0;
    BrakingAgrees(c, a.velocity, forward);
    DeltaIsProduct(c, c.deceleration, dt);
    DeltaIsProduct(c, c.acceleration, dt);
    SignedRamp(c, a, target, maxVelocity, c.acceleration, dt, forward);
    SignedRamp(c, a, target, 0.0, c.deceleration, dt, forward);
  }

  // ---- Envelope ----

  /** The distance never grows, the target is never crossed and the speed stays
      between zero and the limit. */
  lemma ApproachStaysInside(p: Profile, distance: real, speed: real, dt: real)
    requires p.Valid() && dt > 0.0 && distance >= 0.0 && 0.0 <= speed <= p.top
    ensures 0.0 <= NextSpeed(p, distance, speed, dt) <= p.top
    ensures match ApproachStep(p, distance, speed, dt)
            case Arrived => true
            case Near(rest, v) => 0.0 < rest <= distance && 0.0 <= v <= p.top
  {
    hide Braking;
    MulNonNeg(p.up, dt);
    MulNonNeg(p.down, dt);
    var v := NextSpeed(p, distance, speed, dt);
    MulNonNeg(p.kv, v);
    MulNonNeg(p.kv * v, dt);
    var rest := distance - Travel(p.kv, v, dt);
    if distance > 0.0 && rest <= 0.0 {
      MulNonNeg(distance, -rest);
    }
  }

  // ---- Termination ----

  /** The least distance an accelerating cycle of at least dt seconds covers. */
  function Quantum(p: Profile, dt: real): real {
    Travel(p.kv, Min(p.top, Mul(p.up, dt)), dt)
  }

  lemma QuantumIsPositive(p: Profile, dt: real)
    requires p.Valid() && p.top > 0.0 && p.up > 0.0 && dt > 0.0
    ensures Quantum(p, dt) > 0.0 && Min(p.top, Mul(p.up, dt)) > 0.0
  {
    MulPos(p.up, dt);
    MulPos(p.kv, Min(p.top, Mul(p.up, dt)));
    MulPos(p.kv * Min(p.top, Mul(p.up, dt)), dt);
  }

  /** Whole multiples of a positive unit in a non-negative quantity. */
  function Count(x: real, unit: real): (n: nat)
  {
    if x >= 0.0 && unit > 0.0 then (assert x / unit >= 0.0 by { DivNonNeg(x, unit); } (x / unit).Floor)
    else 0
  }

  lemma CountDrops(x: real, y: real, unit: real)
    requires unit > 0.0 && 0.0 <= y <= x - unit
    ensures Count(y, unit) < Count(x, unit)
  {
    DivLe(x, unit, x / unit);
    DivLe(y, unit, x / unit - 1.0);
    assert (x / unit - 1.0) * unit == x - unit;
  }

  lemma CountMono(x: real, y: real, unit: real)
    requires unit > 0.0 && 0.0 <= y <= x
    ensures Count(y, unit) <= Count(x, unit)
  {
    DivLe(x, unit, x / unit);
    DivLe(y, unit, x / unit);
  }

  /** Cycles that brake a speed to rest when each takes away at least a unit. */
  function BrakeCycles(speed: real, unit: real): nat {
    if speed > 0.0 && unit > 0.0 then Count(speed, unit) + 1 else 0
  }

  /** Remaining accelerations first, remaining brake cycles second: the profile may
      brake to rest short of the target and start again, but only so often. */
  function Rank(p: Profile, distance: real, speed: real, dt: real): nat {
    Count(distance, Quantum(p, dt)) * (BrakeCycles(p.top, Mul(p.down, dt)) + 1)
    + BrakeCycles(speed, Mul(p.down, dt))
  }

  lemma BrakeCyclesMono(speed: real, top: real, unit: real)
    requires 0.0 <= speed <= top
    ensures BrakeCycles(speed, unit) <= BrakeCycles(top, unit)
  {
    if speed > 0.0 && unit > 0.0 {
      CountMono(top, speed, unit);
    }
  }

  /** Braking while something is left to go needs a speed and a deceleration. */
  lemma BrakingNeedsSpeed(p: Profile, distance: real, speed: real)
    requires p.Valid() && distance > 0.0 && speed >= 0.0 && Braking(p, distance, speed)
    ensures speed > 0.0 && p.down > 0.0
  {
    BrakeLengthOfRest(Mul(p.kv, speed), Mul(p.down, p.kv));
    assert speed == 0.0 ==> Mul(p.kv, speed) == 0.0;
    assert p.down == 0.0 ==> Mul(p.down, p.kv) == 0.0;
  }

  lemma BrakeLengthOfRest(speed: real, brake: real)
    ensures speed == 0.0 || brake == 0.0 ==> BrakeLength(speed, brake) == 0.0
  {
  }

  /** A braking cycle spends one brake cycle. */
  lemma BrakingSpendsCycle(speed: real, delta: real, unit: real)
    requires 0.0 < unit <= delta && 0.0 < speed
    ensures BrakeCycles(MoveTowards(speed, 0.0, delta), unit) < BrakeCycles(speed, unit)
  {
    var v := MoveTowards(speed, 0.0, delta);
    if v > 0.0 {
      CountDrops(speed, v, unit);
    }
  }

  lemma RampReachesLeast(speed: real, top: real, delta: real, unit: real)
    requires 0.0 <= unit <= delta && 0.0 <= speed <= top
    ensures Min(top, unit) <= MoveTowards(speed, top, delta)
  {
  }

  /** An accelerating cycle covers at least the quantum. */
  lemma AcceleratingCoversQuantum(p: Profile, speed: real, dt: real, dtMin: real)
    requires p.Valid() && 0.0 < dtMin <= dt && 0.0 <= speed <= p.top
    ensures Travel(p.kv, MoveTowards(speed, p.top, Mul(p.up, dt)), dt) >= Quantum(p, dtMin)
  {
    hide MoveTowards;
    MulNonNeg(p.up, dtMin);
    MulMono(dtMin, dt, p.up);
    RampReachesLeast(speed, p.top, Mul(p.up, dt), Mul(p.up, dtMin));
    var least, v := Min(p.top, Mul(p.up, dtMin)), MoveTowards(speed, p.top, Mul(p.up, dt));
    MulMono(least, v, p.kv);
    MulNonNeg(p.kv, v);
    MulMono(dtMin, dt, p.kv * v);
    MulMono(p.kv * least, p.kv * v, dtMin);
  }

  lemma Lexicographic(q: nat, q': nat, k: nat, b: nat, b': nat)
    requires (q' < q && b' <= k) || (q' <= q && b' < b)
    ensures q' * (k + 1) + b' < q * (k + 1) + b
  {
    if q' < q {
      assert (q - q' - 1) * (k + 1) >= 0;
      assert q * (k + 1) == q' * (k + 1) + (k + 1) + (q - q' - 1) * (k + 1);
    } else {
      assert (q - q') * (k + 1) >= 0;
      assert q * (k + 1) == q' * (k + 1) + (q - q') * (k + 1);
    }
  }

  /** With a velocity limit and an acceleration, every cycle either arrives or
      lowers the rank. */
  lemma RankDrops(p: Profile, distance: real, speed: real, dt: real, dtMin: real)
    requires p.Valid() && p.top > 0.0 && p.up > 0.0 && 0.0 < dtMin <= dt
    requires distance >= 0.0 && 0.0 <= speed <= p.top
    ensures match ApproachStep(p, distance, speed, dt)
            case Arrived => true
            case Near(rest, v) => Rank(p, rest, v, dtMin) < Rank(p, distance, speed, dtMin)
  {
    hide Braking, Count, BrakeCycles, MoveTowards, Quantum, Travel, Reaches, Mul;
    ApproachStaysInside(p, distance, speed, dt);
    QuantumIsPositive(p, dtMin);
    match ApproachStep(p, distance, speed, dt)
    case Arrived =>
    case Near(rest, v) =>
      var unit := Mul(p.down, dtMin);
      BrakeCyclesMono(v, p.top, unit);
      CountMono(distance, rest, Quantum(p, dtMin));
      if Braking(p, distance, speed) {
        BrakingNeedsSpeed(p, distance, speed);
        MulPos(p.down, dtMin);
        MulMono(dtMin, dt, p.down);
        BrakingSpendsCycle(speed, Mul(p.down, dt), unit);
      } else {
        AcceleratingCoversQuantum(p, speed, dt, dtMin);
        CountDrops(distance, rest, Quantum(p, dtMin));
      }
      Lexicographic(Count(distance, Quantum(p, dtMin)), Count(rest, Quantum(p, dtMin)),
                    BrakeCycles(p.top, unit), BrakeCycles(speed, unit), BrakeCycles(v, unit));
  }

  /** Without a velocity limit or without acceleration a resting axis outside the
      window stays where it is. */
  lemma StuckWithoutDrive(p: Profile, distance: real, dt: real)
    requires p.Valid() && dt > 0.0 && distance > p.window
    requires p.top == 0.0 || p.up == 0.0
    ensures ApproachStep(p, distance, 0.0, dt) == Near(distance, 0.0)
  {
    hide Braking, Reaches, Travel;
    if Braking(p, distance, 0.0) {
      BrakingNeedsSpeed(p, distance, 0.0);
    }
    RampFromRest(p.top, Mul(p.up, dt));
    assert NextSpeed(p, distance, 0.0, dt) == 0.0;
    StayingDoesNotReach(distance, p.kv, dt);
  }

  lemma StayingDoesNotReach(distance: real, kv: real, dt: real)
    requires distance > 0.0
    ensures Travel(kv, 0.0, dt) == 0.0 && !Reaches(distance, distance)
  {
    MulPos(distance, distance);
  }

  lemma RampFromRest(top: real, delta: real)
    requires top == 0.0 || delta == 0.0
    ensures MoveTowards(0.0, top, delta) == 0.0
  {
  }
}
