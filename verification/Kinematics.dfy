/** The unit conversions are linear, and a velocity ramp stays between its ends. */
module Kinematics {
  import opened Reals
  import opened ServoSpec

  lemma QuotientOfProduct(x: real, y: real, z: real)
    requires z > 0.0
    ensures x * y / z == y / z * x
  {
    var q := y / z;
    assert q * z == y;
    assert x * y == (q * x) * z;
  }

  lemma Units(c: Config)
    ensures Kv(c) > 0.0 && Ka(c) > 0.0
  {
    DivPos(UnitScale(c.velocityExponent), UnitScale(c.positionExponent));
    DivPos(UnitScale(c.accelerationExponent), UnitScale(c.velocityExponent));
  }

  lemma VelocityRateIsLinear(c: Config, velocity: real)
    ensures VelocityRate(c, velocity) == Kv(c) * velocity
  {
    QuotientOfProduct(velocity, UnitScale(c.velocityExponent), UnitScale(c.positionExponent));
  }

  lemma VelocityDeltaIsLinear(c: Config, acceleration: real, dt: real)
    ensures VelocityDelta(c, acceleration, dt) == acceleration * Ka(c) * dt
  {
    QuotientOfProduct(acceleration, UnitScale(c.accelerationExponent), UnitScale(c.velocityExponent));
  }

  lemma AccelerationRateIsLinear(c: Config, acceleration: real)
    ensures AccelerationRate(c, acceleration) == acceleration * Ka(c) * Kv(c)
  {
    var a, v, p := UnitScale(c.accelerationExponent), UnitScale(c.velocityExponent),
                   UnitScale(c.positionExponent);
    QuotientOfProduct(acceleration, a, p);
    assert a / p == a / v * (v / p) by {
      var x, y := a / v, v / p;
      assert x * v == a && y * p == v;
      assert (x * y) * p == a;
    }
  }

  lemma DeltaNonNegative(c: Config, acceleration: real, dt: real)
    requires acceleration >= 0.0 && dt > 0.0
    ensures VelocityDelta(c, acceleration, dt) >= 0.0
  {
    VelocityDeltaIsLinear(c, acceleration, dt);
    Units(c);
    MulNonNeg(acceleration, Ka(c));
    MulNonNeg(acceleration * Ka(c), dt);
  }

  /** The result lies between the start and the target velocity. */
  lemma MoveTowardsIsBetween(current: real, target: real, maxDelta: real)
    ensures Min(current, target) <= MoveTowards(current, target, maxDelta) <= Max(current, target)
  {
  }

  /** The distance covered at a speed in a cycle. */
  function Travel(kv: real, speed: real, dt: real): real {
    kv * speed * dt
  }

  /** The position moves with the new velocity. */
  lemma IntegrateMoves(c: Config, a: Axis, targetVelocity: real, acceleration: real, dt: real)
    ensures var next := Integrate(c, a, targetVelocity, acceleration, dt);
            && next.velocity == MoveTowards(a.velocity, targetVelocity, VelocityDelta(c, acceleration, dt))
            && next.position == a.position + Travel(Kv(c), next.velocity, dt)
  {
    VelocityRateIsLinear(c, Integrate(c, a, targetVelocity, acceleration, dt).velocity);
  }

  /** A ramp's reach in a cycle, as an acceleration in velocity units per second. */
  lemma DeltaIsProduct(c: Config, acceleration: real, dt: real)
    ensures VelocityDelta(c, acceleration, dt) == Mul(Mul(acceleration, Ka(c)), dt)
  {
    VelocityDeltaIsLinear(c, acceleration, dt);
  }

  lemma {:induction false} PowersGrow(n: nat, m: nat)
    requires n <= m
    ensures Pow10(n) <= Pow10(m) && (n < m ==> 10.0 * Pow10(n) <= Pow10(m))
  {
    if n < m {
      PowersGrow(n, m - 1);
    }
  }

  lemma TwelfthPower()
    ensures Pow10(12) == 1000000000000.0
  {
    assert Pow10(3) == 1000.0;
    assert Pow10(6) == 1000000.0;
    assert Pow10(9) == 1000000000.0;
  }

  /** A unit exponent scales by the power of ten of its magnitude, down to 1e-12. */
  lemma ScaleIsPower(exponent: int)
    ensures var n: nat := if exponent > 0 then exponent else -exponent;
            if n <= 12 then UnitScale(exponent) * Pow10(n) == 1.0 else UnitScale(exponent) == 0.000000000001
  {
    hide Pow10;
    var n: nat := if exponent > 0 then exponent else -exponent;
    var p := Pow10(n);
    TwelfthPower();
    if n <= 12 {
      PowersGrow(n, 12);
      assert 1.0 / p * p == 1.0;
      MulMono(p, 1000000000000.0, 1.0 / p);
    } else {
      PowersGrow(12, n);
      DivLe(1.0, p, SCALE_FLOOR);
      MulMono(1000000000000.0, p, SCALE_FLOOR);
    }
  }
}
