/** The thermal plant of the simulator (class ThermalSystem): a first-order
    process that relaxes towards the ambient temperature and is heated in
    proportion to the control input. Every `double` is modelled as a real. */
module Plant {

  /** Newton cooling coefficient of the plant, per unit of time. */
  const CoolingRate: real := 0.1

  /** Temperature gained per unit of time at full heater power. */
  const HeatingGain: real := 1.0

  /** The plant's state; `ambient` is the temperature it cools towards. */
  datatype ThermalSystem = ThermalSystem(temperature: real, ambient: real)

  /** One explicit Euler step of length `dt` with heater power `heaterPower`.
      Neither argument is validated: an out-of-range power or a non-positive
      step is simply used. Stated in terms of the deviation from ambient: the
      deviation decays by the factor 1 - CoolingRate * dt and the heater adds
      HeatingGain * heaterPower * dt; the ambient temperature never changes. */
  function Update(s: ThermalSystem, heaterPower: real, dt: real): (s': ThermalSystem)
    ensures s'.ambient == s.ambient
    ensures s'.temperature - s'.ambient
            == (1.0 - CoolingRate * dt) * (s.temperature - s.ambient) + HeatingGain * heaterPower * dt
  {
    var cooling := -CoolingRate * (s.temperature - s.ambient);
    var heating := HeatingGain * heaterPower;
    s.(temperature := s.temperature + (cooling + heating) * dt)
  }

  /** The temperature at which a constant heater power holds the plant still. */
  function SteadyTemperature(ambient: real, heaterPower: real): real
  {
    ambient + HeatingGain * heaterPower / CoolingRate
  }

  /** With the heater off and the plant at ambient, a step of any length
      (even a negative one) leaves the plant unchanged. */
  lemma Equilibrium(s: ThermalSystem, dt: real)
    requires s.temperature == s.ambient
    ensures Update(s, 0.0, dt) == s
  {
  }

  /** More generally, every constant heater power has a fixed point, at
      ambient + 10 * heaterPower, and it is a fixed point for every step length. */
  lemma SteadyStateIsFixed(s: ThermalSystem, heaterPower: real, dt: real)
    requires s.temperature == SteadyTemperature(s.ambient, heaterPower)
    ensures Update(s, heaterPower, dt) == s
  {
  }

  /** Over a non-negative step, more heater power never yields a lower
      temperature. */
  lemma UpdateMonotoneInPower(s: ThermalSystem, u1: real, u2: real, dt: real)
    requires 0.0 <= dt
    requires u1 <= u2
    ensures Update(s, u1, dt).temperature <= Update(s, u2, dt).temperature
  {
  }

  /** The band between ambient and the full-power steady temperature is
      invariant: a plant inside it, driven with a power in [0, 1] for a step
      in (0, 1 / CoolingRate], stays inside it. */
  lemma UpdateStaysInBand(s: ThermalSystem, heaterPower: real, dt: real)
    requires 0.0 <= heaterPower <= 1.0
    requires 0.0 < dt <= 1.0 / CoolingRate
    requires s.ambient <= s.temperature <= SteadyTemperature(s.ambient, 1.0)
    ensures var s' := Update(s, heaterPower, dt);
      s'.ambient <= s'.temperature <= SteadyTemperature(s'.ambient, 1.0)
  {
    var s' := Update(s, heaterPower, dt);
    var d := s.temperature - s.ambient;
    var f := 1.0 - CoolingRate * dt;
    var band := HeatingGain / CoolingRate;
    assert band == 10.0 && f == 1.0 - 0.1 * dt;
    assert 0.0 <= d <= band;
    // The decayed deviation stays in [0, f * band] = [0, band - dt].
    NonNegProduct(f, d);
    NonNegProduct(f, band - d);
    assert f * (band - d) == f * band - f * d;
    assert f * band == band - dt;
    // The heat added stays in [0, dt].
    NonNegProduct(heaterPower, dt);
    NonNegProduct(1.0 - heaterPower, dt);
    assert (1.0 - heaterPower) * dt == dt - heaterPower * dt;
    assert s'.temperature - s'.ambient == f * d + heaterPower * dt;
    assert SteadyTemperature(s'.ambient, 1.0) == s'.ambient + band;
  }

  /** A product of two non-negative reals is non-negative. */
  lemma NonNegProduct(a: real, b: real)
    requires 0.0 <= a && 0.0 <= b
    ensures 0.0 <= a * b
  {
  }
}
