/** One integration step of a vehicle (Physics/rocket_physics.c).
    The engine's square root and exponential are parameters `sqrt` and `exp`;
    everything around them, the branches, sums, clamps and flags, is modelled. */
module Flight {
  import opened Vectors
  import opened Wire

  const EarthRadius := 6371000.0
  const EarthMass := 5.972e24
  const GConstant := 6.674e-11
  const AtmosphereHeight := 100000.0
  /** Speed below which touching the ground is a landing rather than a crash. */
  const LandingSpeed := 5.0
  /** vector_normalize of (0,0,1) is (0,0,1) itself: its magnitude is exactly 1. */
  const Up := Vector3(0.0, 0.0, 1.0)

  /** The C ControlCommand struct; engineThrottle None is a NULL throttle array, and the
      command's engine_count is the length of the array. */
  datatype NativeCommand = NativeCommand(engineThrottle: Option<seq<real>>, pitch: real, yaw: real, roll: real)

  /** The number of engines the thrust and fuel loops visit. */
  function EngineRange(config: RocketConfig, throttle: seq<real>): (n: nat)
    ensures n <= |config.engines| && n <= |throttle|
    ensures n == |config.engines| || n == |throttle|
  {
    if |config.engines| < |throttle| then |config.engines| else |throttle|
  }

  /** Total thrust of the active engines among the first n, each scaled by its throttle. */
  function ThrustSum(engines: seq<Engine>, throttle: seq<real>, n: nat): real
    requires n <= |engines| && n <= |throttle|
  {
    if n == 0 then 0.0
    else ThrustSum(engines, throttle, n - 1) +
         (if engines[n - 1].isActive then engines[n - 1].thrust * throttle[n - 1] else 0.0)
  }

  /** Fuel burnt in dt by the active engines among the first n. */
  function FuelSum(engines: seq<Engine>, throttle: seq<real>, dt: real, n: nat): real
    requires n <= |engines| && n <= |throttle|
  {
    if n == 0 then 0.0
    else FuelSum(engines, throttle, dt, n - 1) +
         (if engines[n - 1].isActive then engines[n - 1].fuelConsumption * throttle[n - 1] * dt else 0.0)
  }

  /** The scalar thrust calculate_thrust accumulates: zero for a NULL command
      or throttle array. */
  function ThrustMagnitude(config: RocketConfig, command: Option<NativeCommand>): (r: real)
    ensures command.None? || command.value.engineThrottle.None? ==> r == 0.0
  {
    if command.None? || command.value.engineThrottle.None? then 0.0
    else
      var t := command.value.engineThrottle.value;
      ThrustSum(config.engines, t, EngineRange(config, t))
  }

  /** calculate_fuel_consumption: zero for a NULL command or throttle array. */
  function FuelConsumption(config: RocketConfig, command: Option<NativeCommand>, dt: real): (r: real)
    ensures command.None? || command.value.engineThrottle.None? ==> r == 0.0
  {
    if command.None? || command.value.engineThrottle.None? then 0.0
    else
      var t := command.value.engineThrottle.value;
      FuelSum(config.engines, t, dt, EngineRange(config, t))
  }

  /** calculate_thrust: the magnitude, always along +z. */
  method CalculateThrust(config: RocketConfig, command: Option<NativeCommand>) returns (thrust: Vector3)
    ensures thrust == Scale(Up, ThrustMagnitude(config, command))
  {
    if command.None? || command.value.engineThrottle.None? {
      return Scale(Up, 0.0);
    }
    var throttle := command.value.engineThrottle.value;
    var magnitude := 0.0;
    var i := 0;
    while i < |config.engines| && i < |throttle|
      invariant 0 <= i <= EngineRange(config, throttle)
      invariant magnitude == ThrustSum(config.engines, throttle, i)
    {
      if config.engines[i].isActive {
        magnitude := magnitude + config.engines[i].thrust * throttle[i];
      }
      i := i + 1;
    }
    thrust := Scale(Up, magnitude);
  }

  /** calculate_fuel_consumption as the loop it is. */
  method CalculateFuelConsumption(config: RocketConfig, command: Option<NativeCommand>, dt: real)
    returns (total: real)
    ensures total == FuelConsumption(config, command, dt)
  {
    if command.None? || command.value.engineThrottle.None? {
      return 0.0;
    }
    var throttle := command.value.engineThrottle.value;
    total := 0.0;
    var i := 0;
    while i < |config.engines| && i < |throttle|
      invariant 0 <= i <= EngineRange(config, throttle)
      invariant total == FuelSum(config.engines, throttle, dt, i)
    {
      if config.engines[i].isActive {
        total := total + config.engines[i].fuelConsumption * throttle[i] * dt;
      }
      i := i + 1;
    }
  }

  /** calculate_gravity: zero inside the body, otherwise toward the centre. */
  function Gravity(position: Vector3, sqrt: real -> real): (g: Vector3)
    ensures Magnitude(position, sqrt) < EarthRadius ==> g == Zero
  {
    var distance := Magnitude(position, sqrt);
    if distance < EarthRadius then Zero
    else
      var magnitude := GConstant * EarthMass / (distance * distance);
      Scale(Normalize(position, sqrt), -magnitude)
  }

  /** calculate_drag: zero above the atmosphere and at (near) rest, otherwise
      opposite to the velocity. */
  function Drag(state: RocketState, config: RocketConfig, sqrt: real -> real, exp: real -> real): (d: Vector3)
    ensures state.altitude > AtmosphereHeight ==> d == Zero
    ensures Magnitude(state.velocity, sqrt) < 1e-6 ==> d == Zero
  {
    if state.altitude > AtmosphereHeight then Zero
    else
      var rho := 1.225 * exp(-state.altitude / 8500.0);
      var v := Magnitude(state.velocity, sqrt);
      if v < 1e-6 then Zero
      else
        var force := 0.5 * rho * v * v * config.dragCoefficient * config.crossSection;
        Scale(Normalize(state.velocity, sqrt), -force)
  }

  /** check_ground_collision: for a state whose altitude is its distance from
      the centre less the Earth's radius, exactly a non-positive altitude. */
  predicate OnGround(state: RocketState, sqrt: real -> real)
    ensures state.altitude == Magnitude(state.position, sqrt) - EarthRadius ==>
              (OnGround(state, sqrt) <==> state.altitude <= 0.0)
  {
    Magnitude(state.position, sqrt) <= EarthRadius
  }

  /** check_orbital_stability: above the atmosphere and within 10% of the
      circular speed. A non-positive distance or a zero circular speed makes
      the IEEE ratio infinite or NaN, so the band test fails. */
  predicate OrbitalStability(state: RocketState, sqrt: real -> real)
    ensures state.altitude < AtmosphereHeight ==> !OrbitalStability(state, sqrt)
    ensures Magnitude(state.position, sqrt) <= 0.0 ==> !OrbitalStability(state, sqrt)
  {
    if state.altitude < AtmosphereHeight then false
    else
      var distance := Magnitude(state.position, sqrt);
      if distance <= 0.0 then false
      else
        var orbitalSpeed := sqrt(GConstant * EarthMass / distance);
        if orbitalSpeed == 0.0 then false
        else
          var ratio := state.speed / orbitalSpeed;
          0.9 <= ratio <= 1.1
  }

  /** With a non-negative root, the stability band is 0.9 v_c <= speed <= 1.1 v_c
      for the circular speed v_c = sqrt(G M / r), above the atmosphere. */
  lemma OrbitalBand(state: RocketState, sqrt: real -> real)
    requires forall x: real :: x >= 0.0 ==> sqrt(x) >= 0.0
    ensures OrbitalStability(state, sqrt) <==>
      && state.altitude >= AtmosphereHeight
      && Magnitude(state.position, sqrt) > 0.0
      && var vc := sqrt(GConstant * EarthMass / Magnitude(state.position, sqrt));
         vc > 0.0 && 0.9 * vc <= state.speed <= 1.1 * vc
  {
    var d := Magnitude(state.position, sqrt);
    if state.altitude >= AtmosphereHeight && d > 0.0 {
      var vc := sqrt(GConstant * EarthMass / d);
      assert GConstant * EarthMass / d >= 0.0;
      if vc > 0.0 {
        assert state.speed / vc * vc == state.speed;
      }
    }
  }

  /** Gravity plus drag plus thrust, in the order rocket_update adds them. */
  function NetForce(s: RocketState, config: RocketConfig, command: Option<NativeCommand>,
                    sqrt: real -> real, exp: real -> real): Vector3
  {
    Add(Add(Gravity(s.position, sqrt), Drag(s, config, sqrt, exp)),
        Scale(Up, ThrustMagnitude(config, command)))
  }

  /** The acceleration rocket_update derives from the forces: zero for a
      non-positive mass. */
  function Acceleration(s: RocketState, config: RocketConfig, command: Option<NativeCommand>,
                        sqrt: real -> real, exp: real -> real): (a: Vector3)
    ensures s.massCurrent <= 0.0 ==> a == Zero
  {
    var force := NetForce(s, config, command, sqrt, exp);
    if s.massCurrent > 0.0 then Scale(force, 1.0 / s.massCurrent) else Zero
  }

  /** Newton's second law: mass times the acceleration is the net force. */
  lemma NewtonSecondLaw(s: RocketState, config: RocketConfig, command: Option<NativeCommand>,
                        sqrt: real -> real, exp: real -> real)
    requires s.massCurrent > 0.0
    ensures Scale(Acceleration(s, config, command, sqrt, exp), s.massCurrent) == NetForce(s, config, command, sqrt, exp)
  {
    ScaleUndone(NetForce(s, config, command, sqrt, exp), s.massCurrent);
  }

  /** Dividing by m and multiplying by m gives the vector back. */
  lemma ScaleUndone(f: Vector3, m: real)
    requires m != 0.0
    ensures Scale(Scale(f, 1.0 / m), m) == f
  {
    assert f.x * (1.0 / m) * m == f.x;
    assert f.y * (1.0 / m) * m == f.y;
    assert f.z * (1.0 / m) * m == f.z;
  }

  function ClampFuel(f: real): (r: real)
    ensures r >= 0.0 && (r == f || r == 0.0)
    ensures f >= 0.0 ==> r == f
  {
    if f < 0.0 then 0.0 else f
  }

  /** rocket_update as a function of the state before the step. */
  function Step(s: RocketState, config: RocketConfig, command: Option<NativeCommand>, dt: real,
                sqrt: real -> real, exp: real -> real): (r: RocketState)
    ensures Terminal(s) ==> r == s
    ensures !Terminal(s) ==> r.fuelRemaining >= 0.0 && r.massCurrent == config.massEmpty + r.fuelRemaining
  {
    if s.landed || s.crashed then s
    else Settle(Moved(s, config, command, dt, sqrt, exp), dt, sqrt)
  }

  /** What one rocket_update does, stated on its result r. */
  lemma StepOutcome(s: RocketState, config: RocketConfig, command: Option<NativeCommand>, dt: real,
                    sqrt: real -> real, exp: real -> real, r: RocketState)
    requires r == Step(s, config, command, dt, sqrt, exp)
    // Landed and crashed are trap states.
    ensures Terminal(s) ==> r == s
    // Fuel is clamped at zero and the mass follows the fuel.
    ensures !Terminal(s) ==>
      && r.fuelRemaining == ClampFuel(s.fuelRemaining - FuelConsumption(config, command, dt))
      && r.fuelRemaining >= 0.0
      && r.massCurrent == config.massEmpty + r.fuelRemaining
      && r.altitude == Magnitude(r.position, sqrt) - EarthRadius
      && r.speed == Magnitude(Add(s.velocity, Scale(Acceleration(s, config, command, sqrt, exp), dt)), sqrt)
    // Semi-implicit Euler: the position moves with the new velocity.
    ensures !Terminal(s) ==>
      r.position == Add(s.position, Scale(Add(s.velocity, Scale(Acceleration(s, config, command, sqrt, exp), dt)), dt))
    // Touching the ground: landed iff slower than 5 m/s, otherwise crashed;
    // velocity and acceleration zeroed; time and in_orbit untouched.
    ensures !Terminal(s) && OnGround(r, sqrt) ==>
      && r.landed == (r.speed < LandingSpeed)
      && r.crashed == !(r.speed < LandingSpeed)
      && r.velocity == Zero && r.acceleration == Zero
      && r.time == s.time && r.inOrbit == s.inOrbit
    // In flight: time advances by exactly dt and the orbit flag is recomputed.
    ensures !Terminal(s) && !OnGround(r, sqrt) ==>
      && !r.landed && !r.crashed
      && r.time == s.time + dt
      && r.inOrbit == OrbitalStability(r, sqrt)
      && r.acceleration == Acceleration(s, config, command, sqrt, exp)
      && r.position == Add(s.position, Scale(r.velocity, dt))
      && r.velocity == Add(s.velocity, Scale(r.acceleration, dt))
  {
  }

  /** The state after integration and refuelling bookkeeping, before the
      ground test. */
  function Moved(s: RocketState, config: RocketConfig, command: Option<NativeCommand>, dt: real,
                 sqrt: real -> real, exp: real -> real): RocketState
  {
    var acc := Acceleration(s, config, command, sqrt, exp);
    var vel := Add(s.velocity, Scale(acc, dt));
    var pos := Add(s.position, Scale(vel, dt));
    var fuel := ClampFuel(s.fuelRemaining - FuelConsumption(config, command, dt));
    s.(acceleration := acc, velocity := vel, speed := Magnitude(vel, sqrt), position := pos,
       fuelRemaining := fuel, massCurrent := config.massEmpty + fuel,
       altitude := Magnitude(pos, sqrt) - EarthRadius)
  }

  /** The ground test and its outcome, or the orbit flag and the clock. */
  function Settle(moved: RocketState, dt: real, sqrt: real -> real): RocketState {
    if OnGround(moved, sqrt) then
      moved.(landed := moved.speed < LandingSpeed, crashed := !(moved.speed < LandingSpeed),
             velocity := Zero, acceleration := Zero)
    else
      moved.(inOrbit := OrbitalStability(moved, sqrt), time := moved.time + dt)
  }

  /** A run of steps, one command per step. */
  function Steps(s: RocketState, config: RocketConfig, commands: seq<Option<NativeCommand>>, dt: real,
                 sqrt: real -> real, exp: real -> real): RocketState
    decreases |commands|
  {
    if commands == [] then s
    else Steps(Step(s, config, commands[0], dt, sqrt, exp), config, commands[1..], dt, sqrt, exp)
  }

  /** Once landed or crashed, any number of further steps leaves the state unchanged. */
  lemma {:induction false} TerminalIsTrap(s: RocketState, config: RocketConfig,
                                          commands: seq<Option<NativeCommand>>, dt: real,
                                          sqrt: real -> real, exp: real -> real)
    requires Terminal(s)
    ensures Steps(s, config, commands, dt, sqrt, exp) == s
    decreases |commands|
  {
    if commands != [] {
      TerminalIsTrap(s, config, commands[1..], dt, sqrt, exp);
    }
  }

  /** Fuel never goes below zero over a run of steps. */
  lemma {:induction false} FuelNeverNegative(s: RocketState, config: RocketConfig,
                                             commands: seq<Option<NativeCommand>>, dt: real,
                                             sqrt: real -> real, exp: real -> real)
    requires s.fuelRemaining >= 0.0
    ensures Steps(s, config, commands, dt, sqrt, exp).fuelRemaining >= 0.0
    decreases |commands|
  {
    if commands != [] {
      FuelNeverNegative(Step(s, config, commands[0], dt, sqrt, exp), config, commands[1..], dt, sqrt, exp);
    }
  }

  predicate NonNegativeThrottles(command: Option<NativeCommand>) {
    command.Some? && command.value.engineThrottle.Some? ==>
      forall i :: 0 <= i < |command.value.engineThrottle.value| ==> command.value.engineThrottle.value[i] >= 0.0
  }

  lemma {:induction false} ThrustSumNonNegative(engines: seq<Engine>, throttle: seq<real>, n: nat)
    requires n <= |engines| && n <= |throttle|
    requires forall i :: 0 <= i < |engines| ==> engines[i].thrust >= 0.0
    requires forall i :: 0 <= i < |throttle| ==> throttle[i] >= 0.0
    ensures ThrustSum(engines, throttle, n) >= 0.0
  {
    if n > 0 {
      ThrustSumNonNegative(engines, throttle, n - 1);
      var f, t := engines[n - 1].thrust, throttle[n - 1];
      assert f * t >= 0.0;
    }
  }

  /** With non-negative thrusts and throttles the thrust is never negative. */
  lemma ThrustNonNegative(config: RocketConfig, command: Option<NativeCommand>)
    requires NonNegativeThrottles(command)
    requires forall i :: 0 <= i < |config.engines| ==> config.engines[i].thrust >= 0.0
    ensures ThrustMagnitude(config, command) >= 0.0
  {
    if command.Some? && command.value.engineThrottle.Some? {
      var t := command.value.engineThrottle.value;
      ThrustSumNonNegative(config.engines, t, EngineRange(config, t));
    }
  }

  lemma {:induction false} FuelSumNonNegative(engines: seq<Engine>, throttle: seq<real>, dt: real, n: nat)
    requires n <= |engines| && n <= |throttle| && dt >= 0.0
    requires forall i :: 0 <= i < |engines| ==> engines[i].fuelConsumption >= 0.0
    requires forall i :: 0 <= i < |throttle| ==> throttle[i] >= 0.0
    ensures FuelSum(engines, throttle, dt, n) >= 0.0
  {
    if n > 0 {
      FuelSumNonNegative(engines, throttle, dt, n - 1);
      var c, t := engines[n - 1].fuelConsumption, throttle[n - 1];
      assert c * t >= 0.0;
      assert c * t * dt >= 0.0;
    }
  }

  /** With non-negative consumption rates, throttles and time step, one step
      never adds fuel. */
  lemma FuelNonIncreasing(s: RocketState, config: RocketConfig, command: Option<NativeCommand>, dt: real,
                          sqrt: real -> real, exp: real -> real)
    requires s.fuelRemaining >= 0.0 && dt >= 0.0
    requires forall i :: 0 <= i < |config.engines| ==> config.engines[i].fuelConsumption >= 0.0
    requires NonNegativeThrottles(command)
    ensures Step(s, config, command, dt, sqrt, exp).fuelRemaining <= s.fuelRemaining
  {
    if command.Some? && command.value.engineThrottle.Some? {
      var t := command.value.engineThrottle.value;
      FuelSumNonNegative(config.engines, t, dt, EngineRange(config, t));
    }
  }

  /** Throttle entries beyond the configured engines are never read. */
  lemma {:induction false} ExtraThrottlesIgnored(engines: seq<Engine>, throttle: seq<real>, extra: seq<real>, n: nat)
    requires n <= |engines| && n <= |throttle|
    ensures ThrustSum(engines, throttle + extra, n) == ThrustSum(engines, throttle, n)
    ensures forall dt: real :: FuelSum(engines, throttle + extra, dt, n) == FuelSum(engines, throttle, dt, n)
  {
    if n > 0 {
      ExtraThrottlesIgnored(engines, throttle, extra, n - 1);
      assert (throttle + extra)[n - 1] == throttle[n - 1];
    }
  }

  /** Inactive engines contribute nothing, whatever their throttle. */
  lemma {:induction false} InactiveEnginesContributeNothing(engines: seq<Engine>, throttle: seq<real>, n: nat)
    requires n <= |engines| && n <= |throttle|
    requires forall i :: 0 <= i < n ==> !engines[i].isActive
    ensures ThrustSum(engines, throttle, n) == 0.0
    ensures forall dt: real :: FuelSum(engines, throttle, dt, n) == 0.0
  {
    if n > 0 {
      InactiveEnginesContributeNothing(engines, throttle, n - 1);
    }
  }

  /** Pitch, yaw and roll do not enter the thrust, which always points along +z. */
  lemma ThrustIgnoresAttitude(config: RocketConfig, throttle: Option<seq<real>>,
                              p1: real, y1: real, r1: real, p2: real, y2: real, r2: real)
    ensures ThrustMagnitude(config, Some(NativeCommand(throttle, p1, y1, r1))) ==
            ThrustMagnitude(config, Some(NativeCommand(throttle, p2, y2, r2)))
    ensures Scale(Up, ThrustMagnitude(config, Some(NativeCommand(throttle, p1, y1, r1)))).x == 0.0
    ensures Scale(Up, ThrustMagnitude(config, Some(NativeCommand(throttle, p1, y1, r1)))).y == 0.0
  {
  }

  /** The state rocket_init sets up: at rest at the given position, carrying
      the configured fuel, no flag set, clock at zero. */
  function InitialState(config: RocketConfig, initialPosition: Vector3, sqrt: real -> real): (r: RocketState)
    ensures r.position == initialPosition
    ensures r.velocity == Zero && r.acceleration == Zero && r.speed == 0.0
    ensures r.fuelRemaining == config.massFuel && r.massCurrent == config.massEmpty + config.massFuel
    ensures r.altitude == Magnitude(initialPosition, sqrt) - EarthRadius
    ensures !r.inOrbit && !r.landed && !r.crashed && r.time == 0.0
    ensures !Terminal(r)
  {
    RocketState(initialPosition, Zero, Zero, Magnitude(initialPosition, sqrt) - EarthRadius, 0.0,
                config.massEmpty + config.massFuel, config.massFuel, false, false, false, 0.0)
  }

  /** The heap-allocated RocketState that rocket_init returns and rocket_update
      changes field by field. */
  class RocketStateCell {
    var position: Vector3
    var velocity: Vector3
    var acceleration: Vector3
    var altitude: real
    var speed: real
    var massCurrent: real
    var fuelRemaining: real
    var inOrbit: bool
    var landed: bool
    var crashed: bool
    var time: real

    function Value(): RocketState
      reads this
    {
      RocketState(position, velocity, acceleration, altitude, speed, massCurrent, fuelRemaining,
                  inOrbit, landed, crashed, time)
    }

    /** rocket_init. */
    constructor Init(config: RocketConfig, initialPosition: Vector3, sqrt: real -> real)
      ensures Value() == InitialState(config, initialPosition, sqrt)
    {
      position := initialPosition;
      velocity := Zero;
      acceleration := Zero;
      massCurrent := config.massEmpty + config.massFuel;
      fuelRemaining := config.massFuel;
      altitude := Magnitude(initialPosition, sqrt) - EarthRadius;
      speed := 0.0;
      inOrbit := false;
      landed := false;
      crashed := false;
      time := 0.0;
    }

    /** rocket_update. */
    method Update(config: RocketConfig, command: Option<NativeCommand>, dt: real,
                  sqrt: real -> real, exp: real -> real)
      modifies this
      ensures Value() == Step(old(Value()), config, command, dt, sqrt, exp)
    {
      if landed || crashed {
        return;
      }
      Integrate(config, command, dt, sqrt, exp);
      ghost var moved := Value();

      if OnGround(Value(), sqrt) {
        if speed < LandingSpeed {
          landed := true;
        } else {
          crashed := true;
        }
        velocity := Zero;
        acceleration := Zero;
        assert Value() == Settle(moved, dt, sqrt);
        return;
      }

      inOrbit := OrbitalStability(Value(), sqrt);
      time := time + dt;
      assert Value() == Settle(moved, dt, sqrt);
    }

    /** The part of rocket_update before the ground test: forces, acceleration,
        velocity, speed, position, fuel, mass and altitude, in that order. */
    method Integrate(config: RocketConfig, command: Option<NativeCommand>, dt: real,
                     sqrt: real -> real, exp: real -> real)
      modifies this
      ensures Value() == Moved(old(Value()), config, command, dt, sqrt, exp)
    {
      var acc := NetAcceleration(config, command, sqrt, exp);
      Accelerate(acc, dt, sqrt);
      Burn(config, command, dt, sqrt);
    }

    /** The acceleration is stored, then velocity and speed are updated, then
        the position with the new velocity. */
    method Accelerate(acc: Vector3, dt: real, sqrt: real -> real)
      modifies this
      ensures acceleration == acc
      ensures velocity == Add(old(velocity), Scale(acc, dt))
      ensures speed == Magnitude(velocity, sqrt)
      ensures position == Add(old(position), Scale(velocity, dt))
      ensures altitude == old(altitude) && massCurrent == old(massCurrent)
      ensures fuelRemaining == old(fuelRemaining) && time == old(time)
      ensures inOrbit == old(inOrbit) && landed == old(landed) && crashed == old(crashed)
    {
      acceleration := acc;
      velocity := Add(velocity, Scale(acc, dt));
      speed := Magnitude(velocity, sqrt);
      position := Add(position, Scale(velocity, dt));
    }

    /** Gravity, drag and thrust summed and divided by the current mass; zero
        for a non-positive mass. */
    method NetAcceleration(config: RocketConfig, command: Option<NativeCommand>,
                           sqrt: real -> real, exp: real -> real) returns (acc: Vector3)
      ensures acc == Acceleration(Value(), config, command, sqrt, exp)
      ensures massCurrent <= 0.0 ==> acc == Zero
    {
      var gravityForce := Gravity(position, sqrt);
      var dragForce := Drag(Value(), config, sqrt, exp);
      var thrustForce := CalculateThrust(config, command);

      var totalForce := Add(gravityForce, dragForce);
      totalForce := Add(totalForce, thrustForce);

      if massCurrent > 0.0 {
        acc := Scale(totalForce, 1.0 / massCurrent);
      } else {
        acc := Zero;
      }
    }

    /** Fuel burnt and clamped at zero, the mass that follows it, and the
        altitude of the new position. */
    method Burn(config: RocketConfig, command: Option<NativeCommand>, dt: real, sqrt: real -> real)
      modifies this
      ensures fuelRemaining == ClampFuel(old(fuelRemaining) - FuelConsumption(config, command, dt))
      ensures massCurrent == config.massEmpty + fuelRemaining
      ensures altitude == Magnitude(position, sqrt) - EarthRadius
      ensures position == old(position) && velocity == old(velocity)
      ensures acceleration == old(acceleration) && speed == old(speed) && time == old(time)
      ensures inOrbit == old(inOrbit) && landed == old(landed) && crashed == old(crashed)
    {
      var fuelConsumed := CalculateFuelConsumption(config, command, dt);
      fuelRemaining := fuelRemaining - fuelConsumed;
      if fuelRemaining < 0.0 {
        fuelRemaining := 0.0;
      }

      massCurrent := config.massEmpty + fuelRemaining;

      var distance := Magnitude(position, sqrt);
      altitude := distance - EarthRadius;
    }
  }
}
