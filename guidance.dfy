/** The vehicle client's wrapper around the physics engine
    (Client/physics/physics_wrapper.go): planet and gravity-turn settings, the
    pitch program and the orbit prediction. `sqrt` and `sin` are parameters. */
module Guidance {
  import opened Vectors
  import opened Wire
  import Flight

  /** math.Pi as a float64. */
  const Pi := 3.141592653589793
  /** The gravitational constant PredictOrbit multiplies the planet's mass by. */
  const GConstant := 6.674e-11

  datatype PlanetConfig = PlanetConfig(radius: real, mass: real, atmosphereHeight: real,
                                       surfacePressure: real, scaleHeight: real)

  datatype GravityTurnConfig = GravityTurnConfig(targetAltitude: real, turnStartAlt: real,
                                                 turnEndAlt: real, autoPitch: bool)

  datatype OrbitPrediction = OrbitPrediction(apoapsis: real, periapsis: real, eccentricity: real,
                                             orbitalVelocity: real, requiredVelocity: real,
                                             isStable: bool)

  const ZeroPlanet := PlanetConfig(0.0, 0.0, 0.0, 0.0, 0.0)
  const ZeroGravityTurn := GravityTurnConfig(0.0, 0.0, 0.0, false)
  const ZeroPrediction := OrbitPrediction(0.0, 0.0, 0.0, 0.0, 0.0, false)

  /** EarthDefault: the same radius, mass and atmosphere height as the
      physics engine's built-in constants. */
  function EarthDefault(): (p: PlanetConfig)
    ensures p.radius == Flight.EarthRadius && p.mass == Flight.EarthMass
    ensures p.atmosphereHeight == Flight.AtmosphereHeight
    ensures p.surfacePressure == 1.0 && p.scaleHeight == 8500.0
  {
    PlanetConfig(6371000.0, 5.972e24, 100000.0, 1.0, 8500.0)
  }

  /** GravityTurnForOrbit: the turn starts at 1% of the target altitude but
      not below 1 km, and ends at 70% of it but not below half the atmosphere. */
  function GravityTurnForOrbit(planet: PlanetConfig, targetOrbitAltitude: real): (gt: GravityTurnConfig)
    ensures gt.autoPitch && gt.targetAltitude == targetOrbitAltitude
    ensures gt.turnStartAlt >= targetOrbitAltitude * 0.01 && gt.turnStartAlt >= 1000.0
    ensures gt.turnStartAlt == targetOrbitAltitude * 0.01 || gt.turnStartAlt == 1000.0
    ensures gt.turnEndAlt >= targetOrbitAltitude * 0.7 && gt.turnEndAlt >= planet.atmosphereHeight * 0.5
    ensures gt.turnEndAlt == targetOrbitAltitude * 0.7 || gt.turnEndAlt == planet.atmosphereHeight * 0.5
  {
    var start := if targetOrbitAltitude * 0.01 < 1000.0 then 1000.0 else targetOrbitAltitude * 0.01;
    var end := if targetOrbitAltitude * 0.7 < planet.atmosphereHeight * 0.5
               then planet.atmosphereHeight * 0.5 else targetOrbitAltitude * 0.7;
    GravityTurnConfig(targetOrbitAltitude, start, end, true)
  }

  /** For a positive target and an atmosphere thicker than 2 km (the Earth's
      is 100 km) the turn window is non-empty, so the pitch program's division
      is by a positive number. */
  lemma TurnWindowNonEmpty(planet: PlanetConfig, targetOrbitAltitude: real)
    requires targetOrbitAltitude > 0.0 && planet.atmosphereHeight > 2000.0
    ensures GravityTurnForOrbit(planet, targetOrbitAltitude).turnStartAlt <
            GravityTurnForOrbit(planet, targetOrbitAltitude).turnEndAlt
  {
    var gt := GravityTurnForOrbit(planet, targetOrbitAltitude);
    if gt.turnStartAlt == 1000.0 {
      assert gt.turnEndAlt >= planet.atmosphereHeight * 0.5 > 1000.0;
    } else {
      assert gt.turnStartAlt == targetOrbitAltitude * 0.01;
      assert gt.turnEndAlt >= targetOrbitAltitude * 0.7 > targetOrbitAltitude * 0.01;
    }
  }

  /** The C ControlCommand that Update builds: an empty throttle slice is
      passed as a NULL array. */
  function ToNative(command: ControlCommand): (r: Flight.NativeCommand)
    ensures r.engineThrottle.None? <==> |command.engineThrottle| == 0
    ensures r.engineThrottle.Some? ==> r.engineThrottle.value == command.engineThrottle
    ensures r.pitch == command.pitch && r.yaw == command.yaw && r.roll == command.roll
  {
    Flight.NativeCommand(if |command.engineThrottle| > 0 then Some(command.engineThrottle) else None,
                         command.pitch, command.yaw, command.roll)
  }

  /** Passing NULL for an empty slice changes nothing: the engine sees exactly
      the slice's throttles. */
  lemma NullForEmptyIsUnobservable(config: RocketConfig, command: ControlCommand, dt: real)
    ensures Flight.ThrustMagnitude(config, Some(ToNative(command))) ==
            Flight.ThrustSum(config.engines, command.engineThrottle,
                             Flight.EngineRange(config, command.engineThrottle))
    ensures Flight.FuelConsumption(config, Some(ToNative(command)), dt) ==
            Flight.FuelSum(config.engines, command.engineThrottle, dt,
                           Flight.EngineRange(config, command.engineThrottle))
  {
  }

  /** RocketPhysics: one engine state, its configuration, and the guidance
      settings. */
  class RocketPhysics {
    var state: Flight.RocketStateCell
    var config: RocketConfig
    var planet: PlanetConfig
    var gtConfig: GravityTurnConfig

    /** NewRocketPhysics: the engine state is rocket_init's; planet and gravity
        turn are left at their zero values. */
    constructor (config: RocketConfig, initialPos: Vector3, sqrt: real -> real)
      ensures fresh(state)
      ensures state.Value() == Flight.InitialState(config, initialPos, sqrt)
      ensures this.config == config
      ensures planet == ZeroPlanet && gtConfig == ZeroGravityTurn
    {
      state := new Flight.RocketStateCell.Init(config, initialPos, sqrt);
      this.config := config;
      planet := ZeroPlanet;
      gtConfig := ZeroGravityTurn;
    }

    /** GetState: a copy of the engine state, field by field. */
    function GetState(): (r: RocketState)
      reads this, state
      ensures r.position == state.position && r.velocity == state.velocity
      ensures r.acceleration == state.acceleration
      ensures r.altitude == state.altitude && r.speed == state.speed
      ensures r.massCurrent == state.massCurrent && r.fuelRemaining == state.fuelRemaining
      ensures r.inOrbit == state.inOrbit && r.landed == state.landed && r.crashed == state.crashed
      ensures r.time == state.time
    {
      state.Value()
    }

    /** Update: one engine step with the converted command. */
    method Update(command: ControlCommand, deltaTime: real, sqrt: real -> real, exp: real -> real)
      modifies state
      ensures GetState() == Flight.Step(old(GetState()), config, Some(ToNative(command)), deltaTime, sqrt, exp)
    {
      var native := ToNative(command);
      state.Update(config, Some(native), deltaTime, sqrt, exp);
    }

    method SetPlanet(planet: PlanetConfig)
      modifies this
      ensures this.planet == planet
      ensures state == old(state) && config == old(config) && gtConfig == old(gtConfig)
    {
      this.planet := planet;
    }

    method SetGravityTurn(gt: GravityTurnConfig)
      modifies this
      ensures gtConfig == gt
      ensures state == old(state) && config == old(config) && planet == old(planet)
    {
      gtConfig := gt;
    }

    /** CalculateOptimalPitch: 0 before the turn (or with the pitch program
        off), 90 after it, and 90·sin(progress·π/2) in between. */
    method CalculateOptimalPitch(sin: real -> real) returns (pitch: real)
      ensures !gtConfig.autoPitch ==> pitch == 0.0
      ensures gtConfig.autoPitch && state.altitude < gtConfig.turnStartAlt ==> pitch == 0.0
      ensures (gtConfig.autoPitch && gtConfig.turnStartAlt <= state.altitude && gtConfig.turnEndAlt <= state.altitude) ==>
              pitch == 90.0
      ensures gtConfig.autoPitch && gtConfig.turnStartAlt <= state.altitude < gtConfig.turnEndAlt ==>
              pitch == sin(TurnProgress(state.altitude, gtConfig.turnStartAlt, gtConfig.turnEndAlt) * Pi / 2.0) * 90.0
      // With a sine that lies in [0, 1) on [0, π/2), the pitch lies in [0, 90],
      // and below 90 until the end of the turn.
      ensures SineBounded(sin) ==> 0.0 <= pitch <= 90.0
      ensures (SineBounded(sin) && gtConfig.autoPitch && state.altitude < gtConfig.turnEndAlt) ==> pitch < 90.0
    {
      if !gtConfig.autoPitch {
        return 0.0;
      }
      var alt := state.altitude;
      var start := gtConfig.turnStartAlt;
      var end := gtConfig.turnEndAlt;
      if alt < start {
        return 0.0;
      }
      if alt >= end {
        return 90.0;
      }
      var progress := (alt - start) / (end - start);
      assert progress == TurnProgress(alt, start, end);
      var smoothProgress := sin(progress * Pi / 2.0);
      pitch := smoothProgress * 90.0;
      if SineBounded(sin) {
        ScaleBelowOne(progress, Pi / 2.0);
        assert 0.0 <= smoothProgress < 1.0;
      }
    }

    /** PredictOrbit on the current engine state. */
    function PredictOrbit(sqrt: real -> real): (pred: OrbitPrediction)
      reads this, state
      requires planet.mass > 0.0
      requires Magnitude(state.position, sqrt) > 0.0
      requires planet.radius + state.altitude != 0.0
      ensures pred.eccentricity == Eccentricity(GetState(), planet, sqrt)
      ensures !BoundOrbit(GetState(), planet, sqrt) ==> pred.apoapsis == -1.0 && pred.periapsis == state.altitude
      ensures BoundOrbit(GetState(), planet, sqrt) ==>
        && pred.apoapsis + planet.radius == SemiMajorAxis(GetState(), planet, sqrt).value * (1.0 + pred.eccentricity)
        && pred.periapsis + planet.radius == SemiMajorAxis(GetState(), planet, sqrt).value * (1.0 - pred.eccentricity)
      ensures pred.isStable <==> pred.periapsis > planet.atmosphereHeight && pred.eccentricity < 1.0
    {
      Prediction(GetState(), planet, sqrt)
    }
  }

  /** How far through the turn window an altitude is. */
  function TurnProgress(alt: real, start: real, end: real): (progress: real)
    requires start <= alt < end
    ensures 0.0 <= progress < 1.0
  {
    QuotientBelowOne(alt - start, end - start);
    (alt - start) / (end - start)
  }

  lemma QuotientBelowOne(n: real, d: real)
    requires 0.0 <= n < d
    ensures 0.0 <= n / d < 1.0
  {
    assert (n / d) * d == n;
  }

  /** The abstract sine lies in [0, 1) on [0, π/2). */
  ghost predicate SineBounded(sin: real -> real) {
    forall x: real :: 0.0 <= x < Pi / 2.0 ==> 0.0 <= sin(x) < 1.0
  }

  function Abs(x: real): real {
    if x < 0.0 then -x else x
  }

  lemma ScaleBelowOne(p: real, k: real)
    requires 0.0 <= p < 1.0 && k > 0.0
    ensures 0.0 <= p * k < k
  {
  }

  /** gravitational parameter μ = G·M. */
  function Mu(planet: PlanetConfig): real {
    GConstant * planet.mass
  }

  /** Specific orbital energy v²/2 − μ/r. */
  function SpecificEnergy(s: RocketState, planet: PlanetConfig, sqrt: real -> real): real
    requires Magnitude(s.position, sqrt) > 0.0
  {
    s.speed * s.speed / 2.0 - Mu(planet) / Magnitude(s.position, sqrt)
  }

  /** The semi-major axis; None when the energy is within 1e-10 of zero, where
      the source takes it to be +Inf. */
  function SemiMajorAxis(s: RocketState, planet: PlanetConfig, sqrt: real -> real): Option<real>
    requires Magnitude(s.position, sqrt) > 0.0
  {
    var e := SpecificEnergy(s, planet, sqrt);
    if Abs(e) < 1e-10 then None else Some(-Mu(planet) / (2.0 * e))
  }

  /** The magnitude of the specific angular momentum r × v. */
  function AngularMomentum(s: RocketState, sqrt: real -> real): real {
    Magnitude(Cross(s.position, s.velocity), sqrt)
  }

  /** The eccentricity PredictOrbit computes: exactly 1 for a (near-)parabolic
      energy, otherwise the root of 1 − h²/(μa) clamped at zero. */
  function Eccentricity(s: RocketState, planet: PlanetConfig, sqrt: real -> real): (e: real)
    requires planet.mass > 0.0
    requires Magnitude(s.position, sqrt) > 0.0
    ensures SemiMajorAxis(s, planet, sqrt).None? ==> e == 1.0
    ensures SemiMajorAxis(s, planet, sqrt).Some? ==>
      exists eSq: real {:trigger sqrt(eSq)} :: eSq >= 0.0 && e == sqrt(eSq)
  {
    var a := SemiMajorAxis(s, planet, sqrt);
    if a.None? then 1.0
    else
      var h := AngularMomentum(s, sqrt);
      var eSq := 1.0 - (h * h) / (Mu(planet) * a.value);
      var clamped := if eSq < 0.0 then 0.0 else eSq;
      sqrt(clamped)
  }

  /** Whether PredictOrbit treats the orbit as a bound ellipse. */
  predicate BoundOrbit(s: RocketState, planet: PlanetConfig, sqrt: real -> real)
    requires planet.mass > 0.0
    requires Magnitude(s.position, sqrt) > 0.0
  {
    Eccentricity(s, planet, sqrt) < 1.0 && SemiMajorAxis(s, planet, sqrt).Some? &&
    SemiMajorAxis(s, planet, sqrt).value > 0.0
  }

  /** The orbit PredictOrbit reports for a state. */
  function Prediction(s: RocketState, planet: PlanetConfig, sqrt: real -> real): (pred: OrbitPrediction)
    requires planet.mass > 0.0
    requires Magnitude(s.position, sqrt) > 0.0
    requires planet.radius + s.altitude != 0.0
    ensures pred.eccentricity == Eccentricity(s, planet, sqrt)
    // Unless the orbit is a bound ellipse, apoapsis is the sentinel -1 and
    // periapsis the current altitude.
    ensures !BoundOrbit(s, planet, sqrt) ==> pred.apoapsis == -1.0 && pred.periapsis == s.altitude
    // For a bound ellipse the apsides lie a(1 ± e) from the centre.
    ensures BoundOrbit(s, planet, sqrt) ==>
      && pred.apoapsis + planet.radius == SemiMajorAxis(s, planet, sqrt).value * (1.0 + pred.eccentricity)
      && pred.periapsis + planet.radius == SemiMajorAxis(s, planet, sqrt).value * (1.0 - pred.eccentricity)
    ensures pred.isStable <==> pred.periapsis > planet.atmosphereHeight && pred.eccentricity < 1.0
    ensures pred.orbitalVelocity == s.speed
    ensures pred.requiredVelocity == sqrt(Mu(planet) / (planet.radius + s.altitude))
  {
    var ecc := Eccentricity(s, planet, sqrt);
    var bound := BoundOrbit(s, planet, sqrt);
    var apo := if bound then SemiMajorAxis(s, planet, sqrt).value * (1.0 + ecc) - planet.radius else -1.0;
    var peri := if bound then SemiMajorAxis(s, planet, sqrt).value * (1.0 - ecc) - planet.radius else s.altitude;
    OrbitPrediction(apo, peri, ecc, s.speed, sqrt(Mu(planet) / (planet.radius + s.altitude)),
                    peri > planet.atmosphereHeight && ecc < 1.0)
  }

  /** With a square root that never returns a negative number, a bound
      ellipse has its apoapsis at or above its periapsis, and an orbit that is
      reported stable keeps its periapsis above the atmosphere. */
  lemma ApsidesOrdered(s: RocketState, planet: PlanetConfig, sqrt: real -> real)
    requires planet.mass > 0.0
    requires Magnitude(s.position, sqrt) > 0.0
    requires planet.radius + s.altitude != 0.0
    requires forall x: real :: sqrt(x) >= 0.0
    requires BoundOrbit(s, planet, sqrt)
    ensures Prediction(s, planet, sqrt).apoapsis >= Prediction(s, planet, sqrt).periapsis
  {
    var a := SemiMajorAxis(s, planet, sqrt).value;
    var e := Eccentricity(s, planet, sqrt);
    assert e >= 0.0;
    assert a * (1.0 + e) - a * (1.0 - e) == 2.0 * a * e;
    assert 2.0 * a * e >= 0.0;
  }
}
