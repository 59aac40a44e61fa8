/** The records that travel between the vehicle client, the server and the
    viewer (Client/protocol/protocol.go, Graphic/include/network/protocol.hpp),
    taken as already-decoded values. The physics engine's C structs carry the
    same fields, so the flight model uses them too. */
module Wire {
  import opened Vectors

  datatype Option<T> = None | Some(value: T)

  datatype Engine = Engine(thrust: real, fuelConsumption: real, isActive: bool)

  /** RocketConfig; `fuelType` is a free string on the wire ("kerosene",
      "liquid_h2", "solid" are the named values). */
  datatype RocketConfig = RocketConfig(
    name: string,
    massEmpty: real,
    massFuel: real,
    massFuelMax: real,
    fuelType: string,
    engines: seq<Engine>,
    dragCoefficient: real,
    crossSection: real)

  /** RocketState as the physics engine fills it in. */
  datatype RocketState = RocketState(
    position: Vector3,
    velocity: Vector3,
    acceleration: Vector3,
    altitude: real,
    speed: real,
    massCurrent: real,
    fuelRemaining: real,
    inOrbit: bool,
    landed: bool,
    crashed: bool,
    time: real)

  /** ControlCommand: one throttle per engine, and the attitude angles. */
  datatype ControlCommand = ControlCommand(engineThrottle: seq<real>, pitch: real, yaw: real, roll: real)

  /** The zero value of RocketState: what a Go struct literal that leaves the
      field out, or a default-constructed C++ struct, holds. */
  const ZeroState := RocketState(Zero, Zero, Zero, 0.0, 0.0, 0.0, 0.0, false, false, false, 0.0)

  /** The zero value of RocketConfig. */
  const ZeroConfig := RocketConfig("", 0.0, 0.0, 0.0, "", [], 0.0, 0.0)

  /** A state is terminal once it has landed or crashed. */
  predicate Terminal(s: RocketState) {
    s.landed || s.crashed
  }
}
