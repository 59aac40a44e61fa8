# Rocket launch system — a Dafny model of its decision logic

The system has four parts:

- **An engine.** A C physics engine integrates a vehicle's flight one fixed step at a time.
- **A vehicle client** in Go. It registers with a server, flies the engine with a staged pitch program, cuts the throttles once the fuel is gone, and streams telemetry.
- **A coordination server** in Go. It keeps registries of vehicles and observers, relays registrations and telemetry to every observer, and replays the registry to a new observer. It also warns pairs of vehicles that come closer than a safe distance, and keeps a bounded log.
- **A viewer** in C++. It decodes the message envelope, keeps a table of vehicles each with a bounded, spaced trajectory, tracks one vehicle, and keeps a bounded on-screen log.

This project models the sequential bookkeeping and the decisions of those parts, and proves what each operation promises.

- **Numbers.** Doubles are `real`.
- **Square root, exponential and sine** are function parameters (`sqrt`, `exp`, `sin`). Only the branches around them are modelled.
- **Sending.** On the server, a send appends a `(connection, message)` record to a ghost `outbox`. On the client, it appends to a ghost `sent` record.
- **Map iteration.** Ranging over a map is written as an enumeration of its keys (`Collections.Enumerate`). That enumeration is returned, so "who got which message in what order" is stated exactly.
- **Concurrency.** Every handler runs as one atomic step.

Modules, one per source file, in dependency order:

| module | models |
|---|---|
| `Collections` | The newest-n window of a bounded log, and listing a set in an unspecified order. |
| `Vectors` | The engine's vector operations. |
| `Wire` | The records that travel between the parts. |
| `Validation` | Message-type constants and the registration validator (`Client/protocol/protocol.go`). |
| `Flight` | `rocket_init`, thrust, fuel, ground and orbit tests, and `rocket_update`; the C state is a class updated field by field (`Physics/rocket_physics.c`). |
| `Guidance` | The client's wrapper around the engine: planet and gravity-turn settings, the pitch program, the orbit prediction (`Client/physics/physics_wrapper.go`). |
| `ClientControl` | The vehicle client (`Client/main.go`). |
| `ServerLog` | The server's bounded log (`Server/main.go`). |
| `Coordination` | The server's registry, handlers, replay, dispatch and collision pass (`Server/main.go`). |
| `ViewerProtocol` | The viewer's message-type codec and envelope decoder (`Graphic/src/network/protocol.cpp`). |
| `ViewerRocket` | One tracked vehicle and its trajectory (`Graphic/src/data/rocket_data.cpp`). |
| `ViewerState` | The viewer's vehicle table and tracked id (`Graphic/src/data/simulation_state.cpp`). |
| `ViewerUi` | The side panel's decisions and its bounded log (`Graphic/src/ui/ui_manager.cpp`). |

## Model

| member | source | states |
|---|---|---|
| Collections.Last | Server/main.go:45-48 | The window keeps the newest n elements in their original order, and all of them when there are fewer. |
| Collections.LastSlide | Server/main.go:45-48 | Appending to a window of at most n elements drops its oldest element exactly when it is full, and the result is the newest n of the longer sequence. |
| Collections.LastOfAppend | Graphic/src/ui/ui_manager.cpp:281-292 | Appending to the newest-n window, then trimming, gives the newest-n window of the longer history. |
| Collections.EnumerationSize | Server/main.go:352-365 | An enumeration of a key set has exactly as many elements as the set. |
| Collections.Enumerate | Server/main.go:355-357 | Ranging over a map visits every key exactly once, in some order. |
| Vectors.Add | Physics/rocket_physics.c:6-9 | Taking b away again from a + b, component by component, leaves a. |
| Vectors.Sub | Physics/rocket_physics.c:11-14 | Adding b back to a − b, component by component, gives a. |
| Vectors.Scale | Physics/rocket_physics.c:16-19 | Scaling by 1 leaves the vector as it is; scaling by 0, or scaling the zero vector, gives the zero vector. |
| Vectors.Magnitude | Physics/rocket_physics.c:21-23 | The magnitude of the zero vector is the root of 0. |
| Vectors.SubIsAddNegated | Physics/rocket_physics.c:6-14 | Subtraction is addition of the vector scaled by −1. |
| Vectors.AddSubInverse | Physics/rocket_physics.c:6-14 | Adding and then subtracting b, or the reverse, gives a back. |
| Vectors.AddCommutes | Physics/rocket_physics.c:6-9 | Vector addition commutes. |
| Vectors.ScaleDistributes | Physics/rocket_physics.c:6-19 | Scaling distributes over addition. |
| Vectors.Dot | Physics/rocket_physics.c:34-36 | The dot product with the zero vector is 0, and the dot product of a vector with itself is never negative, so vector_magnitude never takes the root of a negative number. |
| Vectors.Cross | Physics/rocket_physics.c:38-45 | The cross product of a vector with itself, or with the zero vector, is the zero vector. |
| Vectors.CrossAntiCommutative | Physics/rocket_physics.c:38-45 | a × b = −(b × a). |
| Vectors.CrossOrthogonal | Physics/rocket_physics.c:34-45 | a × b is orthogonal to both a and b. |
| Vectors.Normalize | Physics/rocket_physics.c:25-32 | The zero vector when the magnitude is below 1e-10, otherwise a positive multiple of the input. |
| Vectors.DistanceSquared | Server/main.go:426-431 | The squared distance is non-negative and zero between a point and itself. |
| Vectors.DistanceSquaredSymmetric | Server/main.go:426-431 | The squared distance does not depend on the order of the two points. |
| Validation.CheckEngines | Client/protocol/protocol.go:197-204 | No error iff every engine from i on has thrust > 0 and consumption ≥ 0. Otherwise: the lowest failing engine, field "engines", and the thrust message if its thrust fails, else the consumption message. |
| Validation.ValidateRocketConfig | Client/protocol/protocol.go:176-215 | The guarded chain, with its loop over the engines, returns exactly the verdict `Validate`. It only reads the configuration, which is a value. |
| Validation.ValidateAcceptsExactlyValid | Client/protocol/protocol.go:176-215 | The validator returns nil iff: the name is non-empty; mass_empty > 0; mass_fuel ≥ 0; mass_fuel_max ≥ mass_fuel; there is at least one engine and every engine has thrust > 0 and consumption ≥ 0; drag ≥ 0; cross-section > 0. |
| Validation.ValidateReportsFirstFailure | Client/protocol/protocol.go:177-212 | A rejection names check k in the order name, mass_empty, mass_fuel, mass_fuel_max, engines, drag_coefficient, cross_section. Check k fails and every earlier check holds. On acceptance every check holds. |
| Validation.EngineErrorIsLowestIndex | Client/protocol/protocol.go:197-204 | An engine error's index is the lowest failing engine. Within that engine the thrust check fires before the consumption check. |
| Validation.EnginesBeforeDrag | Client/protocol/protocol.go:193-212 | A configuration whose engine list is empty or holds a bad engine reports "engines", whatever its drag and cross-section are. |
| Validation.Validate | Client/protocol/protocol.go:176-215 | A rejection names one of the seven checked fields. Every error's index is ≥ 0, and only an engine error can carry a non-zero index. |
| Validation.ToInt32 | Client/protocol/protocol.go:225 | Go's `rune(int)` conversion: the result is in the 32-bit range, and an index already in range is unchanged. |
| Validation.RuneString | Client/protocol/protocol.go:225 | Go's `string(rune)`: exactly one character, which is the code point itself below U+D800. |
| Validation.ErrorText | Client/protocol/protocol.go:223-227 | The text starts with the field name and ends with the message. The character right after the field name is "[" exactly when the index is non-negative, and ":" otherwise. |
| Validation.ErrorTextAlwaysBracketed | Client/protocol/protocol.go:223-227 | Every validator error renders with the bracketed branch. The bracket holds the character whose code point is the index, not its decimal digits, so a non-engine error renders as field + "[\0]: " + message. |
| Flight.EngineRange | Physics/rocket_physics.c:126 | The engine loops run to min(config engines, command throttles). |
| Flight.ThrustMagnitude | Physics/rocket_physics.c:118-125 | A null command or a null throttle array gives zero thrust. |
| Flight.ThrustSumNonNegative | Physics/rocket_physics.c:126-131 | With non-negative thrusts and throttles, the summed thrust is non-negative. |
| Flight.ThrustNonNegative | Physics/rocket_physics.c:118-138 | With non-negative thrusts and throttles, calculate_thrust never pushes downward. |
| Flight.FuelConsumption | Physics/rocket_physics.c:140-145 | A null command or a null throttle array burns no fuel. |
| Flight.CalculateThrust | Physics/rocket_physics.c:118-138 | The loop returns (0,0,1) scaled by the sum of thrust·throttle over the active engines below the engine range, and zero for a null command or throttle array. |
| Flight.CalculateFuelConsumption | Physics/rocket_physics.c:140-155 | The loop returns the sum of consumption·throttle·dt over the active engines below the engine range, and zero for a null command or throttle array. |
| Flight.ExtraThrottlesIgnored | Physics/rocket_physics.c:126-152 | Throttle entries beyond the configured engines change neither the thrust nor the fuel use. |
| Flight.InactiveEnginesContributeNothing | Physics/rocket_physics.c:127-151 | Inactive engines add no thrust and burn no fuel, whatever their throttle. |
| Flight.ThrustIgnoresAttitude | Physics/rocket_physics.c:132-137 | Pitch, yaw and roll do not change the thrust, whose x and y components are 0. |
| Flight.Gravity | Physics/rocket_physics.c:75-88 | Gravity is zero inside the planet's radius. |
| Flight.Drag | Physics/rocket_physics.c:90-116 | Drag is zero above the atmosphere and below 1e-6 m/s. |
| Flight.OnGround | Physics/rocket_physics.c:157-160 | For a state whose altitude is its distance from the centre less the Earth's radius, the ground test holds exactly when the altitude is ≤ 0. |
| Flight.OrbitalStability | Physics/rocket_physics.c:162-176 | Never stable below the atmosphere, and never at a non-positive distance from the centre. |
| Flight.OrbitalBand | Physics/rocket_physics.c:162-176 | With a non-negative square root: stable iff the altitude is at least the atmosphere height, the distance r is positive, the circular speed v_c = sqrt(G·M/r) is positive, and 0.9·v_c ≤ speed ≤ 1.1·v_c. |
| Flight.Acceleration | Physics/rocket_physics.c:185-196 | The acceleration is zero for a non-positive mass. |
| Flight.NewtonSecondLaw | Physics/rocket_physics.c:185-196 | For a positive mass, mass × acceleration is exactly gravity + drag + thrust. |
| Flight.Step | Physics/rocket_physics.c:178-230 | A landed or crashed state is returned unchanged. Otherwise the fuel is non-negative after the step and the mass is mass_empty + fuel. |
| Flight.ClampFuel | Physics/rocket_physics.c:207-209 | The fuel clamp never returns a negative value and leaves a non-negative value unchanged. |
| Flight.StepOutcome | Physics/rocket_physics.c:178-230 | One rocket_update. A landed or crashed state is returned unchanged. Otherwise fuel = max(0, old − consumed) and mass = mass_empty + fuel. Velocity is updated first and the position uses the new velocity. On the ground the vehicle is landed iff its speed is < 5, otherwise crashed; velocity and acceleration are zeroed, and time and in_orbit stay as they were. In flight time advances by exactly dt, in_orbit is recomputed, and neither flag is set. |
| Flight.TerminalIsTrap | Physics/rocket_physics.c:181-183 | Any number of further steps leave a landed or crashed state unchanged. |
| Flight.FuelNeverNegative | Physics/rocket_physics.c:205-209 | Starting from non-negative fuel, no run of steps makes the fuel negative. |
| Flight.FuelSumNonNegative | Physics/rocket_physics.c:140-155 | With non-negative rates, throttles and dt, the fuel consumed is non-negative. |
| Flight.FuelNonIncreasing | Physics/rocket_physics.c:205-211 | Under the same conditions, one step never adds fuel. |
| Flight.InitialState | Physics/rocket_physics.c:47-67 | rocket_init's state: at the given position, with zero velocity, acceleration and speed. fuel = mass_fuel and mass = mass_empty + mass_fuel. No flag is set, time is 0, and the state is not terminal. |
| Flight.RocketStateCell.Init | Physics/rocket_physics.c:47-67 | The fields, set one by one, form `InitialState`. |
| Flight.RocketStateCell.Update | Physics/rocket_physics.c:178-230 | The field-by-field update leaves exactly the state `Step` gives for the old state. |
| Flight.RocketStateCell.Integrate | Physics/rocket_physics.c:185-214 | Forces, acceleration, velocity, speed, position, fuel, mass and altitude, assigned in source order, form the state before the ground test. |
| Flight.RocketStateCell.NetAcceleration | Physics/rocket_physics.c:185-196 | Gravity, drag and thrust are summed and divided by the current mass. The acceleration is zero when the mass is not positive, and nothing is changed. |
| Flight.RocketStateCell.Accelerate | Physics/rocket_physics.c:193-203 | The acceleration is stored, velocity gains acceleration·dt, speed is the new velocity's magnitude, and the position moves by the new velocity·dt; fuel, mass, altitude, time and flags are kept. |
| Flight.RocketStateCell.Burn | Physics/rocket_physics.c:205-214 | Fuel becomes max(0, old − consumed), mass becomes mass_empty + fuel, and altitude is the distance from the centre minus the planet radius; motion, time and flags are kept. |
| Guidance.EarthDefault | Client/physics/physics_wrapper.go:47-55 | The default planet has the same radius, mass and atmosphere height as the engine's built-in constants. |
| Guidance.GravityTurnForOrbit | Client/physics/physics_wrapper.go:57-75 | The turn starts at max(0.01·target, 1000) and ends at max(0.7·target, 0.5·atmosphere). AutoPitch is set, and the target is stored. |
| Guidance.TurnWindowNonEmpty | Client/physics/physics_wrapper.go:57-75 | For a positive target and an atmosphere thicker than 2 km, the turn starts strictly before it ends. |
| Guidance.ToNative | Client/physics/physics_wrapper.go:135-157 | An empty throttle slice becomes a null array; otherwise the throttles and the attitude pass through unchanged. |
| Guidance.NullForEmptyIsUnobservable | Client/physics/physics_wrapper.go:141-156 | Passing null for an empty slice does not change the thrust or the fuel use. |
| Guidance.RocketPhysics.GetState | Client/physics/physics_wrapper.go:159-187 | The copy has each field of the engine state: position, velocity, acceleration, altitude, speed, mass, fuel, the three flags and the time. |
| Guidance.RocketPhysics.constructor | Client/physics/physics_wrapper.go:77-133 | The engine state is rocket_init's. Planet and gravity turn are zero values, so AutoPitch is off and the pitch is 0 until SetGravityTurn is called. |
| Guidance.RocketPhysics.Update | Client/physics/physics_wrapper.go:135-157 | The state becomes one engine step with the converted command. |
| Guidance.RocketPhysics.SetPlanet | Client/physics/physics_wrapper.go:200-202 | Replaces the planet and nothing else. |
| Guidance.RocketPhysics.SetGravityTurn | Client/physics/physics_wrapper.go:204-206 | Replaces the gravity-turn settings and nothing else. |
| Guidance.RocketPhysics.CalculateOptimalPitch | Client/physics/physics_wrapper.go:208-229 | The pitch is 0 with AutoPitch off or below the turn start, and 90 at or above the turn end. In between it is 90·sin(progress·π/2). With a sine in [0,1) on [0,π/2), the pitch is in [0,90], and below 90 before the turn end. |
| Guidance.RocketPhysics.PredictOrbit | Client/physics/physics_wrapper.go:231-278 | On the current engine state: the eccentricity is `Eccentricity`. Unless the orbit is a bound ellipse, apoapsis is −1 and periapsis is the current altitude; for a bound ellipse the apsides lie a(1 ± e) from the centre. IsStable holds iff periapsis > atmosphere and e < 1. |
| Guidance.TurnProgress | Client/physics/physics_wrapper.go:225 | Inside the window the progress lies in [0,1). |
| Guidance.Eccentricity | Client/physics/physics_wrapper.go:250-263 | Exactly 1 when \|energy\| < 1e-10, otherwise the square root of a non-negative (clamped) value. |
| Guidance.Prediction | Client/physics/physics_wrapper.go:231-278 | Unless e < 1 and a > 0, apoapsis is −1 and periapsis is the current altitude. For a bound ellipse the apsides lie a(1 ± e) from the centre. IsStable holds iff periapsis > atmosphere and e < 1. OrbitalVelocity is the current speed. RequiredVelocity is sqrt(μ/(R + altitude)). |
| Guidance.ApsidesOrdered | Client/physics/physics_wrapper.go:265-268 | With a non-negative square root, a bound ellipse has apoapsis ≥ periapsis. |
| ClientControl.StagedPitch | Client/main.go:139-151 | The staged pitch lies in [0,90]. It is 0 below 500 m and 90 at or above 900 m. |
| ClientControl.StagedPitchKnots | Client/main.go:141-150 | The table takes 0, 25, 60, 80 and 90 at 500, 600, 700, 800 and 900 m. |
| ClientControl.StagedPitchLinearInBand | Client/main.go:141-148 | Within one band the pitch rises by exactly slope·distance. |
| ClientControl.BandOf | Client/main.go:139-151 | The band index of an altitude is between 0 and 5. |
| ClientControl.StagedPitchMonotoneAndContinuous | Client/main.go:139-151 | Across all bands the pitch never decreases and never rises faster than 0.35 degrees per metre, so it is monotone and continuous at every band boundary. |
| ClientControl.Pitched | Client/main.go:139-151 | The pitch becomes the table's value at the altitude; throttles, yaw and roll are kept. |
| ClientControl.Cut | Client/main.go:157-161 | The same number of throttles, every one 0; pitch, yaw and roll are kept. |
| ClientControl.IterateLast | Client/main.go:133-187 | Iteration n + 1 of a loop starts where iteration n ended. |
| ClientControl.IterateStaysTerminal | Client/main.go:133-187 | When one iteration keeps every landed or crashed state, the loop keeps such a state for good once it reaches one. |
| ClientControl.FlownLast | Client/main.go:133-187 | Iteration n + 1 of the control loop is one `Advance` from where iteration n ended. |
| ClientControl.AdvanceKeepsTerminal | Client/main.go:153-177 | An iteration leaves a landed or crashed engine state as it is. |
| ClientControl.FlownStaysTerminal | Client/main.go:133-187 | Once the control loop has reached a landed or crashed state, every later iteration leaves the engine state as it is. |
| ClientControl.Reports | Client/main.go:163-168 | At most one telemetry message per iteration, each carrying the client's id. |
| ClientControl.SuffixFrom | Client/main.go:163-189 | Messages appended after a prefix that all carry one id leave every appended position carrying that id. |
| ClientControl.RocketClient.constructor | Client/main.go:31-39 | A new client is running and not registered, has no physics, and sends telemetry at 10 Hz. |
| ClientControl.RocketClient.Register | Client/main.go:52-89 | The registration is sent. `registered` is set only on "accepted". "rejected" returns its reason, and any other type is an unexpected reply. |
| ClientControl.RocketClient.InitPhysics | Client/main.go:91-113 | A fresh engine at the launch position, with exactly one throttle per configured engine, each 1.0, and pitch, yaw and roll 0. |
| ClientControl.RocketClient.SendTelemetry | Client/main.go:192-207 | The state is sent iff registered; otherwise nothing is sent. |
| ClientControl.RocketClient.CutThrottles | Client/main.go:157-161 | Every throttle becomes 0, their number stays the same, and the attitude is kept. |
| ClientControl.RocketClient.Tick | Client/main.go:133-186 | One loop iteration, and exactly one `Advance` of the engine state and the command. The pitch follows the table at the pre-step altitude, and the engine takes one step with that command. All throttles are 0 after a step that leaves fuel ≤ 0, and unchanged otherwise; yaw and roll are kept. Telemetry is sent iff due and registered. Running stops exactly on landed or crashed, never on in_orbit. |
| ClientControl.RocketClient.Run | Client/main.go:115-190 | After `ticks` iterations the engine state and the command are exactly those of `Flown`, the iterate of `Advance`. The loop ends early only on a landed or crashed state, and does not start when the client is not running. A registered client sends exactly the telemetry `Reports` lists, with the state after each iteration where telemetry was due, then the disconnect; an unregistered client sends only the disconnect. Every message sent carries the client's id. |
| ClientControl.RocketClient.Fly | Client/main.go:133-187 | The `for r.running` loop: the same engine state, command, stop rule and telemetry as `Run`, without the disconnect. |
| ClientControl.RocketClient.TickCounted | Client/main.go:133-186 | Iteration n + 1: moves the state from `Flown` after n iterations to `Flown` after n + 1, and extends the telemetry from `Reports` over n iterations to `Reports` over n + 1. |
| ClientControl.RocketClient.Disconnect | Client/main.go:256-269 | Sends the disconnect message with the fixed reason. |
| ClientControl.RocketClient.HandleServerMessage | Client/main.go:209-243 | "command" with a payload that decodes replaces the command; "shutdown" stops the loop; every other type leaves the client as it was. |
| ClientControl.RocketClient.Stop | Client/main.go:271-273 | Clears `running` and nothing else. |
| ServerLog.AfterMembers | Server/main.go:59-69 | The entries returned are exactly those with a timestamp strictly after `since`. |
| ServerLog.AfterDistributes | Server/main.go:63-67 | The filter works piece by piece, so it keeps buffer order. |
| ServerLog.AfterNarrows | Server/main.go:59-69 | Filtering again with a later cut-off equals filtering once with it. |
| ServerLog.LogBuffer.constructor | Server/main.go:30-35 | The log starts empty with the given capacity. |
| ServerLog.LogBuffer.Add | Server/main.go:37-49 | When full, the oldest entry is dropped, then the new one is appended. The size never exceeds maxSize, the newest entry is last, and the buffer is always the newest maxSize entries of everything added. |
| ServerLog.LogBuffer.GetAll | Server/main.go:51-57 | A copy: the newest maxSize entries, oldest first. |
| ServerLog.LogBuffer.GetSince | Server/main.go:59-69 | The loop returns, in buffer order, exactly the entries strictly after `since`. |
| Coordination.FanOutShape | Server/main.go:352-365 | The k-th message of a broadcast goes to the k-th observer listed. |
| Coordination.FanOutReachesEveryObserver | Server/main.go:352-365 | A broadcast sends exactly one message per observer, every observer's connection gets it, and all carry the same message. |
| Coordination.ReplayShape | Server/main.go:332-350 | The replay is 2·\|rockets\| messages, all to the new observer. For each vehicle, rocket_joined{id, name, config} is immediately followed by broadcast{id, name, stored state}. |
| Coordination.Severity | Server/main.go:394-401 | "critical" iff d < min/4; "high" iff min/4 ≤ d < min/2; "medium" otherwise. |
| Coordination.Distance | Server/main.go:426-431 | The distance between a point and itself is the root of 0. |
| Coordination.DistanceSymmetric | Server/main.go:426-431 | The distance does not depend on the order of the two vehicles, so both members of a pair see the same distance. |
| Coordination.SeverityMonotone | Server/main.go:394-401 | A closer approach is never rated less severe. |
| Coordination.RowMembers | Server/main.go:385-418 | The inner loop for vehicle i sends exactly the warnings of the close pairs (i, m) with m after i. |
| Coordination.RowsMembers | Server/main.go:384-423 | The pair loops send exactly the warnings of the close pairs i < j. |
| Coordination.RowsStep | Server/main.go:384-423 | A warning of the inner loop for vehicle i, with i below the outer bound, is among the warnings the outer loop has sent by then. |
| Coordination.RowContains | Server/main.go:385-418 | A warning of the close pair (i, j) is among the warnings the inner loop for i sends once it has passed j. |
| Coordination.RowsLast | Server/main.go:384-423 | The first i + 1 passes of the outer loop send the first i passes' warnings, then those of pass i. |
| Coordination.CloseApproachesWarned | Server/main.go:392-415 | For i < j closer than the safe distance, each vehicle receives a warning addressed to its own id that names the other, with the pair's distance and severity. |
| Coordination.WarningsOnlyForClosePairs | Server/main.go:392-418 | Every warning sent belongs to a pair closer than the safe distance. |
| Coordination.NoClosePairsNoWarnings | Server/main.go:376-424 | When no pair is closer than the safe distance, nothing is sent. |
| Coordination.Snapshot | Server/main.go:377-382 | The snapshot holds the stored vehicles, in the listed key order. |
| Coordination.RegisterReply | Server/main.go:202-255 | "accepted" iff the configuration validates and the id is not yet registered. A validation error is rejected with the error's text, before the duplicate check; a duplicate id is rejected with its fixed text. The reply carries the registrant's id. |
| Coordination.Server.constructor | Server/main.go:111-118 | Empty registries and a safe distance of 1000. |
| Coordination.Server.Send | Server/main.go:433-443 | One record on the outbox; the registries are unchanged. |
| Coordination.Server.BroadcastToObservers | Server/main.go:352-365 | One copy to every observer, in map order, and nothing else changes. |
| Coordination.Server.HandleRegister | Server/main.go:202-255 | An undecodable message changes nothing. Validation runs before the duplicate check. Either rejection sends "rejected" to the registrant only and leaves the registry, including the first registration, unchanged. A success inserts exactly one entry under the id, with a zero state, sends "accepted" to the registrant, then rocket_joined{id, name, config} to every observer. A connection is returned iff the registration succeeded. |
| Coordination.Server.HandleTelemetry | Server/main.go:257-284 | Only that vehicle's stored state and time change. Every observer gets broadcast{connection's id, name, state}, and nothing goes back to the vehicle. |
| Coordination.Server.RemoveRocket | Server/main.go:286-299 | The id is deleted. rocket_left{id, "disconnected"} goes to every observer iff the id was present. |
| Coordination.Server.HandleSubscribe | Server/main.go:301-323 | The observer is stored, replacing any with the same id (there is no duplicate check), and the registry is replayed to it. |
| Coordination.Server.SendCurrentRocketsToObserver | Server/main.go:332-350 | The loop sends exactly the replay of the registry to one observer. |
| Coordination.Server.RemoveObserver | Server/main.go:325-330 | Unconditional delete; nothing is sent. |
| Coordination.Server.CheckCollisions | Server/main.go:376-424 | Snapshots the vehicles in map order, then sends exactly the warnings of every close pair i < j, in loop order. |
| Coordination.Server.SnapshotRockets | Server/main.go:377-382 | The loop builds the snapshot of the listed keys. |
| Coordination.Server.WarnClosePairs | Server/main.go:384-423 | The nested loops send exactly the warnings of all pairs i < j of the snapshot. |
| Coordination.Server.WarnRow | Server/main.go:385-422 | One pass of the inner loop appends exactly the warnings of the close pairs (i, j), j > i, in order of j; the registries are unchanged. |
| Coordination.Server.WarnPair | Server/main.go:386-418 | A pair closer than the safe distance: both are warned, with the severity of the distance. Otherwise nothing is sent. |
| Coordination.Server.HandleEvent | Server/main.go:153-199 | One event, its new connection state and its messages. A read error removes every role the connection holds, and rocket_left goes to every observer iff the vehicle was registered. register sends `RegisterReply`; on success it inserts the entry, sends rocket_joined to every observer and sets the vehicle role, and otherwise resets that role to none. Telemetry from a registered vehicle updates its entry and goes to every observer as broadcast. disconnect removes the vehicle and sends rocket_left to every observer. subscribe stores the observer and replays the registry to it. Telemetry and disconnect are ignored until registered, and unsubscribe until subscribed; an explicit disconnect or unsubscribe ends the loop. Unknown types and undecodable frames change nothing. |
| Coordination.Server.HandleClient | Server/main.go:147-200 | The read loop stops only after a read error, a disconnect or an unsubscribe. |
| ViewerProtocol.ParseMessageType | Graphic/src/network/protocol.cpp:5-22 | The result is Unknown iff the string is not one of the 15 known names; matching is exact and case-sensitive. |
| ViewerProtocol.MessageTypeToString | Graphic/src/network/protocol.cpp:24-43 | Every variant except Unknown prints as a known name, and Unknown prints as none of them. |
| ViewerProtocol.ParsePrintRoundTrip | Graphic/src/network/protocol.cpp:5-43 | Parsing the printed form of any variant, Unknown included, gives that variant back. |
| ViewerProtocol.PrintParseRoundTrip | Graphic/src/network/protocol.cpp:5-40 | Printing the parse of each of the 15 known names gives the same name back. |
| ViewerProtocol.PrintOfParse | Graphic/src/network/protocol.cpp:5-40 | Any string that parses to a variant other than Unknown prints back as itself. |
| ViewerProtocol.PrintInjective | Graphic/src/network/protocol.cpp:24-43 | Distinct variants print differently. |
| ViewerProtocol.UpperCaseIsUnknown | Graphic/src/network/protocol.cpp:5-22 | A case variant of a name, and the empty string, are Unknown. |
| ViewerProtocol.AgreesWithVehicleProtocol | Graphic/src/network/protocol.cpp:5-22 | The viewer recognises exactly the type strings the vehicle protocol declares, in the same order. |
| ViewerProtocol.FromJson | Graphic/src/network/protocol.cpp:45-53 | Decoding succeeds iff "type" is present and a string, and "timestamp", when present, is a string. "timestamp" and "data" are copied only when present; otherwise the defaults are kept. |
| ViewerProtocol.DecodeThenClassify | Graphic/src/network/protocol.cpp:5-53 | A full envelope with a known type decodes to its fields, and its type string classifies as its own variant. |
| ViewerProtocol.MinimalEnvelope | Graphic/src/network/protocol.cpp:45-53 | Extra fields are ignored; missing timestamp and data leave the defaults. |
| ViewerRocket.NextHistoryShape | Graphic/src/data/rocket_data.cpp:13-33 | The trajectory never exceeds 10000 points. A recorded point becomes the last element and carries the state's position and time. When full, the oldest point is dropped and the survivors keep their order. A point that is not recorded leaves the trajectory unchanged. |
| ViewerRocket.RecordsIffFarEnough | Graphic/src/data/rocket_data.cpp:17-27 | With an exact square root, a point is recorded iff the trajectory is empty or the point is at least 100 from the last recorded point (compared squared). |
| ViewerRocket.NextHistoryKeepsSpacing | Graphic/src/data/rocket_data.cpp:17-33 | With an exact square root, consecutive recorded points stay at least 100 apart after every update. |
| ViewerRocket.SpacedAppend | Graphic/src/data/rocket_data.cpp:17-29 | A point at least 100 from the last recorded one extends a spaced trajectory to a spaced one. |
| ViewerRocket.SpacedLast | Graphic/src/data/rocket_data.cpp:31-33 | Dropping points from the front keeps the trajectory spaced. |
| ViewerRocket.ActiveIsNotTerminal | Graphic/src/data/rocket_data.cpp:41-43 | An active vehicle is neither in orbit nor terminal, and every such vehicle is active. |
| ViewerRocket.RocketData.constructor | Graphic/src/data/rocket_data.cpp:6-7 | A new entry has the given id and name, a zero state and configuration, and an empty trajectory. |
| ViewerRocket.RocketData.UpdateState | Graphic/src/data/rocket_data.cpp:9-34 | The state is always replaced, even when no point is recorded. The trajectory follows the spacing rule and is trimmed from the front to 10000 points. Name and configuration are kept. |
| ViewerRocket.RocketData.TrimHistory | Graphic/src/data/rocket_data.cpp:31-33 | The pop_front loop leaves the newest 10000 points of the trajectory in order; the other fields are kept. |
| ViewerRocket.RocketData.SetConfig | Graphic/src/data/rocket_data.cpp:36-39 | Stores the configuration and overwrites the name with its name; the state and trajectory are kept. |
| ViewerRocket.RocketData.IsActive | Graphic/src/data/rocket_data.cpp:41-43 | Active iff not crashed, not landed and not in orbit. |
| ViewerState.SimulationState.constructor | Graphic/src/data/simulation_state.cpp:6-8 | No vehicles, nothing tracked, and the sites Baikonur, Cape Canaveral, Kourou, Vostochny in that order. |
| ViewerState.SimulationState.InitCosmodromes | Graphic/src/data/simulation_state.cpp:10-38 | Appends the four launch sites in order and changes nothing else. |
| ViewerState.SimulationState.AddRocket | Graphic/src/data/simulation_state.cpp:53-64 | A known id leaves the table unchanged, keeping the first name and configuration. A new id adds exactly one fresh entry with the given configuration, named after it, and keeps every other entry. |
| ViewerState.SimulationState.UpdateRocket | Graphic/src/data/simulation_state.cpp:66-73 | Only an existing entry changes, by one trajectory update; an unknown id is ignored and nothing is inserted. |
| ViewerState.SimulationState.RemoveRocket | Graphic/src/data/simulation_state.cpp:75-82 | The id is erased, and the tracked id is cleared iff it was the removed id. |
| ViewerState.SimulationState.GetRocket | Graphic/src/data/simulation_state.cpp:84-92 | The entry for a present id, null otherwise. |
| ViewerState.SimulationState.GetAllRockets | Graphic/src/data/simulation_state.cpp:94-103 | Every entry exactly once, and nothing else. |
| ViewerState.SimulationState.GetRocketCount | Graphic/src/data/simulation_state.cpp:105-108 | The number of ids. |
| ViewerState.SimulationState.SetTrackedRocket | Graphic/src/data/simulation_state.cpp:110-113 | Stores any id, present or not, and nothing else. |
| ViewerState.SimulationState.GetTrackedRocket | Graphic/src/data/simulation_state.cpp:115-126 | Null iff nothing is tracked or the tracked id is no longer present; otherwise that entry. |
| ViewerUi.StatusOf | Graphic/src/ui/ui_manager.cpp:160-175 | crashed → [X] red, else landed → [L] green, else in_orbit → [O] sky blue, else [F] yellow. |
| ViewerUi.StatusMatchesActivity | Graphic/src/ui/ui_manager.cpp:160-175 | [F] is shown exactly for the vehicles the viewer counts as active, and a terminal vehicle shows [X] or [L]. |
| ViewerUi.StatusDistinguishes | Graphic/src/ui/ui_manager.cpp:160-175 | Equal glyphs mean equal flags, taken in precedence order. |
| ViewerUi.VisibleCount | Graphic/src/ui/ui_manager.cpp:141 | The list shows min(count, 5) rows. |
| ViewerUi.MoreCount | Graphic/src/ui/ui_manager.cpp:185-190 | The "... and N more" line is present iff there are more than 5 vehicles. |
| ViewerUi.ListAccountsForAll | Graphic/src/ui/ui_manager.cpp:141-190 | The listed rows plus N account for every vehicle, and the line appears only when the list is full. |
| ViewerUi.LogPanelIndices | Graphic/src/ui/ui_manager.cpp:257-264 | The panel visits indices from size−1 down to max(0, size−maxVisible), newest first. |
| ViewerUi.LogPanelShowsNewest | Graphic/src/ui/ui_manager.cpp:257-264 | An index is visited iff it is one of the newest maxVisible entries. |
| ViewerUi.UIManager.constructor | Graphic/include/ui/ui_manager.hpp:58 | The log starts empty. |
| ViewerUi.UIManager.AddLog | Graphic/src/ui/ui_manager.cpp:281-292 | The entry is appended at the end, then entries are erased from the front until at most 50 remain. The survivors keep their order, and the log is always the newest 50 entries ever logged. |
| ViewerUi.UIManager.TrimLogs | Graphic/src/ui/ui_manager.cpp:289-291 | The erase loop leaves the newest 50 entries. |
| ViewerUi.UIManager.AddWarning | Graphic/src/ui/ui_manager.cpp:294-296 | Logs "[WARN] " + message in yellow. |
| ViewerUi.UIManager.AddError | Graphic/src/ui/ui_manager.cpp:298-300 | Logs "[ERR] " + message in red. |

## Left out

- Concurrency is not modelled; every handler is one atomic step. This covers the goroutines, the `sync.RWMutex` and `std::mutex` lock pairs, the ticker-driven `collisionCheckLoop`, and the client's concurrent `receiveMessages`, which is modelled as one `HandleServerMessage` call per message.
- Recorded sends cover only successful writes. WebSocket upgrade, reads, writes and their errors are not modelled, and neither are `Start`/`handleWebSocket`, the HTTP handlers `handleRocketList`, `handleLogs` and `handleIndex`, or the `main` functions. A send is a record appended to the outbox.
- JSON is not modelled: encoding and decoding arrive as already-decoded values, with `None` for a payload that fails to decode. The one exception is the field-presence logic of the viewer's `from_json`.
- Log and warning texts are not modelled. `serverLog`, `log.Printf` and the `fmt.Sprintf` texts are left out, and a warning's text is represented by the other vehicle's id and the distance.
- IEEE floating point is not modelled: no rounding, infinities or NaN, and the float casts of timestamps are dropped. The square root, exponential and sine are parameters.
- Gravity and drag are modelled by their branches only; their magnitudes rest on those parameters.
- The spherical/Cartesian conversions and the cosmodrome positions are left out because they are trigonometry; only the sites' names, coordinates and order are kept.
- The cgo glue (allocating the C arrays, the name copy, `Free`) is left out, and so is a null return from `rocket_init` when `malloc` fails: allocation is assumed to succeed.
- `NewRocketPhysics`'s `FuelType` switch is left out because it only picks the engine's fuel code.
- Drawing is left out: raylib, the viewer's colour generator and the pixel bound on the log panel. The number of log rows that fit is the parameter `maxVisible`.
- Clocks are parameters: `now`, `times`, and `telemetryDue` for the telemetry interval test. `getTimeSinceLastUpdate` returns a clock difference and is left out.
- `Connect` and the network exchange of `Register` are left out. The reply is a parameter and the connection is assumed open, so the disconnect message is always recorded.
- The log line in `Run` that reads `Engines[0]` is left out, so the model does not show what it does on a configuration with no engines.
- ClientControl.RocketClient.Run: bounded by `maxTicks` ticker ticks, because the source loop runs until a landing, a crash or a shutdown, which need not come.
- ClientControl.RocketClient.Tick: the in-orbit log lines are not modelled. Orbit only fails to stop the loop, which the contract states.
- ServerLog.LogBuffer.constructor: requires `maxSize > 0`. With a capacity of 0 the Go code's first `Add` would reslice an empty slice from index 1 and panic; the server only builds the buffer with a positive capacity.
- Guidance.RocketPhysics.PredictOrbit: requires a positive planet mass, a non-zero distance from the centre and a non-zero R + altitude, where the source would divide by zero and carry an IEEE infinity or NaN onward.
- Guidance.Prediction: has the same preconditions as RocketPhysics.PredictOrbit.
- Guidance.Eccentricity: its ensures names the clamping only through an existential over the square root's argument, because the square root is a parameter.
- Coordination.Server.HandleClient: its contract states only when the loop stops. What each event does to the state and the outbox is stated on `HandleEvent`.
- Re-registering on one connection that already holds a vehicle leaves the earlier vehicle in the registry (modelled as written): `handleClient` only overwrites its local `rocketConn`.
- `handleWarning` on the client and the viewer's network client (`ws_client.cpp`) are left out because they only log or enqueue.
- The five `Orbit*` fields of the wire `RocketState` are not modelled: nothing in the modelled code sets them, so `GetState` leaves them at zero.
- Strings are sequences of Unicode characters, not Go's UTF-8 byte strings: `string(rune)` yields one character here, where Go yields its one to four UTF-8 bytes.
- Flight.OrbitalStability: the branches for a non-positive distance and a zero circular speed are added, because there the source's IEEE ratio is infinite or NaN and the band test fails; the model returns false directly.
- Vectors.Magnitude: its contract covers only the zero vector, because the square root is a parameter; that its argument is never negative is stated on `Dot`.
