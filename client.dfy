/** The vehicle client (Client/main.go): registration, the physics set-up,
    the fixed-step control loop with its staged pitch table and throttle
    cutoff, and the messages it sends. The socket is replaced by a ghost
    record of sent messages; replies from the server are parameters. */
module ClientControl {
  import opened Vectors
  import opened Wire
  import Validation
  import Flight
  import Guidance
  import Collections

  /** The fixed physics step of the control loop, in seconds. */
  const Dt := 0.01
  const DisconnectReason := "Завершение полёта"

  /** What the client writes to its connection. */
  datatype ClientMessage =
    | RegisterMsg(rocketId: string, config: RocketConfig)
    | TelemetryMsg(rocketId: string, state: RocketState)
    | DisconnectMsg(rocketId: string, reason: string)

  /** The server's reply to a registration, already decoded: its type and, for
      accepted and rejected, the text it carries. */
  datatype Reply = Reply(msgType: string, message: string, reason: string)

  datatype RegisterOutcome =
    | Registered(message: string)
    | RegistrationRejected(reason: string)
    | UnexpectedReply(msgType: string)

  /** The hand-tuned pitch table of the control loop: straight up below 500 m,
      then four 100 m bands rising linearly through 25°, 60° and 80° to 90°. */
  function StagedPitch(alt: real): (pitch: real)
    ensures 0.0 <= pitch <= 90.0
    ensures alt < 500.0 ==> pitch == 0.0
    ensures alt >= 900.0 ==> pitch == 90.0
  {
    if alt < 500.0 then 0.0
    else if alt < 600.0 then (alt - 500.0) / (600.0 - 500.0) * 25.0
    else if alt < 700.0 then 25.0 + (alt - 600.0) / (700.0 - 600.0) * 35.0
    else if alt < 800.0 then 60.0 + (alt - 700.0) / (800.0 - 700.0) * 20.0
    else if alt < 900.0 then 80.0 + (alt - 800.0) / (900.0 - 800.0) * 10.0
    else 90.0
  }

  /** At the band boundaries the table takes the values in its comments. */
  lemma StagedPitchKnots()
    ensures StagedPitch(500.0) == 0.0
    ensures StagedPitch(600.0) == 25.0
    ensures StagedPitch(700.0) == 60.0
    ensures StagedPitch(800.0) == 80.0
    ensures StagedPitch(900.0) == 90.0
  {
  }

  /** The slope of the table within each band, in degrees per metre. */
  function BandSlope(alt: real): real {
    if alt < 500.0 then 0.0
    else if alt < 600.0 then 0.25
    else if alt < 700.0 then 0.35
    else if alt < 800.0 then 0.2
    else if alt < 900.0 then 0.1
    else 0.0
  }

  /** Within a band the pitch is linear: moving up by d metres inside one band
      adds exactly slope·d. */
  lemma StagedPitchLinearInBand(a: real, b: real)
    requires a <= b
    requires BandOf(a) == BandOf(b)
    ensures StagedPitch(b) - StagedPitch(a) == BandSlope(a) * (b - a)
  {
  }

  /** Which band of the table an altitude falls in (0 below, 5 above). */
  function BandOf(alt: real): (k: nat)
    ensures k <= 5
  {
    if alt < 500.0 then 0
    else if alt < 600.0 then 1
    else if alt < 700.0 then 2
    else if alt < 800.0 then 3
    else if alt < 900.0 then 4
    else 5
  }

  /** The table never decreases and never rises faster than 0.35°/m, so it is
      monotone and (Lipschitz-)continuous across the band boundaries. */
  lemma {:induction false} StagedPitchMonotoneAndContinuous(a: real, b: real)
    requires a <= b
    ensures 0.0 <= StagedPitch(b) - StagedPitch(a) <= 0.35 * (b - a)
    decreases 5 - BandOf(a)
  {
    if BandOf(a) == BandOf(b) {
      StagedPitchLinearInBand(a, b);
    } else {
      var knots := [500.0, 600.0, 700.0, 800.0, 900.0];
      // a lies below the upper end of its band, b at or above it.
      var m := knots[BandOf(a)];
      assert a < m <= b && BandOf(m) == BandOf(a) + 1;
      StagedPitchMonotoneAndContinuous(m, b);
      assert StagedPitch(m) - StagedPitch(a) <= 0.35 * (m - a);
    }
  }

  /** The command after the pitch table has been applied at an altitude. */
  function Pitched(command: ControlCommand, alt: real): (c: ControlCommand)
    ensures c.pitch == StagedPitch(alt)
    ensures c.engineThrottle == command.engineThrottle && c.yaw == command.yaw && c.roll == command.roll
  {
    command.(pitch := StagedPitch(alt))
  }

  /** The command with every throttle at zero and one throttle per engine kept. */
  function Cut(command: ControlCommand): (c: ControlCommand)
    ensures |c.engineThrottle| == |command.engineThrottle|
    ensures forall i :: 0 <= i < |c.engineThrottle| ==> c.engineThrottle[i] == 0.0
    ensures c.pitch == command.pitch && c.yaw == command.yaw && c.roll == command.roll
  {
    command.(engineThrottle := seq(|command.engineThrottle|, _ => 0.0))
  }

  /** One iteration of the control loop on the engine state and the command:
      pitch from the table at the altitude before the step, one engine step,
      then every throttle cut once the fuel is gone. */
  function Advance(s: RocketState, command: ControlCommand, config: RocketConfig,
                   sqrt: real -> real, exp: real -> real): (RocketState, ControlCommand)
  {
    var c := Pitched(command, s.altitude);
    var next := Flight.Step(s, config, Some(Guidance.ToNative(c)), Dt, sqrt, exp);
    (next, if next.fuelRemaining <= 0.0 then Cut(c) else c)
  }

  /** What the control loop carries from one iteration to the next. */
  type LoopState = (RocketState, ControlCommand)

  /** One iteration of the control loop as a function on its state. */
  function AdvanceFn(config: RocketConfig, sqrt: real -> real, exp: real -> real): LoopState -> LoopState {
    (p: LoopState) => Advance(p.0, p.1, config, sqrt, exp)
  }

  /** step applied n times to x. */
  function Iterate(x: LoopState, step: LoopState -> LoopState, n: nat): LoopState
    decreases n
  {
    if n == 0 then x else Iterate(step(x), step, n - 1)
  }

  /** Step n + 1 starts where n steps ended. */
  lemma {:induction false} IterateLast(x: LoopState, step: LoopState -> LoopState, n: nat)
    ensures Iterate(x, step, n + 1) == step(Iterate(x, step, n))
    decreases n
  {
    if n > 0 {
      IterateLast(step(x), step, n - 1);
    }
  }

  /** A step that keeps every landed or crashed engine state keeps it for
      good once the iteration reaches one. */
  lemma {:induction false} IterateStaysTerminal(x: LoopState, step: LoopState -> LoopState, k: nat, m: nat)
    requires forall y: LoopState {:trigger step(y)} :: Terminal(y.0) ==> step(y).0 == y.0
    requires k <= m && Terminal(Iterate(x, step, k).0)
    ensures Iterate(x, step, m).0 == Iterate(x, step, k).0
    decreases m
  {
    if m > k {
      IterateStaysTerminal(x, step, k, m - 1);
      IterateLast(x, step, m - 1);
    }
  }

  /** The engine state and command after n iterations of the control loop. */
  function Flown(s: RocketState, command: ControlCommand, config: RocketConfig, n: nat,
                 sqrt: real -> real, exp: real -> real): LoopState
  {
    Iterate((s, command), AdvanceFn(config, sqrt, exp), n)
  }

  /** Iteration n + 1 starts where n iterations ended. */
  lemma FlownLast(s: RocketState, command: ControlCommand, config: RocketConfig, n: nat,
                  sqrt: real -> real, exp: real -> real)
    ensures var before := Flown(s, command, config, n, sqrt, exp);
            Flown(s, command, config, n + 1, sqrt, exp) == Advance(before.0, before.1, config, sqrt, exp)
  {
    IterateLast((s, command), AdvanceFn(config, sqrt, exp), n);
  }

  /** The telemetry a registered client sends over n iterations: after
      iteration k, the state it reached, when telemetry was due then. */
  function Reports(id: string, s: RocketState, command: ControlCommand, config: RocketConfig,
                   due: seq<bool>, n: nat, sqrt: real -> real, exp: real -> real): (r: seq<ClientMessage>)
    requires n <= |due|
    ensures |r| <= n
    ensures forall k :: 0 <= k < |r| ==> r[k].TelemetryMsg? && r[k].rocketId == id
  {
    if n == 0 then []
    else
      Reports(id, s, command, config, due, n - 1, sqrt, exp) +
      (if due[n - 1] then [TelemetryMsg(id, Flown(s, command, config, n, sqrt, exp).0)] else [])
  }

  /** Once the loop has reached a landed or crashed state, further
      iterations leave the engine state as it is. */
  lemma FlownStaysTerminal(s: RocketState, command: ControlCommand, config: RocketConfig,
                           k: nat, m: nat, sqrt: real -> real, exp: real -> real)
    requires k <= m
    requires Terminal(Flown(s, command, config, k, sqrt, exp).0)
    ensures Flown(s, command, config, m, sqrt, exp).0 == Flown(s, command, config, k, sqrt, exp).0
  {
    var step := AdvanceFn(config, sqrt, exp);
    forall y: LoopState | Terminal(y.0)
      ensures step(y).0 == y.0
    {
      AdvanceKeepsTerminal(y.0, y.1, config, sqrt, exp);
    }
    IterateStaysTerminal((s, command), step, k, m);
  }

  /** An iteration leaves a landed or crashed engine state as it is. */
  lemma AdvanceKeepsTerminal(s: RocketState, command: ControlCommand, config: RocketConfig,
                             sqrt: real -> real, exp: real -> real)
    requires Terminal(s)
    ensures Advance(s, command, config, sqrt, exp).0 == s
  {
  }

  /** Messages appended after a prefix, all carrying one id. */
  lemma SuffixFrom(prefix: seq<ClientMessage>, tail: seq<ClientMessage>, id: string)
    requires forall k :: 0 <= k < |tail| ==> tail[k].rocketId == id
    ensures forall k :: |prefix| <= k < |prefix + tail| ==> (prefix + tail)[k].rocketId == id
  {
    forall k | |prefix| <= k < |prefix + tail|
      ensures (prefix + tail)[k].rocketId == id
    {
      assert (prefix + tail)[k] == tail[k - |prefix|];
    }
  }

  class RocketClient {
    const id: string
    const config: RocketConfig
    var physics: Guidance.RocketPhysics?
    var command: ControlCommand
    var registered: bool
    var running: bool
    const telemetryHz: real
    /** Every message written to the connection, oldest first. */
    ghost var sent: seq<ClientMessage>

    /** NewRocketClient: running, not registered, no physics yet, 10 Hz telemetry. */
    constructor (id: string, config: RocketConfig)
      ensures this.id == id && this.config == config
      ensures running && !registered && physics == null
      ensures telemetryHz == 10.0 && sent == []
    {
      this.id := id;
      this.config := config;
      telemetryHz := 10.0;
      running := true;
      registered := false;
      physics := null;
      command := ControlCommand([], 0.0, 0.0, 0.0);
      sent := [];
    }

    /** Register: sends the registration, then acts on the reply. Only
        `accepted` sets `registered`; `rejected` and any other type are errors. */
    method Register(reply: Reply) returns (outcome: RegisterOutcome)
      modifies this
      ensures sent == old(sent) + [RegisterMsg(id, config)]
      ensures registered == (old(registered) || reply.msgType == Validation.MsgTypeAccepted)
      ensures reply.msgType == Validation.MsgTypeAccepted ==> outcome == Registered(reply.message)
      ensures reply.msgType == Validation.MsgTypeRejected ==> outcome == RegistrationRejected(reply.reason)
      ensures reply.msgType != Validation.MsgTypeAccepted && reply.msgType != Validation.MsgTypeRejected ==>
              outcome == UnexpectedReply(reply.msgType)
      ensures physics == old(physics) && command == old(command) && running == old(running)
    {
      sent := sent + [RegisterMsg(id, config)];
      if reply.msgType == Validation.MsgTypeAccepted {
        registered := true;
        return Registered(reply.message);
      } else if reply.msgType == Validation.MsgTypeRejected {
        return RegistrationRejected(reply.reason);
      } else {
        return UnexpectedReply(reply.msgType);
      }
    }

    /** InitPhysics: a fresh engine at the launch position and one full
        throttle per configured engine, level attitude. */
    method InitPhysics(initialPos: Vector3, sqrt: real -> real)
      modifies this
      ensures physics != null && fresh(physics) && fresh(physics.state)
      ensures physics.config == config && physics.GetState() == Flight.InitialState(config, initialPos, sqrt)
      ensures |command.engineThrottle| == |config.engines|
      ensures forall i :: 0 <= i < |command.engineThrottle| ==> command.engineThrottle[i] == 1.0
      ensures command.pitch == 0.0 && command.yaw == 0.0 && command.roll == 0.0
      ensures registered == old(registered) && running == old(running) && sent == old(sent)
    {
      var p := new Guidance.RocketPhysics(config, initialPos, sqrt);
      physics := p;
      command := ControlCommand(seq(|config.engines|, _ => 0.0), 0.0, 0.0, 0.0);
      for i := 0 to |command.engineThrottle|
        invariant physics == p && registered == old(registered) && running == old(running) && sent == old(sent)
        invariant fresh(p.state) && p.config == config && p.GetState() == Flight.InitialState(config, initialPos, sqrt)
        invariant |command.engineThrottle| == |config.engines|
        invariant forall j :: 0 <= j < i ==> command.engineThrottle[j] == 1.0
        invariant command.pitch == 0.0 && command.yaw == 0.0 && command.roll == 0.0
      {
        command := command.(engineThrottle := command.engineThrottle[i := 1.0]);
      }
    }

    /** sendTelemetry: writes the state only once registered. */
    method SendTelemetry(state: RocketState)
      modifies this
      ensures sent == old(sent) + (if registered then [TelemetryMsg(id, state)] else [])
      ensures physics == old(physics) && command == old(command)
      ensures registered == old(registered) && running == old(running)
    {
      if !registered {
        return;
      }
      sent := sent + [TelemetryMsg(id, state)];
    }

    /** Zeroes every throttle, keeping one per engine. */
    method CutThrottles()
      modifies this
      ensures |command.engineThrottle| == |old(command.engineThrottle)|
      ensures forall i :: 0 <= i < |command.engineThrottle| ==> command.engineThrottle[i] == 0.0
      ensures command.pitch == old(command.pitch) && command.yaw == old(command.yaw)
      ensures command.roll == old(command.roll)
      ensures physics == old(physics) && sent == old(sent)
      ensures registered == old(registered) && running == old(running)
    {
      for i := 0 to |command.engineThrottle|
        invariant |command.engineThrottle| == |old(command.engineThrottle)|
        invariant forall j :: 0 <= j < i ==> command.engineThrottle[j] == 0.0
        invariant command.pitch == old(command.pitch) && command.yaw == old(command.yaw)
        invariant command.roll == old(command.roll)
        invariant physics == old(physics) && sent == old(sent)
        invariant registered == old(registered) && running == old(running)
      {
        command := command.(engineThrottle := command.engineThrottle[i := 0.0]);
      }
    }

    /** One iteration of Run: set the pitch from the table, step the engine,
        cut the throttles once the fuel is gone, send telemetry when it is due
        (the wall-clock test is the parameter `telemetryDue`), and stop after a
        landing or a crash. Reaching orbit does not stop the loop. */
    method Tick(telemetryDue: bool, sqrt: real -> real, exp: real -> real)
      requires physics != null
      modifies this, physics.state
      ensures physics == old(physics)
      ensures physics.GetState() ==
              Flight.Step(old(physics.GetState()), physics.config,
                          Some(Guidance.ToNative(Pitched(old(command), old(physics.GetState()).altitude))),
                          Dt, sqrt, exp)
      ensures (physics.GetState(), command) ==
              Advance(old(physics.GetState()), old(command), physics.config, sqrt, exp)
      ensures command.pitch == StagedPitch(old(physics.GetState()).altitude)
      ensures command.yaw == old(command.yaw) && command.roll == old(command.roll)
      ensures physics.GetState().fuelRemaining <= 0.0 ==>
              |command.engineThrottle| == |old(command.engineThrottle)| &&
              forall i :: 0 <= i < |command.engineThrottle| ==> command.engineThrottle[i] == 0.0
      ensures physics.GetState().fuelRemaining > 0.0 ==> command.engineThrottle == old(command.engineThrottle)
      ensures sent == old(sent) + (if telemetryDue && registered then [TelemetryMsg(id, physics.GetState())] else [])
      ensures running == (old(running) && !Terminal(physics.GetState()))
      ensures registered == old(registered)
    {
      var state := physics.GetState();
      var alt := state.altitude;
      command := Pitched(command, alt);

      physics.Update(command, Dt, sqrt, exp);

      state := physics.GetState();

      if state.fuelRemaining <= 0.0 {
        ghost var pitched := command;
        CutThrottles();
        assert command.engineThrottle == Cut(pitched).engineThrottle;
      }

      if telemetryDue {
        SendTelemetry(state);
      }

      if state.landed {
        running := false;
      }
      if state.crashed {
        running := false;
      }
    }

    /** Run, bounded by a number of ticker ticks: ticks while running, then
        sends the disconnect message. After `ticks` iterations the engine
        state and the command are those of `Flown`; the loop stops itself
        only on a landed or crashed state, and a registered client sends
        exactly the telemetry `Reports` lists before the disconnect. */
    method Run(maxTicks: nat, telemetryDue: seq<bool>, sqrt: real -> real, exp: real -> real)
      returns (ticks: nat)
      requires physics != null && |telemetryDue| >= maxTicks
      modifies this, physics.state
      ensures physics == old(physics) && physics.config == old(physics.config)
      ensures ticks <= maxTicks
      ensures !old(running) ==> ticks == 0
      ensures (physics.GetState(), command) ==
              Flown(old(physics.GetState()), old(command), physics.config, ticks, sqrt, exp)
      ensures running == (old(running) && (ticks == 0 || !Terminal(physics.GetState())))
      ensures ticks < maxTicks ==> !running
      ensures old(running) && ticks < maxTicks ==> Terminal(physics.GetState())
      ensures sent == old(sent) +
                      (if registered then Reports(id, old(physics.GetState()), old(command), physics.config,
                                                  telemetryDue, ticks, sqrt, exp) else []) +
                      [DisconnectMsg(id, DisconnectReason)]
      ensures forall k :: |old(sent)| <= k < |sent| ==> sent[k].rocketId == id
      ensures registered == old(registered)
    {
      ghost var s0 := physics.GetState();
      ghost var c0 := command;
      ghost var cfg := physics.config;
      ticks := Fly(maxTicks, telemetryDue, sqrt, exp);
      ghost var reports := if registered then Reports(id, s0, c0, cfg, telemetryDue, ticks, sqrt, exp) else [];
      Disconnect();
      ghost var tail := reports + [DisconnectMsg(id, DisconnectReason)];
      assert sent == old(sent) + tail;
      assert forall k :: 0 <= k < |tail| ==> tail[k].rocketId == id by {
        forall k | 0 <= k < |tail|
          ensures tail[k].rocketId == id
        {
          if k < |reports| {
            assert tail[k] == reports[k];
          }
        }
      }
      SuffixFrom(old(sent), tail, id);
    }

    /** The `for r.running` loop of Run, bounded by maxTicks. */
    method Fly(maxTicks: nat, telemetryDue: seq<bool>, sqrt: real -> real, exp: real -> real)
      returns (ticks: nat)
      requires physics != null && |telemetryDue| >= maxTicks
      modifies this, physics.state
      ensures physics == old(physics) && physics.config == old(physics.config)
      ensures ticks <= maxTicks
      ensures !old(running) ==> ticks == 0
      ensures (physics.GetState(), command) ==
              Flown(old(physics.GetState()), old(command), physics.config, ticks, sqrt, exp)
      ensures running == (old(running) && (ticks == 0 || !Terminal(physics.GetState())))
      ensures ticks < maxTicks ==> !running
      ensures sent == old(sent) +
                      (if registered then Reports(id, old(physics.GetState()), old(command), physics.config,
                                                  telemetryDue, ticks, sqrt, exp) else [])
      ensures registered == old(registered)
    {
      ghost var s0 := physics.GetState();
      ghost var c0 := command;
      ghost var cfg := physics.config;
      ticks := 0;
      while running && ticks < maxTicks
        invariant physics == old(physics) && physics.config == cfg
        invariant registered == old(registered)
        invariant ticks <= maxTicks
        invariant !old(running) ==> ticks == 0
        invariant (physics.GetState(), command) == Flown(s0, c0, cfg, ticks, sqrt, exp)
        invariant running == (old(running) && (ticks == 0 || !Terminal(physics.GetState())))
        invariant sent == old(sent) + (if registered then Reports(id, s0, c0, cfg, telemetryDue, ticks, sqrt, exp) else [])
        decreases maxTicks - ticks
      {
        TickCounted(telemetryDue, ticks, s0, c0, cfg, old(sent), sqrt, exp);
        ticks := ticks + 1;
      }
    }

    /** Iteration n + 1 of the loop, taking the loop from `Flown` after n
        iterations to `Flown` after n + 1, and the telemetry sent since
        `base` from `Reports` of n iterations to `Reports` of n + 1. */
    method TickCounted(telemetryDue: seq<bool>, n: nat, ghost s0: RocketState, ghost c0: ControlCommand,
                       ghost cfg: RocketConfig, ghost base: seq<ClientMessage>, sqrt: real -> real, exp: real -> real)
      requires physics != null && n < |telemetryDue| && physics.config == cfg
      requires (physics.GetState(), command) == Flown(s0, c0, cfg, n, sqrt, exp)
      requires sent == base + (if registered then Reports(id, s0, c0, cfg, telemetryDue, n, sqrt, exp) else [])
      modifies this, physics.state
      ensures physics == old(physics) && physics.config == cfg && registered == old(registered)
      ensures (physics.GetState(), command) == Flown(s0, c0, cfg, n + 1, sqrt, exp)
      ensures running == (old(running) && !Terminal(physics.GetState()))
      ensures sent == base + (if registered then Reports(id, s0, c0, cfg, telemetryDue, n + 1, sqrt, exp) else [])
    {
      ghost var prev := Flown(s0, c0, cfg, n, sqrt, exp);
      ghost var done := Reports(id, s0, c0, cfg, telemetryDue, n, sqrt, exp);
      Tick(telemetryDue[n], sqrt, exp);
      FlownLast(s0, c0, cfg, n, sqrt, exp);
      ghost var report := if telemetryDue[n] then [TelemetryMsg(id, physics.GetState())] else [];
      assert Reports(id, s0, c0, cfg, telemetryDue, n + 1, sqrt, exp) == done + report;
      if registered {
        Collections.AppendAssociative(base, done, report);
      }
    }

    /** disconnect: the farewell message. */
    method Disconnect()
      modifies this
      ensures sent == old(sent) + [DisconnectMsg(id, DisconnectReason)]
      ensures physics == old(physics) && command == old(command)
      ensures registered == old(registered) && running == old(running)
    {
      sent := sent + [DisconnectMsg(id, DisconnectReason)];
    }

    /** One message from receiveMessages: `command` replaces the command when
        its payload decodes (None is a decode failure), `shutdown` stops the
        loop, `warning` is only logged, and any other type is ignored. */
    method HandleServerMessage(msgType: string, payload: Option<ControlCommand>)
      modifies this
      ensures msgType == Validation.MsgTypeCommand && payload.Some? ==> command == payload.value
      ensures !(msgType == Validation.MsgTypeCommand && payload.Some?) ==> command == old(command)
      ensures running == (old(running) && msgType != Validation.MsgTypeShutdown)
      ensures physics == old(physics) && registered == old(registered) && sent == old(sent)
    {
      if msgType == Validation.MsgTypeCommand {
        if payload.Some? {
          command := payload.value;
        }
      } else if msgType == Validation.MsgTypeShutdown {
        running := false;
      }
    }

    /** Stop. */
    method Stop()
      modifies this
      ensures !running
      ensures physics == old(physics) && command == old(command)
      ensures registered == old(registered) && sent == old(sent)
    {
      running := false;
    }
  }
}
