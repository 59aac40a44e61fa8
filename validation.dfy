/** The wire vocabulary and the registration validator of Client/protocol/protocol.go.
    The server validates every registration with this function before it looks
    at its registry. */
module Validation {
  import opened Wire

  // MessageType constants.
  const MsgTypeRegister := "register"
  const MsgTypeTelemetry := "telemetry"
  const MsgTypeDisconnect := "disconnect"
  const MsgTypeAccepted := "accepted"
  const MsgTypeRejected := "rejected"
  const MsgTypeCommand := "command"
  const MsgTypeWarning := "warning"
  const MsgTypeShutdown := "shutdown"
  const MsgTypeTrajectory := "trajectory"
  const MsgTypeRocketList := "rocket_list"
  const MsgTypeSubscribe := "subscribe"
  const MsgTypeUnsubscribe := "unsubscribe"
  const MsgTypeBroadcast := "broadcast"
  const MsgTypeRocketJoined := "rocket_joined"
  const MsgTypeRocketLeft := "rocket_left"

  /** Every MessageType constant, in declaration order. */
  const MessageTypes: seq<string> := [
    MsgTypeRegister, MsgTypeTelemetry, MsgTypeDisconnect,
    MsgTypeAccepted, MsgTypeRejected, MsgTypeCommand, MsgTypeWarning,
    MsgTypeShutdown, MsgTypeTrajectory, MsgTypeRocketList,
    MsgTypeSubscribe, MsgTypeUnsubscribe, MsgTypeBroadcast,
    MsgTypeRocketJoined, MsgTypeRocketLeft]

  // FuelType constants.
  const FuelTypeKerosene := "kerosene"
  const FuelTypeLiquidH2 := "liquid_h2"
  const FuelTypeSolid := "solid"

  // The validator's messages.
  const MsgEmptyName := "название ракеты не может быть пустым"
  const MsgMassEmpty := "масса пустой ракеты должна быть положительной"
  const MsgMassFuel := "масса топлива не может быть отрицательной"
  const MsgMassFuelMax := "максимальная масса топлива должна быть >= текущей массе"
  const MsgNoEngines := "ракета должна иметь хотя бы один двигатель"
  const MsgThrust := "тяга двигателя должна быть положительной"
  const MsgConsumption := "расход топлива не может быть отрицательным"
  const MsgDrag := "коэффициент сопротивления не может быть отрицательным"
  const MsgCrossSection := "площадь сечения должна быть положительной"

  /** ValidationError; `index` is left at its zero value by every check except
      the per-engine ones. */
  datatype ValidationError = ValidationError(field: string, message: string, index: int)

  /** The field names of the checks, in the order they run. */
  const CheckFields: seq<string> := [
    "name", "mass_empty", "mass_fuel", "mass_fuel_max", "engines",
    "drag_coefficient", "cross_section"]

  predicate EngineOk(e: Engine) {
    e.thrust > 0.0 && e.fuelConsumption >= 0.0
  }

  /** Check `k` of the chain, as an independent statement of what it demands. */
  predicate CheckHolds(c: RocketConfig, k: nat)
    requires k < |CheckFields|
  {
    match k
    case 0 => c.name != ""
    case 1 => c.massEmpty > 0.0
    case 2 => c.massFuel >= 0.0
    case 3 => c.massFuelMax >= c.massFuel
    case 4 => |c.engines| > 0 && forall e :: e in c.engines ==> EngineOk(e)
    case 5 => c.dragCoefficient >= 0.0
    case 6 => c.crossSection > 0.0
  }

  /** Everything a valid configuration satisfies. */
  predicate ConfigValid(c: RocketConfig) {
    && c.name != ""
    && c.massEmpty > 0.0
    && c.massFuel >= 0.0
    && c.massFuelMax >= c.massFuel
    && |c.engines| > 0
    && (forall i :: 0 <= i < |c.engines| ==> c.engines[i].thrust > 0.0 && c.engines[i].fuelConsumption >= 0.0)
    && c.dragCoefficient >= 0.0
    && c.crossSection > 0.0
  }

  /** The engine scan from engine `i` on: the first engine that fails, and
      within it the thrust check before the consumption check. */
  function CheckEngines(engines: seq<Engine>, i: nat): (r: Option<ValidationError>)
    requires i <= |engines|
    decreases |engines| - i
    ensures r.None? <==> forall k :: i <= k < |engines| ==> EngineOk(engines[k])
    ensures r.Some? ==>
      && r.value.field == "engines"
      && i <= r.value.index < |engines|
      && !EngineOk(engines[r.value.index])
      && (forall k :: i <= k < r.value.index ==> EngineOk(engines[k]))
      && r.value.message == (if engines[r.value.index].thrust <= 0.0 then MsgThrust else MsgConsumption)
  {
    if i == |engines| then None
    else if engines[i].thrust <= 0.0 then Some(ValidationError("engines", MsgThrust, i))
    else if engines[i].fuelConsumption < 0.0 then Some(ValidationError("engines", MsgConsumption, i))
    else CheckEngines(engines, i + 1)
  }

  /** The verdict of ValidateRocketConfig: None is Go's nil error. */
  function Validate(c: RocketConfig): (r: Option<ValidationError>)
    ensures r.Some? ==> r.value.field in CheckFields && r.value.index >= 0
    // Only engine errors carry a non-zero index.
    ensures r.Some? && r.value.field != "engines" ==> r.value.index == 0
  {
    if c.name == "" then Some(ValidationError("name", MsgEmptyName, 0))
    else if c.massEmpty <= 0.0 then Some(ValidationError("mass_empty", MsgMassEmpty, 0))
    else if c.massFuel < 0.0 then Some(ValidationError("mass_fuel", MsgMassFuel, 0))
    else if c.massFuelMax < c.massFuel then Some(ValidationError("mass_fuel_max", MsgMassFuelMax, 0))
    else if |c.engines| == 0 then Some(ValidationError("engines", MsgNoEngines, 0))
    else if CheckEngines(c.engines, 0).Some? then CheckEngines(c.engines, 0)
    else if c.dragCoefficient < 0.0 then Some(ValidationError("drag_coefficient", MsgDrag, 0))
    else if c.crossSection <= 0.0 then Some(ValidationError("cross_section", MsgCrossSection, 0))
    else None
  }

  /** ValidateRocketConfig: the guarded chain with its loop over the engines.
      It only reads the configuration, which is a value here. */
  method ValidateRocketConfig(c: RocketConfig) returns (err: Option<ValidationError>)
    ensures err == Validate(c)
  {
    if c.name == "" {
      return Some(ValidationError("name", MsgEmptyName, 0));
    }
    if c.massEmpty <= 0.0 {
      return Some(ValidationError("mass_empty", MsgMassEmpty, 0));
    }
    if c.massFuel < 0.0 {
      return Some(ValidationError("mass_fuel", MsgMassFuel, 0));
    }
    if c.massFuelMax < c.massFuel {
      return Some(ValidationError("mass_fuel_max", MsgMassFuelMax, 0));
    }
    if |c.engines| == 0 {
      return Some(ValidationError("engines", MsgNoEngines, 0));
    }
    for i := 0 to |c.engines|
      invariant CheckEngines(c.engines, 0) == CheckEngines(c.engines, i)
    {
      var engine := c.engines[i];
      if engine.thrust <= 0.0 {
        return Some(ValidationError("engines", MsgThrust, i));
      }
      if engine.fuelConsumption < 0.0 {
        return Some(ValidationError("engines", MsgConsumption, i));
      }
    }
    if c.dragCoefficient < 0.0 {
      return Some(ValidationError("drag_coefficient", MsgDrag, 0));
    }
    if c.crossSection <= 0.0 {
      return Some(ValidationError("cross_section", MsgCrossSection, 0));
    }
    return None;
  }

  /** The validator accepts exactly the configurations that satisfy every rule. */
  lemma ValidateAcceptsExactlyValid(c: RocketConfig)
    ensures Validate(c).None? <==> ConfigValid(c)
  {
    if |c.engines| > 0 {
      var r := CheckEngines(c.engines, 0);
      if r.None? {
        forall i | 0 <= i < |c.engines|
          ensures c.engines[i].thrust > 0.0 && c.engines[i].fuelConsumption >= 0.0
        {
          assert EngineOk(c.engines[i]);
        }
      } else {
        var j := r.value.index;
        assert !(c.engines[j].thrust > 0.0 && c.engines[j].fuelConsumption >= 0.0);
      }
    }
  }

  /** A rejection names the first failing check in the fixed order name,
      mass_empty, mass_fuel, mass_fuel_max, engines, drag_coefficient,
      cross_section: every earlier check holds. */
  lemma ValidateReportsFirstFailure(c: RocketConfig)
    ensures Validate(c).Some? ==>
      exists k :: 0 <= k < |CheckFields| && Validate(c).value.field == CheckFields[k] &&
        !CheckHolds(c, k) && forall j :: 0 <= j < k ==> CheckHolds(c, j)
    ensures Validate(c).None? ==> forall k :: 0 <= k < |CheckFields| ==> CheckHolds(c, k)
  {
    var enginesOk := |c.engines| > 0 && CheckEngines(c.engines, 0).None?;
    assert enginesOk <==> CheckHolds(c, 4) by {
      if |c.engines| > 0 {
        var r := CheckEngines(c.engines, 0);
        if r.None? {
          forall e | e in c.engines ensures EngineOk(e) {
            var i :| 0 <= i < |c.engines| && c.engines[i] == e;
          }
        } else {
          assert c.engines[r.value.index] in c.engines;
        }
      }
    }
    var v := Validate(c);
    if v.Some? {
      var k :=
        if c.name == "" then 0
        else if c.massEmpty <= 0.0 then 1
        else if c.massFuel < 0.0 then 2
        else if c.massFuelMax < c.massFuel then 3
        else if !enginesOk then 4
        else if c.dragCoefficient < 0.0 then 5
        else 6;
      assert v.value.field == CheckFields[k] && !CheckHolds(c, k);
      assert forall j :: 0 <= j < k ==> CheckHolds(c, j);
    }
  }

  /** Engine errors name the lowest failing engine, and within one engine the
      thrust check fires before the consumption check. */
  lemma EngineErrorIsLowestIndex(c: RocketConfig)
    requires Validate(c).Some? && Validate(c).value.field == "engines" && |c.engines| > 0
    ensures var e := Validate(c).value;
      && 0 <= e.index < |c.engines|
      && !EngineOk(c.engines[e.index])
      && (forall k :: 0 <= k < e.index ==> EngineOk(c.engines[k]))
      && (c.engines[e.index].thrust <= 0.0 ==> e.message == MsgThrust)
      && (c.engines[e.index].thrust > 0.0 ==> e.message == MsgConsumption)
  {
    assert CheckEngines(c.engines, 0).Some?;
  }

  /** Every engine check, the empty-list check included, runs before the drag
      and cross-section checks: a configuration that fails both reports engines. */
  lemma EnginesBeforeDrag(c: RocketConfig)
    requires c.name != "" && c.massEmpty > 0.0 && c.massFuel >= 0.0 && c.massFuelMax >= c.massFuel
    requires |c.engines| == 0 || exists i :: 0 <= i < |c.engines| && !EngineOk(c.engines[i])
    ensures Validate(c).Some? && Validate(c).value.field == "engines"
  {
    if |c.engines| > 0 {
      assert CheckEngines(c.engines, 0).Some?;
    }
  }

  /** rune(i) in Go: the integer truncated to 32 bits. */
  function ToInt32(i: int): (r: int)
    ensures -0x8000_0000 <= r < 0x8000_0000
    ensures -0x8000_0000 <= i < 0x8000_0000 ==> r == i
  {
    (i + 0x8000_0000) % 0x1_0000_0000 - 0x8000_0000
  }

  /** string(rune): the one character with that code point, or U+FFFD when the
      code point is not a Unicode scalar value. */
  function RuneString(i: int): (s: string)
    ensures |s| == 1
    ensures 0 <= i < 0xD800 ==> s[0] as int == i
  {
    var r := ToInt32(i);
    if 0 <= r < 0xD800 || 0xE000 <= r <= 0x10FFFF then [r as char] else "�"
  }

  /** ValidationError.Error(). */
  function ErrorText(e: ValidationError): (r: string)
    // The field name first and the message last; between them a bracket
    // exactly when the index is non-negative, otherwise ": ".
    ensures |r| > |e.field| + |e.message| && r[..|e.field|] == e.field
    ensures r[|r| - |e.message|..] == e.message
    ensures r[|e.field|] == (if e.index >= 0 then '[' else ':')
  {
    if e.index >= 0 then e.field + "[" + RuneString(e.index) + "]: " + e.message
    else e.field + ": " + e.message
  }

  /** Error() of any validator result takes the bracketed branch, and the
      bracket holds the character whose code point is the index, not its
      decimal digits: a non-engine error renders as field + "[\0]: ". */
  lemma ErrorTextAlwaysBracketed(c: RocketConfig)
    requires Validate(c).Some?
    ensures var e := Validate(c).value;
      e.index < 0xD800 ==> ErrorText(e) == e.field + "[" + [e.index as char] + "]: " + e.message
    ensures var e := Validate(c).value;
      e.field != "engines" ==> ErrorText(e) == e.field + "[\0]: " + e.message
  {
    var e := Validate(c).value;
    if e.index < 0xD800 {
      assert RuneString(e.index) == [e.index as char];
    }
  }
}
