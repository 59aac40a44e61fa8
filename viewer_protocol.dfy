/** The viewer's message-type codec and envelope decoding
    (Graphic/src/network/protocol.cpp). */
module ViewerProtocol {
  import Validation
  import opened Wire

  /** The closed set of message kinds the viewer distinguishes; Unknown
      stands for every other type string. */
  datatype MessageType =
    | Register | Telemetry | Disconnect | Accepted | Rejected | Command
    | Warning | Shutdown | Trajectory | RocketList | Subscribe | Unsubscribe
    | Broadcast | RocketJoined | RocketLeft | Unknown

  /** The fifteen type strings the viewer recognises. */
  const KnownNames: seq<string> := [
    "register", "telemetry", "disconnect", "accepted", "rejected", "command",
    "warning", "shutdown", "trajectory", "rocket_list", "subscribe",
    "unsubscribe", "broadcast", "rocket_joined", "rocket_left"]

  /** parseMessageType: exact, case-sensitive matching; anything else is Unknown. */
  function ParseMessageType(s: string): (t: MessageType)
    ensures t == Unknown <==> s !in KnownNames
  {
    if s == "register" then Register
    else if s == "telemetry" then Telemetry
    else if s == "disconnect" then Disconnect
    else if s == "accepted" then Accepted
    else if s == "rejected" then Rejected
    else if s == "command" then Command
    else if s == "warning" then Warning
    else if s == "shutdown" then Shutdown
    else if s == "trajectory" then Trajectory
    else if s == "rocket_list" then RocketList
    else if s == "subscribe" then Subscribe
    else if s == "unsubscribe" then Unsubscribe
    else if s == "broadcast" then Broadcast
    else if s == "rocket_joined" then RocketJoined
    else if s == "rocket_left" then RocketLeft
    else Unknown
  }

  /** messageTypeToString. */
  function MessageTypeToString(t: MessageType): (s: string)
    ensures t != Unknown <==> s in KnownNames
  {
    match t
    case Register => "register"
    case Telemetry => "telemetry"
    case Disconnect => "disconnect"
    case Accepted => "accepted"
    case Rejected => "rejected"
    case Command => "command"
    case Warning => "warning"
    case Shutdown => "shutdown"
    case Trajectory => "trajectory"
    case RocketList => "rocket_list"
    case Subscribe => "subscribe"
    case Unsubscribe => "unsubscribe"
    case Broadcast => "broadcast"
    case RocketJoined => "rocket_joined"
    case RocketLeft => "rocket_left"
    case Unknown => "unknown"
  }

  /** Every variant survives printing and parsing, Unknown included, since
      "unknown" is not a recognised name. */
  lemma ParsePrintRoundTrip(t: MessageType)
    ensures ParseMessageType(MessageTypeToString(t)) == t
  {
  }

  /** Each recognised name survives parsing and printing. */
  lemma PrintParseRoundTrip(s: string)
    requires s in KnownNames
    ensures MessageTypeToString(ParseMessageType(s)) == s
  {
    PrintOfParse(s);
  }

  /** Whatever variant a string parses to, other than Unknown, prints back
      as that same string. */
  lemma PrintOfParse(s: string)
    ensures ParseMessageType(s) != Unknown ==> MessageTypeToString(ParseMessageType(s)) == s
  {
    if s == "register" {
    } else if s == "telemetry" {
    } else if s == "disconnect" {
    } else if s == "accepted" {
    } else if s == "rejected" {
    } else if s == "command" {
    } else if s == "warning" {
    } else if s == "shutdown" {
    } else if s == "trajectory" {
    } else if s == "rocket_list" {
    } else if s == "subscribe" {
    } else if s == "unsubscribe" {
    } else if s == "broadcast" {
    } else if s == "rocket_joined" {
    } else if s == "rocket_left" {
    }
  }

  /** Distinct variants print differently. */
  lemma PrintInjective(t1: MessageType, t2: MessageType)
    requires MessageTypeToString(t1) == MessageTypeToString(t2)
    ensures t1 == t2
  {
    ParsePrintRoundTrip(t1);
    ParsePrintRoundTrip(t2);
  }

  /** Parsing is case-sensitive: a name differing from every known one, for
      instance an upper-case spelling, is Unknown. */
  lemma UpperCaseIsUnknown()
    ensures ParseMessageType("REGISTER") == Unknown
    ensures ParseMessageType("Telemetry") == Unknown
    ensures ParseMessageType("") == Unknown
  {
  }

  /** The viewer recognises exactly the type strings the vehicle-side
      protocol declares. */
  lemma AgreesWithVehicleProtocol()
    ensures KnownNames == Validation.MessageTypes
  {
  }

  /** A JSON value as the envelope decoder sees it. */
  datatype Json =
    | JNull
    | JBool(b: bool)
    | JNumber(n: real)
    | JString(s: string)
    | JArray(items: seq<Json>)
    | JObject(fields: map<string, Json>)

  /** The envelope: type, optional timestamp, and the raw payload. */
  datatype Message = Message(msgType: string, timestamp: string, data: Json)

  const EmptyMessage := Message("", "", JNull)

  /** Whether j has field f. */
  predicate Has(j: Json, f: string) {
    j.JObject? && f in j.fields
  }

  /** from_json into m: "type" must be present and a string; "timestamp" and
      "data" are copied only when present, otherwise m keeps its own. A
      missing or ill-typed field is an exception, here None. */
  function FromJson(j: Json, m: Message): (r: Option<Message>)
    ensures r.Some? <==>
            Has(j, "type") && j.fields["type"].JString? &&
            (Has(j, "timestamp") ==> j.fields["timestamp"].JString?)
    ensures r.Some? ==> r.value.msgType == j.fields["type"].s
    ensures r.Some? ==> r.value.timestamp == (if Has(j, "timestamp") then j.fields["timestamp"].s else m.timestamp)
    ensures r.Some? ==> r.value.data == (if Has(j, "data") then j.fields["data"] else m.data)
  {
    if !Has(j, "type") || !j.fields["type"].JString? then None
    else
      var withType := m.(msgType := j.fields["type"].s);
      if Has(j, "timestamp") && !j.fields["timestamp"].JString? then None
      else
        var withTime := if Has(j, "timestamp") then withType.(timestamp := j.fields["timestamp"].s) else withType;
        Some(if Has(j, "data") then withTime.(data := j.fields["data"]) else withTime)
  }

  /** Decoding an envelope and classifying its type, as the viewer's read
      loop does: a known type string gives its own variant. */
  lemma DecodeThenClassify(t: MessageType, ts: string, data: Json)
    requires t != Unknown
    ensures var j := JObject(map["type" := JString(MessageTypeToString(t)), "timestamp" := JString(ts), "data" := data]);
            && FromJson(j, EmptyMessage) == Some(Message(MessageTypeToString(t), ts, data))
            && ParseMessageType(FromJson(j, EmptyMessage).value.msgType) == t
  {
    ParsePrintRoundTrip(t);
  }

  /** Extra fields are ignored and absent optional fields leave the defaults. */
  lemma MinimalEnvelope(s: string, extra: Json)
    ensures FromJson(JObject(map["type" := JString(s), "other" := extra]), EmptyMessage) == Some(Message(s, "", JNull))
  {
  }
}
