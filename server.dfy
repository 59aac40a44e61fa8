/** The coordination server (Server/main.go): the registry of vehicles and
    observers, the message handlers, the replay to a new observer, the
    per-connection dispatch and the collision pass. Every handler runs as one
    atomic step; a send appends a (connection, message) record to the ghost
    outbox; map iteration order is an enumeration the method reports. */
module Coordination {
  import opened Vectors
  import opened Wire
  import Validation
  import opened Collections

  type ConnId = int

  const MinSafeDistance := 1000.0
  const AcceptedText := "Регистрация успешна. Вы можете начинать запуск."
  const DuplicateIdText := "ракета с таким ID уже зарегистрирована"
  const LeftReason := "disconnected"
  const SeverityMedium := "medium"
  const SeverityHigh := "high"
  const SeverityCritical := "critical"

  /** What the server writes. A warning's text is modelled by the other
      vehicle's id and the distance it reports. */
  datatype ServerMessage =
    | Accepted(rocketId: string, message: string)
    | Rejected(rocketId: string, reason: string)
    | RocketJoined(rocketId: string, name: string, config: RocketConfig)
    | Broadcast(rocketId: string, name: string, state: RocketState)
    | RocketLeft(rocketId: string, reason: string)
    | Warning(rocketId: string, otherId: string, distance: real, severity: string)

  datatype Delivery = Delivery(to: ConnId, msg: ServerMessage)

  datatype RocketConnection = RocketConnection(id: string, conn: ConnId, config: RocketConfig,
                                               state: RocketState, lastUpdate: int)

  datatype ObserverConnection = ObserverConnection(id: string, conn: ConnId, lastUpdate: int)

  /** Decoded payloads; a handler receives None when decoding failed. */
  datatype RegisterMessage = RegisterMessage(rocketId: string, config: RocketConfig)
  datatype TelemetryMessage = TelemetryMessage(rocketId: string, state: RocketState)

  /** One copy of msg to each listed observer, in the listed order. */
  function FanOut(order: seq<string>, observers: map<string, ObserverConnection>, msg: ServerMessage): seq<Delivery>
    requires forall k :: k in order ==> k in observers
  {
    if order == [] then []
    else FanOut(order[..|order| - 1], observers, msg) + [Delivery(observers[order[|order| - 1]].conn, msg)]
  }

  /** The k-th delivery of a fan-out goes to the k-th observer. */
  lemma {:induction false} FanOutShape(order: seq<string>, observers: map<string, ObserverConnection>, msg: ServerMessage)
    requires forall k :: k in order ==> k in observers
    ensures |FanOut(order, observers, msg)| == |order|
    ensures forall k :: 0 <= k < |order| ==> FanOut(order, observers, msg)[k] == Delivery(observers[order[k]].conn, msg)
  {
    if order != [] {
      FanOutShape(order[..|order| - 1], observers, msg);
    }
  }

  /** A broadcast over an enumeration of the observers sends exactly one
      message per observer, and each observer's connection gets one. */
  lemma FanOutReachesEveryObserver(order: seq<string>, observers: map<string, ObserverConnection>, msg: ServerMessage)
    requires IsEnumeration(order, observers.Keys)
    ensures |FanOut(order, observers, msg)| == |observers|
    ensures forall id :: id in observers ==> Delivery(observers[id].conn, msg) in FanOut(order, observers, msg)
    ensures forall d :: d in FanOut(order, observers, msg) ==> d.msg == msg
  {
    FanOutShape(order, observers, msg);
    EnumerationSize(order, observers.Keys);
    forall id | id in observers
      ensures Delivery(observers[id].conn, msg) in FanOut(order, observers, msg)
    {
      var k :| 0 <= k < |order| && order[k] == id;
      assert FanOut(order, observers, msg)[k] == Delivery(observers[id].conn, msg);
    }
  }

  /** What the replay sends one observer: for each vehicle, rocket_joined
      immediately followed by broadcast with the stored state. */
  function Replay(order: seq<string>, rockets: map<string, RocketConnection>, to: ConnId): seq<Delivery>
    requires forall k :: k in order ==> k in rockets
  {
    if order == [] then []
    else
      var r := rockets[order[|order| - 1]];
      Replay(order[..|order| - 1], rockets, to) +
        [Delivery(to, RocketJoined(r.id, r.config.name, r.config)), Delivery(to, Broadcast(r.id, r.config.name, r.state))]
  }

  /** The replay is 2·n messages, all to the one observer, in joined/broadcast pairs. */
  lemma {:induction false} ReplayShape(order: seq<string>, rockets: map<string, RocketConnection>, to: ConnId)
    requires forall k :: k in order ==> k in rockets
    ensures |Replay(order, rockets, to)| == 2 * |order|
    ensures forall k :: 0 <= k < |Replay(order, rockets, to)| ==> Replay(order, rockets, to)[k].to == to
    ensures forall k :: 0 <= k < |order| ==>
              && Replay(order, rockets, to)[2 * k] ==
                 Delivery(to, RocketJoined(rockets[order[k]].id, rockets[order[k]].config.name, rockets[order[k]].config))
              && Replay(order, rockets, to)[2 * k + 1] ==
                 Delivery(to, Broadcast(rockets[order[k]].id, rockets[order[k]].config.name, rockets[order[k]].state))
  {
    if order != [] {
      ReplayShape(order[..|order| - 1], rockets, to);
    }
  }

  /** calculateDistance: the root of zero between a point and itself. */
  function Distance(p: Vector3, q: Vector3, sqrt: real -> real): (d: real)
    ensures p == q ==> d == sqrt(0.0)
  {
    sqrt(DistanceSquared(p, q))
  }

  /** The distance does not depend on the order of the two vehicles. */
  lemma DistanceSymmetric(p: Vector3, q: Vector3, sqrt: real -> real)
    ensures Distance(p, q, sqrt) == Distance(q, p, sqrt)
  {
    DistanceSquaredSymmetric(p, q);
  }

  /** The severity of a close approach: critical below a quarter of the safe
      distance, high below half of it, medium otherwise. */
  function Severity(d: real, minSafe: real): (s: string)
    ensures s == SeverityCritical || s == SeverityHigh || s == SeverityMedium
    ensures s == SeverityCritical <==> d < minSafe / 4.0
    ensures s == SeverityHigh <==> minSafe / 4.0 <= d < minSafe / 2.0
    ensures s == SeverityMedium <==> !(d < minSafe / 4.0) && !(d < minSafe / 2.0)
  {
    if d < minSafe / 4.0 then SeverityCritical
    else if d < minSafe / 2.0 then SeverityHigh
    else SeverityMedium
  }

  function SeverityRank(s: string): int {
    if s == SeverityCritical then 2 else if s == SeverityHigh then 1 else 0
  }

  /** For a positive safe distance, a closer approach is never rated less severe. */
  lemma SeverityMonotone(d1: real, d2: real, minSafe: real)
    requires minSafe > 0.0 && d1 <= d2
    ensures SeverityRank(Severity(d1, minSafe)) >= SeverityRank(Severity(d2, minSafe))
  {
  }

  /** The two warnings of one close pair: each vehicle is told about the other. */
  function PairWarnings(r1: RocketConnection, r2: RocketConnection, minSafe: real, sqrt: real -> real): seq<Delivery> {
    var d := Distance(r1.state.position, r2.state.position, sqrt);
    if d < minSafe then
      [Delivery(r1.conn, Warning(r1.id, r2.id, d, Severity(d, minSafe))),
       Delivery(r2.conn, Warning(r2.id, r1.id, d, Severity(d, minSafe)))]
    else []
  }

  /** Warnings for the pairs (i, i+1), …, (i, j-1). */
  function Row(snap: seq<RocketConnection>, i: nat, j: nat, minSafe: real, sqrt: real -> real): seq<Delivery>
    requires i < j <= |snap|
    decreases j
  {
    if j == i + 1 then []
    else Row(snap, i, j - 1, minSafe, sqrt) + PairWarnings(snap[i], snap[j - 1], minSafe, sqrt)
  }

  /** Warnings for every pair (i, j) with i < n and i < j. */
  function Rows(snap: seq<RocketConnection>, n: nat, minSafe: real, sqrt: real -> real): seq<Delivery>
    requires n <= |snap|
  {
    if n == 0 then []
    else Rows(snap, n - 1, minSafe, sqrt) + Row(snap, n - 1, |snap|, minSafe, sqrt)
  }

  /** w is one of the two warnings for the close pair (i, j). */
  ghost predicate PairWarning(snap: seq<RocketConnection>, i: int, j: int, w: Delivery, minSafe: real, sqrt: real -> real)
    requires 0 <= i < |snap| && 0 <= j < |snap|
  {
    w in PairWarnings(snap[i], snap[j], minSafe, sqrt) && PairWarnings(snap[i], snap[j], minSafe, sqrt) != []
  }

  lemma {:induction false} RowMembers(snap: seq<RocketConnection>, i: nat, j: nat, minSafe: real, sqrt: real -> real)
    requires i < j <= |snap|
    ensures forall w :: w in Row(snap, i, j, minSafe, sqrt) <==>
              exists m :: i < m < j && PairWarning(snap, i, m, w, minSafe, sqrt)
    decreases j
  {
    if j > i + 1 {
      RowMembers(snap, i, j - 1, minSafe, sqrt);
      forall w | w in Row(snap, i, j, minSafe, sqrt)
        ensures exists m :: i < m < j && PairWarning(snap, i, m, w, minSafe, sqrt)
      {
        if w !in Row(snap, i, j - 1, minSafe, sqrt) {
          assert PairWarning(snap, i, j - 1, w, minSafe, sqrt);
        }
      }
      forall w | exists m :: i < m < j && PairWarning(snap, i, m, w, minSafe, sqrt)
        ensures w in Row(snap, i, j, minSafe, sqrt)
      {
        var m :| i < m < j && PairWarning(snap, i, m, w, minSafe, sqrt);
        if m < j - 1 {
          assert w in Row(snap, i, j - 1, minSafe, sqrt);
        }
      }
    }
  }

  lemma {:induction false} RowsMembers(snap: seq<RocketConnection>, n: nat, minSafe: real, sqrt: real -> real)
    requires n <= |snap|
    ensures forall w :: w in Rows(snap, n, minSafe, sqrt) <==>
              exists i, j :: 0 <= i < n && i < j < |snap| && PairWarning(snap, i, j, w, minSafe, sqrt)
    decreases n
  {
    if n > 0 {
      RowsMembers(snap, n - 1, minSafe, sqrt);
      RowMembers(snap, n - 1, |snap|, minSafe, sqrt);
      forall w | exists i, j :: 0 <= i < n && i < j < |snap| && PairWarning(snap, i, j, w, minSafe, sqrt)
        ensures w in Rows(snap, n, minSafe, sqrt)
      {
        var i, j :| 0 <= i < n && i < j < |snap| && PairWarning(snap, i, j, w, minSafe, sqrt);
        RowContains(snap, i, j, |snap|, minSafe, sqrt, w);
        RowsStep(snap, n, minSafe, sqrt, i, w);
      }
    }
  }

  /** A warning of row i, for i < n, is among the first n rows. */
  lemma {:induction false} RowsStep(snap: seq<RocketConnection>, n: nat, minSafe: real, sqrt: real -> real,
                                    i: int, w: Delivery)
    requires 0 < n <= |snap| && 0 <= i < n
    requires w in Row(snap, i, |snap|, minSafe, sqrt)
    ensures w in Rows(snap, n, minSafe, sqrt)
    decreases n
  {
    if i < n - 1 {
      RowsStep(snap, n - 1, minSafe, sqrt, i, w);
    }
  }

  /** One close pair (i, j) with j < k puts its warning into row i up to k. */
  lemma {:induction false} RowContains(snap: seq<RocketConnection>, i: int, j: int, k: nat, minSafe: real,
                                       sqrt: real -> real, w: Delivery)
    requires 0 <= i < j < k <= |snap|
    requires PairWarning(snap, i, j, w, minSafe, sqrt)
    ensures w in Row(snap, i, k, minSafe, sqrt)
    decreases k
  {
    if j < k - 1 {
      RowContains(snap, i, j, k - 1, minSafe, sqrt, w);
    }
  }

  /** The first i + 1 rows are the first i and then row i. */
  lemma RowsLast(snap: seq<RocketConnection>, i: nat, minSafe: real, sqrt: real -> real)
    requires i < |snap|
    ensures Rows(snap, i + 1, minSafe, sqrt) == Rows(snap, i, minSafe, sqrt) + Row(snap, i, |snap|, minSafe, sqrt)
  {
  }

  /** For i < j closer than the safe distance, each of the two receives a
      warning addressed to itself that names the other. */
  lemma CloseApproachesWarned(snap: seq<RocketConnection>, minSafe: real, sqrt: real -> real, i: int, j: int)
    requires 0 <= i < j < |snap|
    requires Distance(snap[i].state.position, snap[j].state.position, sqrt) < minSafe
    ensures var d := Distance(snap[i].state.position, snap[j].state.position, sqrt);
            && Delivery(snap[i].conn, Warning(snap[i].id, snap[j].id, d, Severity(d, minSafe))) in Rows(snap, |snap|, minSafe, sqrt)
            && Delivery(snap[j].conn, Warning(snap[j].id, snap[i].id, d, Severity(d, minSafe))) in Rows(snap, |snap|, minSafe, sqrt)
  {
    RowsMembers(snap, |snap|, minSafe, sqrt);
    var pw := PairWarnings(snap[i], snap[j], minSafe, sqrt);
    assert PairWarning(snap, i, j, pw[0], minSafe, sqrt);
    assert PairWarning(snap, i, j, pw[1], minSafe, sqrt);
  }

  /** Every warning the collision pass sends belongs to a close pair. */
  lemma WarningsOnlyForClosePairs(snap: seq<RocketConnection>, minSafe: real, sqrt: real -> real, w: Delivery)
    requires w in Rows(snap, |snap|, minSafe, sqrt)
    ensures exists i, j :: 0 <= i < j < |snap| && PairWarning(snap, i, j, w, minSafe, sqrt) &&
              Distance(snap[i].state.position, snap[j].state.position, sqrt) < minSafe
  {
    RowsMembers(snap, |snap|, minSafe, sqrt);
  }

  /** With no close pair the collision pass sends nothing. */
  lemma NoClosePairsNoWarnings(snap: seq<RocketConnection>, minSafe: real, sqrt: real -> real)
    requires forall i, j :: 0 <= i < j < |snap| ==>
               Distance(snap[i].state.position, snap[j].state.position, sqrt) >= minSafe
    ensures Rows(snap, |snap|, minSafe, sqrt) == []
  {
    var all := Rows(snap, |snap|, minSafe, sqrt);
    if all != [] {
      WarningsOnlyForClosePairs(snap, minSafe, sqrt, all[0]);
      assert false;
    }
  }

  /** The values of a snapshot, in the order their keys were listed. */
  function Snapshot(order: seq<string>, rockets: map<string, RocketConnection>): (snap: seq<RocketConnection>)
    requires forall k :: k in order ==> k in rockets
    ensures |snap| == |order|
    ensures forall k :: 0 <= k < |order| ==> snap[k] == rockets[order[k]]
  {
    if order == [] then [] else Snapshot(order[..|order| - 1], rockets) + [rockets[order[|order| - 1]]]
  }

  /** The reply handleRegister sends to a decoded registration: the
      validation error comes first, then the duplicate-id check, and only a
      valid registration under a new id is accepted. */
  function RegisterReply(m: RegisterMessage, registry: map<string, RocketConnection>): (r: ServerMessage)
    ensures r.Accepted? || r.Rejected?
    ensures r.rocketId == m.rocketId
    ensures r.Accepted? <==> Validation.Validate(m.config).None? && m.rocketId !in registry
    ensures Validation.Validate(m.config).Some? ==> r.Rejected? && r.reason == Validation.ErrorText(Validation.Validate(m.config).value)
    ensures Validation.Validate(m.config).None? && m.rocketId in registry ==> r.Rejected? && r.reason == DuplicateIdText
  {
    var err := Validation.Validate(m.config);
    if err.Some? then Rejected(m.rocketId, Validation.ErrorText(err.value))
    else if m.rocketId in registry then Rejected(m.rocketId, DuplicateIdText)
    else Accepted(m.rocketId, AcceptedText)
  }

  /** Per-connection state of handleClient: the vehicle and observer roles it holds. */
  datatype ConnState = ConnState(rocketConn: Option<RocketConnection>, observerConn: Option<ObserverConnection>)

  /** One read from a connection: an error, a frame that is not a message,
      or a message of some type with its payload decoded as each handler
      would decode it. */
  datatype Event =
    | ReadError
    | Undecodable
    | Incoming(msgType: string, register: Option<RegisterMessage>, telemetry: Option<TelemetryMessage>,
               observerId: Option<string>)

  /** Whether handleClient returns after this event in this state. */
  predicate Ends(cs: ConnState, ev: Event) {
    ev.ReadError? ||
    (ev.Incoming? && ev.msgType == Validation.MsgTypeDisconnect && cs.rocketConn.Some?) ||
    (ev.Incoming? && ev.msgType == Validation.MsgTypeUnsubscribe && cs.observerConn.Some?)
  }

  /** The kinds of event after which handleClient may return. */
  predicate MayEnd(ev: Event) {
    ev.ReadError? ||
    (ev.Incoming? && (ev.msgType == Validation.MsgTypeDisconnect || ev.msgType == Validation.MsgTypeUnsubscribe))
  }

  class Server {
    var rockets: map<string, RocketConnection>
    var observers: map<string, ObserverConnection>
    const minSafeDistance: real
    /** Every message sent, oldest first. */
    ghost var outbox: seq<Delivery>

    /** Each entry is stored under its own id. */
    ghost predicate Valid()
      reads this
    {
      (forall id :: id in rockets ==> rockets[id].id == id) &&
      (forall id :: id in observers ==> observers[id].id == id)
    }

    /** NewServer: empty registries and a 1000 m safe distance. */
    constructor ()
      ensures Valid()
      ensures rockets == map[] && observers == map[] && outbox == []
      ensures minSafeDistance == MinSafeDistance
    {
      rockets := map[];
      observers := map[];
      minSafeDistance := MinSafeDistance;
      outbox := [];
    }

    /** sendMessage. */
    method Send(to: ConnId, msg: ServerMessage)
      modifies this
      ensures outbox == old(outbox) + [Delivery(to, msg)]
      ensures rockets == old(rockets) && observers == old(observers)
    {
      outbox := outbox + [Delivery(to, msg)];
    }

    /** broadcastToObservers: one copy to every observer, in map order. */
    method BroadcastToObservers(msg: ServerMessage) returns (order: seq<string>)
      modifies this
      ensures IsEnumeration(order, observers.Keys)
      ensures outbox == old(outbox) + FanOut(order, observers, msg)
      ensures rockets == old(rockets) && observers == old(observers)
    {
      order := Enumerate(observers.Keys);
      var snapshot := observers;
      for i := 0 to |order|
        invariant rockets == old(rockets) && observers == snapshot
        invariant outbox == old(outbox) + FanOut(order[..i], observers, msg)
      {
        assert order[..i + 1][..i] == order[..i];
        Send(observers[order[i]].conn, msg);
      }
      assert order[..|order|] == order;
    }

    /** handleRegister. Validation comes before the duplicate-id check; either
        rejection goes to the registrant only and leaves the registry alone. A
        success stores the vehicle with a zero state, accepts it, then tells
        every observer. Returns the stored connection, or None. */
    method HandleRegister(conn: ConnId, decoded: Option<RegisterMessage>, now: int)
      returns (rocketConn: Option<RocketConnection>, order: seq<string>)
      requires Valid()
      modifies this
      ensures Valid()
      ensures observers == old(observers)
      ensures decoded.None? ==>
              rocketConn.None? && rockets == old(rockets) && outbox == old(outbox)
      ensures decoded.Some? && Validation.Validate(decoded.value.config).Some? ==>
              && rocketConn.None? && rockets == old(rockets)
              && outbox == old(outbox) + [Delivery(conn, Rejected(decoded.value.rocketId,
                                                    Validation.ErrorText(Validation.Validate(decoded.value.config).value)))]
      ensures decoded.Some? && Validation.Validate(decoded.value.config).None? &&
              decoded.value.rocketId in old(rockets) ==>
              && rocketConn.None? && rockets == old(rockets)
              && outbox == old(outbox) + [Delivery(conn, Rejected(decoded.value.rocketId, DuplicateIdText))]
      ensures decoded.Some? && Validation.Validate(decoded.value.config).None? &&
              decoded.value.rocketId !in old(rockets) ==>
              var m := decoded.value;
              var entry := RocketConnection(m.rocketId, conn, m.config, ZeroState, now);
              && rocketConn == Some(entry)
              && rockets == old(rockets)[m.rocketId := entry]
              && IsEnumeration(order, observers.Keys)
              && outbox == old(outbox) + [Delivery(conn, Accepted(m.rocketId, AcceptedText))] +
                           FanOut(order, observers, RocketJoined(m.rocketId, m.config.name, m.config))
      ensures rocketConn.Some? <==>
              decoded.Some? && Validation.Validate(decoded.value.config).None? && decoded.value.rocketId !in old(rockets)
    {
      order := [];
      if decoded.None? {
        return None, order;
      }
      var m := decoded.value;
      var err := Validation.ValidateRocketConfig(m.config);
      if err.Some? {
        Send(conn, Rejected(m.rocketId, Validation.ErrorText(err.value)));
        return None, order;
      }
      if m.rocketId in rockets {
        Send(conn, Rejected(m.rocketId, DuplicateIdText));
        return None, order;
      }
      var entry := RocketConnection(m.rocketId, conn, m.config, ZeroState, now);
      rockets := rockets[m.rocketId := entry];
      Send(conn, Accepted(m.rocketId, AcceptedText));
      ghost var afterAccept := outbox;
      order := BroadcastToObservers(RocketJoined(m.rocketId, m.config.name, m.config));
      rocketConn := Some(entry);
    }

    /** handleTelemetry for the vehicle this connection registered: the
        stored state is replaced and every observer gets it under the
        connection's own id and name, whatever id the payload carries. Nothing
        goes back to the vehicle. */
    method HandleTelemetry(rocketConn: RocketConnection, decoded: Option<TelemetryMessage>, now: int)
      returns (order: seq<string>)
      requires Valid()
      modifies this
      ensures Valid()
      ensures observers == old(observers)
      ensures decoded.None? ==> rockets == old(rockets) && outbox == old(outbox)
      ensures decoded.Some? ==>
              && rockets == (if rocketConn.id in old(rockets)
                             then old(rockets)[rocketConn.id := old(rockets)[rocketConn.id].(state := decoded.value.state, lastUpdate := now)]
                             else old(rockets))
              && IsEnumeration(order, observers.Keys)
              && outbox == old(outbox) + FanOut(order, observers,
                                                Broadcast(rocketConn.id, rocketConn.config.name, decoded.value.state))
    {
      order := [];
      if decoded.None? {
        return;
      }
      var st := decoded.value.state;
      if rocketConn.id in rockets {
        rockets := rockets[rocketConn.id := rockets[rocketConn.id].(state := st, lastUpdate := now)];
      }
      order := BroadcastToObservers(Broadcast(rocketConn.id, rocketConn.config.name, st));
    }

    /** removeRocket: deletes the id; only if it was present are observers
        told that it left. */
    method RemoveRocket(rocketId: string) returns (order: seq<string>)
      requires Valid()
      modifies this
      ensures Valid()
      ensures rockets == old(rockets) - {rocketId} && observers == old(observers)
      ensures rocketId !in old(rockets) ==> outbox == old(outbox)
      ensures rocketId in old(rockets) ==>
              IsEnumeration(order, observers.Keys) &&
              outbox == old(outbox) + FanOut(order, observers, RocketLeft(rocketId, LeftReason))
    {
      order := [];
      var present := rocketId in rockets;
      rockets := rockets - {rocketId};
      if present {
        order := BroadcastToObservers(RocketLeft(rocketId, LeftReason));
      }
    }

    /** handleSubscribe: stores the observer, replacing any with the same id,
        then replays the registry to it. */
    method HandleSubscribe(conn: ConnId, decoded: Option<string>, now: int)
      returns (observerConn: Option<ObserverConnection>, order: seq<string>)
      requires Valid()
      modifies this
      ensures Valid()
      ensures rockets == old(rockets)
      ensures decoded.None? ==> observerConn.None? && observers == old(observers) && outbox == old(outbox)
      ensures decoded.Some? ==>
              && observerConn == Some(ObserverConnection(decoded.value, conn, now))
              && observers == old(observers)[decoded.value := observerConn.value]
              && IsEnumeration(order, rockets.Keys)
              && outbox == old(outbox) + Replay(order, rockets, conn)
    {
      order := [];
      if decoded.None? {
        return None, order;
      }
      var obs := ObserverConnection(decoded.value, conn, now);
      observers := observers[decoded.value := obs];
      order := SendCurrentRocketsToObserver(obs);
      observerConn := Some(obs);
    }

    /** sendCurrentRocketsToObserver: for each vehicle in map order,
        rocket_joined then broadcast, both to the one observer. */
    method SendCurrentRocketsToObserver(observer: ObserverConnection) returns (order: seq<string>)
      modifies this
      ensures rockets == old(rockets) && observers == old(observers)
      ensures IsEnumeration(order, rockets.Keys)
      ensures outbox == old(outbox) + Replay(order, rockets, observer.conn)
    {
      order := Enumerate(rockets.Keys);
      for i := 0 to |order|
        invariant rockets == old(rockets) && observers == old(observers)
        invariant outbox == old(outbox) + Replay(order[..i], rockets, observer.conn)
      {
        assert order[..i + 1][..i] == order[..i];
        var rocket := rockets[order[i]];
        Send(observer.conn, RocketJoined(rocket.id, rocket.config.name, rocket.config));
        Send(observer.conn, Broadcast(rocket.id, rocket.config.name, rocket.state));
      }
      assert order[..|order|] == order;
    }

    /** removeObserver: unconditional delete. */
    method RemoveObserver(observerId: string)
      requires Valid()
      modifies this
      ensures Valid()
      ensures observers == old(observers) - {observerId}
      ensures rockets == old(rockets) && outbox == old(outbox)
    {
      observers := observers - {observerId};
    }

    /** checkCollisions: snapshot the vehicles in map order, then for each
        pair i < j closer than the safe distance warn both. */
    method CheckCollisions(sqrt: real -> real) returns (order: seq<string>, snap: seq<RocketConnection>)
      modifies this
      ensures rockets == old(rockets) && observers == old(observers)
      ensures IsEnumeration(order, rockets.Keys) && snap == Snapshot(order, rockets)
      ensures outbox == old(outbox) + Rows(snap, |snap|, minSafeDistance, sqrt)
    {
      order, snap := SnapshotRockets();
      WarnClosePairs(snap, sqrt);
    }

    /** The snapshot checkCollisions takes under the lock. */
    method SnapshotRockets() returns (order: seq<string>, snap: seq<RocketConnection>)
      ensures IsEnumeration(order, rockets.Keys) && snap == Snapshot(order, rockets)
    {
      order := Enumerate(rockets.Keys);
      snap := [];
      for k := 0 to |order|
        invariant snap == Snapshot(order[..k], rockets)
      {
        assert order[..k + 1][..k] == order[..k];
        snap := snap + [rockets[order[k]]];
      }
      assert order[..|order|] == order;
    }

    /** The pair loop of checkCollisions over a snapshot. */
    method WarnClosePairs(snap: seq<RocketConnection>, sqrt: real -> real)
      modifies this
      ensures rockets == old(rockets) && observers == old(observers)
      ensures outbox == old(outbox) + Rows(snap, |snap|, minSafeDistance, sqrt)
    {
      for i := 0 to |snap|
        invariant rockets == old(rockets) && observers == old(observers)
        invariant outbox == old(outbox) + Rows(snap, i, minSafeDistance, sqrt)
      {
        ghost var done := Rows(snap, i, minSafeDistance, sqrt);
        ghost var row := Row(snap, i, |snap|, minSafeDistance, sqrt);
        WarnRow(snap, i, sqrt);
        RowsLast(snap, i, minSafeDistance, sqrt);
        AppendAssociative(old(outbox), done, row);
      }
    }

    /** The inner loop for vehicle i: every later vehicle, in snapshot order. */
    method WarnRow(snap: seq<RocketConnection>, i: nat, sqrt: real -> real)
      requires i < |snap|
      modifies this
      ensures rockets == old(rockets) && observers == old(observers)
      ensures outbox == old(outbox) + Row(snap, i, |snap|, minSafeDistance, sqrt)
    {
      for j := i + 1 to |snap|
        invariant rockets == old(rockets) && observers == old(observers)
        invariant outbox == old(outbox) + Row(snap, i, j, minSafeDistance, sqrt)
      {
        WarnPair(snap[i], snap[j], sqrt);
        assert Row(snap, i, j + 1, minSafeDistance, sqrt) ==
               Row(snap, i, j, minSafeDistance, sqrt) + PairWarnings(snap[i], snap[j], minSafeDistance, sqrt);
      }
    }

    /** The body of the pair loop: both vehicles are warned when closer
        than the safe distance, with the severity of the distance. */
    method WarnPair(rocket1: RocketConnection, rocket2: RocketConnection, sqrt: real -> real)
      modifies this
      ensures rockets == old(rockets) && observers == old(observers)
      ensures outbox == old(outbox) + PairWarnings(rocket1, rocket2, minSafeDistance, sqrt)
    {
      var distance := Distance(rocket1.state.position, rocket2.state.position, sqrt);
      if distance < minSafeDistance {
        var severity := SeverityMedium;
        if distance < minSafeDistance / 2.0 {
          severity := SeverityHigh;
        }
        if distance < minSafeDistance / 4.0 {
          severity := SeverityCritical;
        }
        assert severity == Severity(distance, minSafeDistance);
        Send(rocket1.conn, Warning(rocket1.id, rocket2.id, distance, severity));
        Send(rocket2.conn, Warning(rocket2.id, rocket1.id, distance, severity));
      }
    }

    /** One step of handleClient's read loop. `order` is the enumeration of
        the map the handler that ran iterated over, if any. */
    method HandleEvent(conn: ConnId, cs: ConnState, ev: Event, now: int)
      returns (next: ConnState, stop: bool, order: seq<string>)
      requires Valid()
      modifies this
      ensures Valid()
      ensures stop == Ends(cs, ev)
      // A read error drops every role the connection holds; observers hear
      // of the vehicle's departure before its own observer role goes.
      ensures ev.ReadError? ==>
              && next == cs
              && rockets == (if cs.rocketConn.Some? then old(rockets) - {cs.rocketConn.value.id} else old(rockets))
              && observers == (if cs.observerConn.Some? then old(observers) - {cs.observerConn.value.id} else old(observers))
              && (cs.rocketConn.None? || cs.rocketConn.value.id !in old(rockets) ==> outbox == old(outbox))
              && (cs.rocketConn.Some? && cs.rocketConn.value.id in old(rockets) ==>
                    && IsEnumeration(order, old(observers).Keys)
                    && outbox == old(outbox) + FanOut(order, old(observers), RocketLeft(cs.rocketConn.value.id, LeftReason)))
      // Telemetry and disconnect wait for a registration, unsubscribe for a subscription.
      ensures ev.Incoming? && cs.rocketConn.None? &&
              (ev.msgType == Validation.MsgTypeTelemetry || ev.msgType == Validation.MsgTypeDisconnect) ==>
              next == cs && rockets == old(rockets) && observers == old(observers) && outbox == old(outbox)
      ensures ev.Incoming? && cs.observerConn.None? && ev.msgType == Validation.MsgTypeUnsubscribe ==>
              next == cs && rockets == old(rockets) && observers == old(observers) && outbox == old(outbox)
      // register replaces the vehicle role, with None after a failed attempt.
      ensures ev.Incoming? && ev.msgType == Validation.MsgTypeRegister ==>
              && next.observerConn == cs.observerConn && observers == old(observers)
              && (ev.register.None? ==> next.rocketConn.None? && rockets == old(rockets) && outbox == old(outbox))
              && (ev.register.Some? && RegisterReply(ev.register.value, old(rockets)).Rejected? ==>
                    && next.rocketConn.None? && rockets == old(rockets)
                    && outbox == old(outbox) + [Delivery(conn, RegisterReply(ev.register.value, old(rockets)))])
              && (ev.register.Some? && RegisterReply(ev.register.value, old(rockets)).Accepted? ==>
                    var m := ev.register.value;
                    var entry := RocketConnection(m.rocketId, conn, m.config, ZeroState, now);
                    && next.rocketConn == Some(entry)
                    && rockets == old(rockets)[m.rocketId := entry]
                    && IsEnumeration(order, observers.Keys)
                    && outbox == old(outbox) + [Delivery(conn, RegisterReply(m, old(rockets)))] +
                                 FanOut(order, observers, RocketJoined(m.rocketId, m.config.name, m.config)))
      // Telemetry from the registered vehicle updates its entry and goes to
      // every observer under the connection's id and name.
      ensures ev.Incoming? && cs.rocketConn.Some? && ev.msgType == Validation.MsgTypeTelemetry ==>
              var rc := cs.rocketConn.value;
              && next == cs && observers == old(observers)
              && (ev.telemetry.None? ==> rockets == old(rockets) && outbox == old(outbox))
              && (ev.telemetry.Some? ==>
                    && rockets == (if rc.id in old(rockets)
                                   then old(rockets)[rc.id := old(rockets)[rc.id].(state := ev.telemetry.value.state, lastUpdate := now)]
                                   else old(rockets))
                    && IsEnumeration(order, observers.Keys)
                    && outbox == old(outbox) + FanOut(order, observers, Broadcast(rc.id, rc.config.name, ev.telemetry.value.state)))
      // An explicit disconnect or unsubscribe removes only that role.
      ensures ev.Incoming? && cs.rocketConn.Some? && ev.msgType == Validation.MsgTypeDisconnect ==>
              var id := cs.rocketConn.value.id;
              && next == cs && rockets == old(rockets) - {id} && observers == old(observers)
              && (id !in old(rockets) ==> outbox == old(outbox))
              && (id in old(rockets) ==>
                    IsEnumeration(order, observers.Keys) &&
                    outbox == old(outbox) + FanOut(order, observers, RocketLeft(id, LeftReason)))
      ensures ev.Incoming? && cs.observerConn.Some? && ev.msgType == Validation.MsgTypeUnsubscribe ==>
              next == cs && observers == old(observers) - {cs.observerConn.value.id} && rockets == old(rockets) &&
              outbox == old(outbox)
      // subscribe replaces the observer role and replays the registry to it.
      ensures ev.Incoming? && ev.msgType == Validation.MsgTypeSubscribe ==>
              && next.rocketConn == cs.rocketConn && rockets == old(rockets)
              && (ev.observerId.None? ==> next.observerConn.None? && observers == old(observers) && outbox == old(outbox))
              && (ev.observerId.Some? ==>
                    && next.observerConn == Some(ObserverConnection(ev.observerId.value, conn, now))
                    && observers == old(observers)[ev.observerId.value := next.observerConn.value]
                    && IsEnumeration(order, rockets.Keys)
                    && outbox == old(outbox) + Replay(order, rockets, conn))
      // Frames that do not decode and unknown types are skipped.
      ensures ev.Undecodable? || (ev.Incoming? && ev.msgType !in
                [Validation.MsgTypeRegister, Validation.MsgTypeTelemetry, Validation.MsgTypeDisconnect,
                 Validation.MsgTypeSubscribe, Validation.MsgTypeUnsubscribe]) ==>
              next == cs && rockets == old(rockets) && observers == old(observers) && outbox == old(outbox)
    {
      next := cs;
      stop := false;
      order := [];
      match ev {
        case ReadError =>
          if cs.rocketConn.Some? {
            order := RemoveRocket(cs.rocketConn.value.id);
          }
          if cs.observerConn.Some? {
            RemoveObserver(cs.observerConn.value.id);
          }
          stop := true;
        case Undecodable =>
        case Incoming(msgType, register, telemetry, observerId) =>
          if msgType == Validation.MsgTypeRegister {
            var rc;
            rc, order := HandleRegister(conn, register, now);
            next := next.(rocketConn := rc);
          } else if msgType == Validation.MsgTypeTelemetry {
            if cs.rocketConn.Some? {
              order := HandleTelemetry(cs.rocketConn.value, telemetry, now);
            }
          } else if msgType == Validation.MsgTypeDisconnect {
            if cs.rocketConn.Some? {
              order := RemoveRocket(cs.rocketConn.value.id);
              stop := true;
            }
          } else if msgType == Validation.MsgTypeSubscribe {
            var oc;
            oc, order := HandleSubscribe(conn, observerId, now);
            next := next.(observerConn := oc);
          } else if msgType == Validation.MsgTypeUnsubscribe {
            if cs.observerConn.Some? {
              RemoveObserver(cs.observerConn.value.id);
              stop := true;
            }
          }
      }
    }

    /** handleClient over a finite run of reads, each with its arrival time:
        it starts with no role and stops at the first event that ends it. */
    method HandleClient(conn: ConnId, events: seq<Event>, times: seq<int>) returns (cs: ConnState, served: nat)
      requires Valid() && |times| == |events|
      modifies this
      ensures Valid()
      ensures served <= |events|
      ensures served < |events| ==> served > 0
      ensures served < |events| ==> MayEnd(events[served - 1])
    {
      cs := ConnState(None, None);
      served := 0;
      var stop := false;
      while served < |events| && !stop
        invariant Valid()
        invariant served <= |events|
        invariant stop ==> served > 0 && MayEnd(events[served - 1])
        decreases |events| - served
      {
        var order;
        cs, stop, order := HandleEvent(conn, cs, events[served], times[served]);
        served := served + 1;
      }
    }
  }
}
