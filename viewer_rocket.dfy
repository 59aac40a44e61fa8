/** One vehicle as the viewer tracks it (Graphic/src/data/rocket_data.cpp):
    the latest state, the configuration, and a bounded trajectory that only
    records points far enough from the previous one. The arrival clock is a
    parameter; the square root, std::sqrt, is a function parameter. */
module ViewerRocket {
  import opened Vectors
  import opened Wire
  import opened Collections

  const MaxHistoryPoints := 10000
  const MinPointDistance := 100.0

  /** A recorded position and the simulation time it was reached. */
  datatype TrajectoryPoint = TrajectoryPoint(position: Vector3, timestamp: real)

  /** sqrt is the square root on the non-negative reals. */
  ghost predicate ExactSqrt(sqrt: real -> real) {
    forall x: real :: x >= 0.0 ==> sqrt(x) >= 0.0 && sqrt(x) * sqrt(x) == x
  }

  /** Whether updateState records a point at position p on history h: always
      on an empty history, otherwise when p is not closer than the minimum
      spacing to the last recorded point. */
  predicate Records(h: seq<TrajectoryPoint>, p: Vector3, sqrt: real -> real) {
    |h| == 0 || !(sqrt(DistanceSquared(p, h[|h| - 1].position)) < MinPointDistance)
  }

  /** The trajectory after one update with state s. */
  function NextHistory(h: seq<TrajectoryPoint>, s: RocketState, sqrt: real -> real): seq<TrajectoryPoint> {
    if Records(h, s.position, sqrt) then Last(h + [TrajectoryPoint(s.position, s.time)], MaxHistoryPoints) else h
  }

  /** The trajectory never exceeds its capacity, a recorded point becomes the
      newest one, and eviction drops the oldest points first while the
      survivors keep their order. */
  lemma NextHistoryShape(h: seq<TrajectoryPoint>, s: RocketState, sqrt: real -> real)
    requires |h| <= MaxHistoryPoints
    ensures |NextHistory(h, s, sqrt)| <= MaxHistoryPoints
    ensures Records(h, s.position, sqrt) ==>
              && NextHistory(h, s, sqrt)[|NextHistory(h, s, sqrt)| - 1] == TrajectoryPoint(s.position, s.time)
              && NextHistory(h, s, sqrt) == (if |h| == MaxHistoryPoints then h[1..] else h) + [TrajectoryPoint(s.position, s.time)]
    ensures !Records(h, s.position, sqrt) ==> NextHistory(h, s, sqrt) == h
  {
    if Records(h, s.position, sqrt) && |h| == MaxHistoryPoints {
      var g := h + [TrajectoryPoint(s.position, s.time)];
      assert g[|g| - MaxHistoryPoints..] == h[1..] + [TrajectoryPoint(s.position, s.time)];
    }
  }

  /** With an exact square root the spacing rule is a squared-distance test. */
  lemma RecordsIffFarEnough(h: seq<TrajectoryPoint>, p: Vector3, sqrt: real -> real)
    requires ExactSqrt(sqrt)
    ensures Records(h, p, sqrt) <==> |h| == 0 || DistanceSquared(p, h[|h| - 1].position) >= MinPointDistance * MinPointDistance
  {
    if |h| > 0 {
      var d := DistanceSquared(p, h[|h| - 1].position);
      var r := sqrt(d);
      assert r >= 0.0 && r * r == d;
      if r < MinPointDistance {
        assert r * r < MinPointDistance * MinPointDistance by {
          assert r * r <= r * MinPointDistance;
        }
      } else {
        assert r * r >= MinPointDistance * MinPointDistance by {
          assert r * r >= r * MinPointDistance;
        }
      }
    }
  }

  /** Consecutive recorded points are at least the minimum spacing apart. */
  ghost predicate Spaced(h: seq<TrajectoryPoint>) {
    forall k :: 0 < k < |h| ==> DistanceSquared(h[k].position, h[k - 1].position) >= MinPointDistance * MinPointDistance
  }

  /** Updates keep the trajectory spaced, with an exact square root. */
  lemma NextHistoryKeepsSpacing(h: seq<TrajectoryPoint>, s: RocketState, sqrt: real -> real)
    requires ExactSqrt(sqrt) && Spaced(h)
    ensures Spaced(NextHistory(h, s, sqrt))
  {
    if Records(h, s.position, sqrt) {
      RecordsIffFarEnough(h, s.position, sqrt);
      var g := h + [TrajectoryPoint(s.position, s.time)];
      SpacedAppend(h, TrajectoryPoint(s.position, s.time));
      SpacedLast(g, MaxHistoryPoints);
    }
  }

  /** A point far enough from the last one extends a spaced trajectory. */
  lemma SpacedAppend(h: seq<TrajectoryPoint>, p: TrajectoryPoint)
    requires Spaced(h)
    requires |h| > 0 ==> DistanceSquared(p.position, h[|h| - 1].position) >= MinPointDistance * MinPointDistance
    ensures Spaced(h + [p])
  {
    var g := h + [p];
    forall k | 0 < k < |g|
      ensures DistanceSquared(g[k].position, g[k - 1].position) >= MinPointDistance * MinPointDistance
    {
      if k < |h| {
        assert g[k] == h[k] && g[k - 1] == h[k - 1];
      }
    }
  }

  /** Dropping the oldest points keeps a trajectory spaced. */
  lemma SpacedLast(g: seq<TrajectoryPoint>, n: nat)
    requires Spaced(g)
    ensures Spaced(Last(g, n))
  {
    var r := Last(g, n);
    forall k | 0 < k < |r|
      ensures DistanceSquared(r[k].position, r[k - 1].position) >= MinPointDistance * MinPointDistance
    {
      assert r[k] == g[|g| - |r| + k] && r[k - 1] == g[|g| - |r| + k - 1];
    }
  }

  /** Flying: neither crashed, landed nor in orbit. */
  predicate Active(s: RocketState) {
    !s.crashed && !s.landed && !s.inOrbit
  }

  /** An active vehicle is one the flight model would still step. */
  lemma ActiveIsNotTerminal(s: RocketState)
    ensures Active(s) ==> !Terminal(s)
    ensures Active(s) <==> !Terminal(s) && !s.inOrbit
  {
  }

  class RocketData {
    const id: string
    var name: string
    var currentState: RocketState
    var config: RocketConfig
    var history: seq<TrajectoryPoint>
    var lastUpdateTime: real

    ghost predicate Valid()
      reads this
    {
      |history| <= MaxHistoryPoints
    }

    /** RocketData(id, name, color): no state, no trajectory yet. The colour
        is not part of this model. */
    constructor (id: string, name: string)
      ensures Valid()
      ensures this.id == id && this.name == name
      ensures currentState == ZeroState && config == ZeroConfig
      ensures history == [] && lastUpdateTime == 0.0
    {
      this.id := id;
      this.name := name;
      currentState := ZeroState;
      config := ZeroConfig;
      history := [];
      lastUpdateTime := 0.0;
    }

    /** updateState: the state is always replaced; the trajectory grows by
        the state's position and time only under the spacing rule, then is
        trimmed to its capacity from the front. */
    method UpdateState(state: RocketState, now: real, sqrt: real -> real)
      requires Valid()
      modifies this
      ensures Valid()
      ensures currentState == state && lastUpdateTime == now
      ensures history == NextHistory(old(history), state, sqrt)
      ensures name == old(name) && config == old(config)
    {
      currentState := state;
      lastUpdateTime := now;

      var point := TrajectoryPoint(state.position, state.time);

      if |history| > 0 {
        var last := history[|history| - 1];
        var dist := sqrt(DistanceSquared(state.position, last.position));
        if dist < MinPointDistance {
          return;
        }
      }

      history := history + [point];
      TrimHistory();
    }

    /** The pop_front loop of updateState: drop the oldest points until at
        most MaxHistoryPoints remain. */
    method TrimHistory()
      modifies this
      ensures history == Last(old(history), MaxHistoryPoints)
      ensures currentState == old(currentState) && lastUpdateTime == old(lastUpdateTime)
      ensures name == old(name) && config == old(config)
    {
      while |history| > MaxHistoryPoints
        invariant |history| <= |old(history)| && history == old(history)[|old(history)| - |history|..]
        invariant |history| >= MaxHistoryPoints || history == old(history)
        invariant currentState == old(currentState) && lastUpdateTime == old(lastUpdateTime)
        invariant name == old(name) && config == old(config)
        decreases |history|
      {
        history := history[1..];
      }
    }

    /** setConfig: the name follows the configuration's name. */
    method SetConfig(config: RocketConfig)
      modifies this
      ensures this.config == config && name == config.name
      ensures currentState == old(currentState) && history == old(history)
      ensures lastUpdateTime == old(lastUpdateTime)
    {
      this.config := config;
      name := config.name;
    }

    /** isActive. */
    function IsActive(): (b: bool)
      reads this
      ensures b <==> !Terminal(currentState) && !currentState.inOrbit
    {
      Active(currentState)
    }
  }
}
