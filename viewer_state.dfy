/** The viewer's table of vehicles and the tracked id
    (Graphic/src/data/simulation_state.cpp). Each operation runs under the
    table's lock and is modelled as one atomic step. */
module ViewerState {
  import opened Wire
  import opened Collections
  import opened ViewerRocket

  /** A launch site; its Cartesian position is not part of this model. */
  datatype Cosmodrome = Cosmodrome(name: string, latitude: real, longitude: real)

  /** The launch sites initCosmodromes lists, in its order. */
  const LaunchSites: seq<Cosmodrome> := [
    Cosmodrome("Baikonur", 45.965, 63.305),
    Cosmodrome("Cape Canaveral", 28.573, -80.649),
    Cosmodrome("Kourou", 5.239, -52.768),
    Cosmodrome("Vostochny", 51.884, 128.333)]

  class SimulationState {
    var rockets: map<string, RocketData>
    var trackedId: string
    var cosmodromes: seq<Cosmodrome>

    /** Every entry is stored under its own id and keeps its trajectory
        bound; distinct ids therefore hold distinct objects. */
    ghost predicate Valid()
      reads this, rockets.Values
    {
      forall k :: k in rockets ==> rockets[k].id == k && rockets[k].Valid()
    }

    /** SimulationState(): no vehicles, nothing tracked, the four sites. */
    constructor ()
      ensures Valid()
      ensures rockets == map[] && trackedId == ""
      ensures cosmodromes == LaunchSites
      ensures |cosmodromes| == 4
      ensures [cosmodromes[0].name, cosmodromes[1].name, cosmodromes[2].name, cosmodromes[3].name] ==
              ["Baikonur", "Cape Canaveral", "Kourou", "Vostochny"]
    {
      rockets := map[];
      trackedId := "";
      cosmodromes := [];
      new;
      InitCosmodromes();
    }

    /** initCosmodromes: appends the four sites in order. */
    method InitCosmodromes()
      modifies this
      ensures cosmodromes == old(cosmodromes) + LaunchSites
      ensures rockets == old(rockets) && trackedId == old(trackedId)
    {
      cosmodromes := cosmodromes + [Cosmodrome("Baikonur", 45.965, 63.305)];
      cosmodromes := cosmodromes + [Cosmodrome("Cape Canaveral", 28.573, -80.649)];
      cosmodromes := cosmodromes + [Cosmodrome("Kourou", 5.239, -52.768)];
      cosmodromes := cosmodromes + [Cosmodrome("Vostochny", 51.884, 128.333)];
    }

    /** addRocket: a known id is left as it is, with its first name and
        configuration; a new id gets a fresh entry whose name is the
        configuration's name. */
    method AddRocket(id: string, name: string, config: RocketConfig)
      requires Valid()
      modifies this
      ensures Valid()
      ensures trackedId == old(trackedId) && cosmodromes == old(cosmodromes)
      ensures id in old(rockets) ==> rockets == old(rockets)
      ensures id !in old(rockets) ==>
              && rockets.Keys == old(rockets).Keys + {id}
              && (forall k :: k in old(rockets) ==> rockets[k] == old(rockets)[k])
              && fresh(rockets[id])
              && rockets[id].config == config && rockets[id].name == config.name
              && rockets[id].currentState == ZeroState && rockets[id].history == []
    {
      if id in rockets {
        return;
      }
      var rocket := new RocketData(id, name);
      rocket.SetConfig(config);
      rockets := rockets[id := rocket];
    }

    /** updateRocket: only an existing entry changes; an unknown id is
        ignored and nothing is inserted. */
    method UpdateRocket(id: string, state: RocketState, now: real, sqrt: real -> real)
      requires Valid()
      modifies if id in rockets then {rockets[id]} else {}
      ensures Valid()
      ensures rockets == old(rockets)
      ensures id in rockets ==>
              && rockets[id].currentState == state
              && rockets[id].history == NextHistory(old(rockets[id].history), state, sqrt)
              && rockets[id].config == old(rockets[id].config)
              && rockets[id].name == old(rockets[id].name)
    {
      if id in rockets {
        var rocket := rockets[id];
        rocket.UpdateState(state, now, sqrt);
        forall k | k in rockets
          ensures rockets[k].id == k && rockets[k].Valid()
        {
          if k != id {
            assert rockets[k] != rocket;
          }
        }
      }
    }

    /** removeRocket: erases the id and clears the tracked id exactly when it
        is the removed one. */
    method RemoveRocket(id: string)
      requires Valid()
      modifies this
      ensures Valid()
      ensures rockets == old(rockets) - {id}
      ensures trackedId == (if old(trackedId) == id then "" else old(trackedId))
      ensures cosmodromes == old(cosmodromes)
    {
      rockets := rockets - {id};
      if trackedId == id {
        trackedId := "";
      }
    }

    /** getRocket. */
    method GetRocket(id: string) returns (r: RocketData?)
      requires Valid()
      ensures r != null <==> id in rockets
      ensures r != null ==> r == rockets[id] && r.id == id
    {
      if id in rockets {
        return rockets[id];
      }
      return null;
    }

    /** getAllRockets: every entry exactly once, in map order. */
    method GetAllRockets() returns (list: seq<RocketData>)
      requires Valid()
      ensures |list| == |rockets|
      ensures forall i :: 0 <= i < |list| ==> list[i].id in rockets && rockets[list[i].id] == list[i]
      ensures forall k :: k in rockets ==> rockets[k] in list
      ensures forall i, j :: 0 <= i < j < |list| ==> list[i] != list[j]
    {
      var order := Enumerate(rockets.Keys);
      EnumerationSize(order, rockets.Keys);
      list := [];
      for n := 0 to |order|
        invariant |list| == n
        invariant forall i :: 0 <= i < n ==> list[i] == rockets[order[i]]
      {
        list := list + [rockets[order[n]]];
      }
      forall k | k in rockets
        ensures rockets[k] in list
      {
        var i :| 0 <= i < |order| && order[i] == k;
        assert list[i] == rockets[k];
      }
    }

    /** getRocketCount. */
    method GetRocketCount() returns (n: nat)
      ensures n == |rockets|
    {
      n := |rockets|;
    }

    /** setTrackedRocket: any id is accepted, present or not. */
    method SetTrackedRocket(id: string)
      modifies this
      ensures trackedId == id
      ensures rockets == old(rockets) && cosmodromes == old(cosmodromes)
    {
      trackedId := id;
    }

    /** getTrackedRocket: null when nothing is tracked or the tracked id has
        no entry. */
    method GetTrackedRocket() returns (r: RocketData?)
      requires Valid()
      ensures r == null <==> trackedId == "" || trackedId !in rockets
      ensures r != null ==> r == rockets[trackedId] && r.id == trackedId
    {
      if trackedId == "" {
        return null;
      }
      if trackedId in rockets {
        return rockets[trackedId];
      }
      return null;
    }
  }
}
