/**
 * The population snapshot of the history simulation: which characters are in
 * which city, recomputed from the actor states after every single action.
 */
module Population {
  import opened Wrappers
  import opened Entities
  import opened Weights
  import opened Actors
  import Layout

  /** The characters whose actor is in `city`, in the order of the actor states. */
  function CharactersInCity(city: CityId, states: seq<CharacterState>): (r: seq<CharacterId>)
    ensures |r| <= |states|
    ensures forall i :: 0 <= i < |states| && states[i].city == city ==> states[i].character in r
  {
    if states == [] then []
    else
      var prefix, last := states[..|states| - 1], states[|states| - 1];
      var found := CharactersInCity(city, prefix);
      assert forall i :: 0 <= i < |prefix| ==> prefix[i] == states[i];
      found + (if last.city == city then [last.character] else [])
  }

  /** Actor `i` is the actor of character `i`, as the history sets them up. */
  predicate RosterOrdered(states: seq<CharacterState>)
  {
    forall i :: 0 <= i < |states| ==> states[i].character == i
  }

  predicate Ascending(xs: seq<nat>)
  {
    forall i, j :: 0 <= i < j < |xs| ==> xs[i] < xs[j]
  }

  /**
   * Over roster-ordered actors, a city's list holds exactly the characters
   * whose actor is in that city, in ascending id order.
   */
  lemma {:induction false} CharactersInCityExactly(city: CityId, states: seq<CharacterState>)
    requires RosterOrdered(states)
    ensures forall x: nat :: x in CharactersInCity(city, states) <==> x < |states| && states[x].city == city
    ensures Ascending(CharactersInCity(city, states))
  {
    if states != [] {
      var n := |states| - 1;
      var prefix := states[..n];
      assert RosterOrdered(prefix) by {
        forall i | 0 <= i < |prefix| ensures prefix[i].character == i {
          assert prefix[i] == states[i];
        }
      }
      CharactersInCityExactly(city, prefix);
      var before := CharactersInCity(city, prefix);
      forall i | 0 <= i < |before| ensures before[i] < n {
        assert before[i] in before;
      }
      forall x: nat ensures x in CharactersInCity(city, states) <==> x < |states| && states[x].city == city {
        if x < n {
          assert states[x] == prefix[x];
        }
      }
    }
  }

  /** `get_characters_in_city`: the filter written as a loop over the actor states. */
  method GetCharactersInCity(city: CityId, states: seq<CharacterState>) returns (charsInCity: seq<CharacterId>)
    ensures charsInCity == CharactersInCity(city, states)
  {
    charsInCity := [];
    var i := 0;
    while i < |states|
      invariant 0 <= i <= |states|
      invariant charsInCity == CharactersInCity(city, states[..i])
    {
      assert states[..i + 1][..i] == states[..i];
      if states[i].city == city {
        charsInCity := charsInCity + [states[i].character];
      }
      i := i + 1;
    }
    assert states[..i] == states;
  }

  /** The population snapshot of the given cities. */
  function Snapshot(cities: set<CityId>, states: seq<CharacterState>): (r: map<CityId, seq<CharacterId>>)
    ensures r.Keys == cities
  {
    map c | c in cities :: CharactersInCity(c, states)
  }

  /**
   * The snapshot partitions the roster: every character is listed in the
   * city its actor is in and in no other, and every list is ascending.
   */
  lemma SnapshotPartitions(cities: set<CityId>, states: seq<CharacterState>)
    requires RosterOrdered(states)
    requires forall i :: 0 <= i < |states| ==> states[i].city in cities
    ensures Snapshot(cities, states).Keys == cities
    ensures forall x :: 0 <= x < |states| ==> x in Snapshot(cities, states)[states[x].city]
    ensures forall c, x :: c in cities && x in Snapshot(cities, states)[c] ==> x < |states| && states[x].city == c
    ensures forall c :: c in cities ==> Ascending(Snapshot(cities, states)[c])
  {
    forall c | c in cities
      ensures forall x: nat :: x in CharactersInCity(c, states) <==> x < |states| && states[x].city == c
      ensures Ascending(CharactersInCity(c, states))
    {
      CharactersInCityExactly(c, states);
    }
  }

  /**
   * `recalculate_city_populations`: the list of every given city is replaced
   * by its current characters; other entries are left as they were.
   */
  method RecalculateCityPopulations(cities: set<CityId>, populations: map<CityId, seq<CharacterId>>,
                                    states: seq<CharacterState>)
    returns (updated: map<CityId, seq<CharacterId>>)
    ensures updated.Keys == populations.Keys + cities
    ensures forall c :: c in cities ==> updated[c] == CharactersInCity(c, states)
    ensures forall c :: c in populations && c !in cities ==> updated[c] == populations[c]
  {
    updated := populations;
    var remaining := cities;
    while remaining != {}
      invariant remaining <= cities
      invariant updated.Keys == populations.Keys + (cities - remaining)
      invariant forall c :: c in cities - remaining ==> updated[c] == CharactersInCity(c, states)
      invariant forall c :: c in populations && c !in cities - remaining ==> updated[c] == populations[c]
      decreases remaining
    {
      var cityId :| cityId in remaining;
      var charsInCity := GetCharactersInCity(cityId, states);
      updated := updated[cityId := charsInCity];
      remaining := remaining - {cityId};
    }
  }

  /** Recomputing every city of a snapshot that covers them gives the snapshot itself. */
  lemma RecalculatedIsSnapshot(cities: set<CityId>, populations: map<CityId, seq<CharacterId>>,
                               states: seq<CharacterState>, updated: map<CityId, seq<CharacterId>>)
    requires populations.Keys <= cities
    requires updated.Keys == populations.Keys + cities
    requires forall c :: c in cities ==> updated[c] == CharactersInCity(c, states)
    ensures updated == Snapshot(cities, states)
  {
  }

  // A history that makes `event_encounter` panic, built from the actor
  // transitions in the world the builder makes from `Layout.DemoPlan`: at
  // tick 0 characters 0 to 4 all move from start city 5 to its only
  // neighbour, city 4, so character 5, still weighted for Encounter, can
  // sample Encounter while alone in the start city.

  const DemoStart: CityId := 5
  const DemoNext: CityId := 4

  /** The six actors after characters 0 to 4 moved, each seeing those that moved before it. */
  function DemoStates(): seq<CharacterState>
  {
    [AfterMove(InitialState(0, DemoStart), DemoNext, 0),
     AfterMove(InitialState(1, DemoStart), DemoNext, 1),
     AfterMove(InitialState(2, DemoStart), DemoNext, 2),
     AfterMove(InitialState(3, DemoStart), DemoNext, 3),
     AfterMove(InitialState(4, DemoStart), DemoNext, 4),
     InitialState(5, DemoStart)]
  }

  lemma DemoStatesShape()
    ensures |DemoStates()| == NumCharacters && RosterOrdered(DemoStates())
    ensures forall i :: 0 <= i < 5 ==> DemoStates()[i].city == DemoNext
    ensures DemoStates()[5] == InitialState(5, DemoStart)
  {
  }

  lemma InitialWeightsCanSampleEncounter()
    ensures Total(InitialWeights) == 6 && Sample(InitialWeights, 3) == Encounter
  {
    var w := InitialWeights;
    assert w == [3, 0, 3, 0];
    TotalOfFour(w);
    assert w[1..] == [0, 3, 0] && w[1..][1..] == [3, 0];
    assert Pick(w[1..][1..], 0) == 0;
    assert Pick(w[1..], 0) == 1;
  }

  /** Character 5 samples Encounter while alone in the start city: the partner choice panics. */
  lemma {:induction false} LoneEncounterPanics()
    ensures Layout.ValidPlan(Layout.DemoPlan)
    ensures Layout.Drafted(Layout.DemoPlan).layers[0] == [DemoStart]
    ensures Layout.Roads(Layout.Drafted(Layout.DemoPlan).cities)[DemoStart] == [DemoNext]
    ensures RosterOrdered(DemoStates())
    ensures DemoStates()[5] == InitialState(5, DemoStart)
    ensures Snapshot(Layout.Drafted(Layout.DemoPlan).cities.Keys, DemoStates())[DemoStart] == [5]
    ensures Sample(DemoStates()[5].weights, 3) == Encounter
    ensures EncounterPartner(Snapshot(Layout.Drafted(Layout.DemoPlan).cities.Keys, DemoStates())[DemoStart], 5, 0).None?
  {
    Layout.DemoBuilt();
    var states := DemoStates();
    DemoStatesShape();
    InitialWeightsCanSampleEncounter();
    NobodyInCity(DemoStart, states[..5]);
    assert states[..|states| - 1] == states[..5];
  }

  lemma {:induction false} NobodyInCity(city: CityId, states: seq<CharacterState>)
    requires forall i :: 0 <= i < |states| ==> states[i].city != city
    ensures CharactersInCity(city, states) == []
  {
    if states != [] {
      NobodyInCity(city, states[..|states| - 1]);
    }
  }
}
