/**
 * The per-character state machine of the history simulation: an actor's
 * runtime state (its character, its city, its action weights), how Move,
 * Death and Encounter rewrite it, and whom an Encounter can pick.
 */
module Actors {
  import opened Wrappers
  import opened Entities
  import opened Weights

  /** Runtime state of one actor; `weights` are its Move, Death, Encounter, Idle weights. */
  datatype CharacterState = CharacterState(character: CharacterId, city: CityId, weights: seq<nat>)

  function Max(a: nat, b: nat): nat { if a < b then b else a }

  /** Move and Encounter start at half the roster (at least 1); Death and Idle at 0. */
  const InitialWeights: seq<nat> := [Max(NumCharacters / 2, 1), 0, Max(NumCharacters / 2, 1), 0]

  /**
   * The weights every actor keeps: four of them, Death never weighted, never
   * all zero, and Idle weighted only in the idle-only collapse.
   */
  predicate WeightsOk(w: seq<nat>)
  {
    |w| == 4 && w[Death] == 0 && Total(w) > 0 && (w == IdleOnly || w[Idle] == 0)
  }

  /** An actor in the end city never weights Move. */
  predicate StateOk(s: CharacterState)
  {
    WeightsOk(s.weights) && (s.city == LastCityId ==> s.weights[Move] == 0)
  }

  /** An actor that has not collapsed to Idle. */
  predicate Active(s: CharacterState)
  {
    s.weights != IdleOnly
  }

  /** The state a character starts the history in: the start city and the initial weights. */
  function InitialState(c: CharacterId, start: CityId): (s: CharacterState)
    requires start != LastCityId
    ensures StateOk(s) && Active(s) && s.weights == [3, 0, 3, 0]
  {
    TotalOfFour(InitialWeights);
    CharacterState(c, start, InitialWeights)
  }

  /**
   * The state after moving to `dest`, where `population` characters were
   * before the move: Move is weighted half that population (0 at the end
   * city), Encounter half that population.
   */
  function AfterMove(s: CharacterState, dest: CityId, population: nat): (r: CharacterState)
    ensures r.character == s.character && r.city == dest && Total(r.weights) > 0
  {
    var newProb := if dest == LastCityId then 0 else population / 2;
    s.(city := dest, weights := UpdateOrIdle(s.weights, [(Move, newProb), (Encounter, population / 2)]))
  }

  /** The state after dying: Idle with certainty. */
  function AfterDeath(s: CharacterState): (r: CharacterState)
    ensures r.character == s.character && r.city == s.city && Total(r.weights) > 0
    ensures forall a :: 0 <= a < |r.weights| && r.weights[a] > 0 ==> a == Idle
  {
    s.(weights := IdleOnly)
  }

  /** The state after an encounter: no further Encounter until the next move. */
  function AfterEncounter(s: CharacterState): (r: CharacterState)
    ensures r.character == s.character && r.city == s.city && Total(r.weights) > 0
  {
    s.(weights := UpdateOrIdle(s.weights, [(Encounter, 0)]))
  }

  lemma AssignTwo(w: seq<nat>, a: nat, b: nat)
    requires |w| == 4
    ensures Assign(w, [(Move, a), (Encounter, b)]) == [a, w[1], b, w[3]]
  {
    var ups: seq<(nat, nat)> := [(Move, a), (Encounter, b)];
    var last: seq<(nat, nat)> := [(Encounter, b)];
    var none: seq<(nat, nat)> := [];
    assert ValidUpdates(ups, 4);
    assert ups[1..] == last && last[1..] == none;
    var w1 := w[Move := a];
    assert Assign(w, ups) == Assign(w1, last);
    assert Assign(w1, last) == Assign(w1[Encounter := b], none);
    assert w1[Encounter := b] == [a, w[1], b, w[3]];
  }

  lemma AssignOne(w: seq<nat>, b: nat)
    requires |w| == 4
    ensures Assign(w, [(Encounter, b)]) == [w[0], w[1], b, w[3]]
  {
    assert |[(Encounter, b)][1..]| == 0;
  }

  /**
   * A move keeps the actor invariant; an active actor collapses to Idle
   * exactly when fewer than two characters were at the destination, and
   * otherwise takes the weights of the destination.
   */
  lemma {:induction false} MoveOutcome(s: CharacterState, dest: CityId, population: nat)
    requires StateOk(s) && Active(s)
    ensures StateOk(AfterMove(s, dest, population))
    ensures AfterMove(s, dest, population).city == dest
    ensures !Active(AfterMove(s, dest, population)) <==> population < 2
    ensures population >= 2 ==> AfterMove(s, dest, population).weights
                                 == [if dest == LastCityId then 0 else population / 2, 0, population / 2, 0]
  {
    var newProb := if dest == LastCityId then 0 else population / 2;
    var w' := [newProb, 0, population / 2, 0];
    AssignTwo(s.weights, newProb, population / 2);
    TotalOfFour(w');
    TotalOfFour(IdleOnly);
  }

  /**
   * An encounter keeps the actor invariant; an active actor collapses to
   * Idle exactly when its Move weight is zero, and otherwise only loses its
   * Encounter weight.
   */
  lemma {:induction false} EncounterOutcome(s: CharacterState)
    requires StateOk(s) && Active(s)
    ensures StateOk(AfterEncounter(s)) && AfterEncounter(s).city == s.city
    ensures !Active(AfterEncounter(s)) <==> s.weights[Move] == 0
    ensures s.weights[Move] > 0 ==> AfterEncounter(s).weights == s.weights[Encounter := 0]
  {
    var w := s.weights;
    AssignOne(w, 0);
    TotalOfFour([w[0], w[1], 0, w[3]]);
    TotalOfFour(IdleOnly);
  }

  /** A death keeps the actor invariant and leaves it idle forever. */
  lemma DeathOutcome(s: CharacterState)
    requires StateOk(s)
    ensures StateOk(AfterDeath(s)) && !Active(AfterDeath(s)) && AfterDeath(s).city == s.city
  {
    TotalOfFour(IdleOnly);
  }

  /**
   * What a sample can be: never Death; only Idle for a collapsed actor; and
   * Move only away from the end city.
   */
  lemma SampleOutcome(s: CharacterState, draw: nat)
    requires StateOk(s)
    ensures Sample(s.weights, draw) != Death
    ensures !Active(s) ==> Sample(s.weights, draw) == Idle
    ensures Sample(s.weights, draw) == Move ==> s.city != LastCityId
  {
    if !Active(s) {
      IdleOnlySamplesIdle(draw);
    }
  }

  /** The characters of a city other than `self`, in order. */
  function Others(population: seq<CharacterId>, self: CharacterId): (r: seq<CharacterId>)
    ensures forall x :: x in r <==> x in population && x != self
    ensures |r| <= |population|
  {
    if population == [] then []
    else if population[0] == self then Others(population[1..], self)
    else [population[0]] + Others(population[1..], self)
  }

  /**
   * Whom `event_encounter` meets, as written: a random other character of
   * the city; None stands for the panic of unwrapping an empty choice.
   */
  function EncounterPartner(population: seq<CharacterId>, self: CharacterId, draw: nat): (r: Option<CharacterId>)
    ensures r.None? <==> forall x :: x in population ==> x == self
    ensures r.Some? ==> r.value in population && r.value != self
  {
    var others := Others(population, self);
    if others == [] then None
    else
      assert others[0] in population;
      Some(others[draw % |others|])
  }
}
