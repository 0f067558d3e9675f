/**
 * The world of the history simulation: the settlement graph built layer by
 * layer, the id-allocating ledger of cities, characters and events, and the
 * tick loop that lets every character act once per tick.
 */
module WorldModel {
  import opened Wrappers
  import opened Entities
  import opened Weights
  import opened Actors
  import opened Population
  import opened Ledger
  import opened Layout
  import opened Histories

  /** The actions in weight order. */
  const ListEvents: seq<EventType> := [EventMove, EventDeath, EventEncounter, EventIdle]

  lemma ListEventsInOrder()
    ensures |ListEvents| == 4
    ensures ListEvents[Move] == EventMove && ListEvents[Death] == EventDeath
    ensures ListEvents[Encounter] == EventEncounter && ListEvents[Idle] == EventIdle
  {
  }

  /** The character `generate_world` adds six times: named "test", with placeholder pronouns. */
  const Placeholder: Character := NewCharacter("test", Pronouns("pn1", "pn2", "pn3"))

  /**
   * The events the history logs: a move (or a death, logged as a move) of
   * one character, or an encounter of two different characters; none has
   * an end or overlapping events yet.
   */
  predicate HistoryEvent(e: Event)
  {
    e.endTime == None && e.eventsHappeningDuring == [] && e.summary == "" &&
    ((e.eventType == EventMove && |e.characters| == 1) ||
     (e.eventType == EventEncounter && |e.characters| == 2 && e.characters[0] != e.characters[1]))
  }

  /** The actors of the roster: actor i is character i, in one of `cities`, with the weights actors keep. */
  ghost predicate Roster(states: seq<CharacterState>, cities: set<CityId>)
  {
    |states| == NumCharacters && RosterOrdered(states) &&
    forall i :: 0 <= i < |states| ==> StateOk(states[i]) && states[i].city in cities
  }

  /** The log `after` keeps every event of `before` and adds only history events started by `time`. */
  ghost predicate LogGrows(before: map<EventId, Event>, after: map<EventId, Event>, time: nat)
  {
    (forall e :: e in before ==> e in after && after[e] == before[e]) &&
    (forall e :: e in after && e !in before ==> HistoryEvent(after[e]) && after[e].startTime <= time)
  }

  /** Replacing one actor by its successor, same character, keeps the roster. */
  lemma TurnKeepsRoster(states: seq<CharacterState>, i: nat, next: CharacterState, cities: set<CityId>)
    requires Roster(states, cities) && i < |states|
    requires StateOk(next) && next.character == states[i].character && next.city in cities
    ensures Roster(states[i := next], cities)
  {
  }

  /** The actors at the beginning of the history, in character order: all in `start`, with the initial weights. */
  method InitialStates(start: CityId) returns (states: seq<CharacterState>)
    requires start != LastCityId
    ensures states == Crowd(NumCharacters, start)
    ensures |states| == NumCharacters
    ensures forall i :: 0 <= i < |states| ==> states[i] == InitialState(i, start)
  {
    states := [];
    var charId := 0;
    while charId < NumCharacters
      invariant 0 <= charId <= NumCharacters && states == Crowd(charId, start)
    {
      states := states + [InitialState(charId, start)];
      charId := charId + 1;
    }
  }

  /** Every character in the start city with the initial weights is a roster. */
  lemma InitialRoster(states: seq<CharacterState>, start: CityId, cities: set<CityId>)
    requires start in cities && start != LastCityId
    requires |states| == NumCharacters && forall i :: 0 <= i < |states| ==> states[i] == InitialState(i, start)
    ensures Roster(states, cities)
  {
  }

  /** The snapshot of a roster lists only characters of the roster, under every city. */
  lemma SnapshotOfRoster(cities: set<CityId>, states: seq<CharacterState>, populations: map<CityId, seq<CharacterId>>)
    requires Roster(states, cities) && populations == Snapshot(cities, states)
    ensures populations.Keys == cities
    ensures forall c, x :: c in populations && x in populations[c] ==> x < NumCharacters
  {
    SnapshotPartitions(cities, states);
    forall c, x | c in populations && x in populations[c] ensures x < NumCharacters {
      CharactersInCityExactly(c, states);
      assert x in CharactersInCity(c, states);
    }
  }

  function Min(a: nat, b: nat): nat { if a < b then a else b }

  lemma StartedByLater(events: map<EventId, Event>, time: nat, later: nat)
    requires StartedBy(events, time) && time <= later
    ensures StartedBy(events, later)
  {
  }

  lemma LogGrowsReflexive(log: map<EventId, Event>, time: nat)
    ensures LogGrows(log, log, time)
  {
  }

  lemma LogGrowsLater(before: map<EventId, Event>, after: map<EventId, Event>, time: nat, later: nat)
    requires LogGrows(before, after, time) && time <= later
    ensures LogGrows(before, after, later)
  {
  }

  lemma LogGrowsTransitive(a: map<EventId, Event>, b: map<EventId, Event>, c: map<EventId, Event>, time: nat)
    requires LogGrows(a, b, time) && LogGrows(b, c, time)
    ensures LogGrows(a, c, time)
  {
  }

  /** The keys of `m` are exactly the ids below `n`. */
  ghost predicate Dense<T>(m: map<nat, T>, n: nat)
  {
    forall k: nat :: k in m <==> k < n
  }

  /** Recording event `id` under the next event id keeps the ids dense, the lists indexed and the roads as they were. */
  lemma RecordKeepsValid(characters: map<CharacterId, Character>, cities: map<CityId, City>,
                         events: map<EventId, Event>, numCharacters: nat, numCities: nat,
                         id: EventId, event: Event, place: CityId)
    requires Consistent(cities, characters, events, numCities, numCharacters, id)
    requires forall p :: p in event.characters ==> p in characters
    requires |event.characters| > 0 ==> place in cities
    ensures Consistent(Host(cities, place, |event.characters|, id), Enroll(characters, event.characters, id),
                       events[id := event], numCities, numCharacters, id + 1)
    ensures Roads(Host(cities, place, |event.characters|, id)) == Roads(cities)
  {
    RecordKeepsIndexed(characters, cities, events, id, event, place);
    HostKeepsNeighbours(cities, place, |event.characters|, id);
  }

  /** Recording event `id`, with distinct participants, keeps the lists in time order up to its start. */
  lemma RecordKeepsOrder(characters: map<CharacterId, Character>, events: map<EventId, Event>, id: EventId, event: Event)
    requires Dense(events, id)
    requires forall p :: p in event.characters ==> p in characters
    ensures Distinct(event.characters) && Chronological(characters, events) && StartedBy(events, event.startTime)
            ==> Chronological(Enroll(characters, event.characters, id), events[id := event]) &&
                StartedBy(events[id := event], event.startTime)
  {
    if Distinct(event.characters) && Chronological(characters, events) && StartedBy(events, event.startTime) {
      RecordKeepsChronological(characters, events, id, event, event.startTime);
    }
  }

  /**
   * Ids are handed out densely from 0 by each counter, and the ledger and
   * the character and city event lists agree.
   */
  ghost predicate Consistent(cities: map<CityId, City>, characters: map<CharacterId, Character>,
                             events: map<EventId, Event>, numCities: nat, numCharacters: nat, numEvents: nat)
  {
    Dense(cities, numCities) && Dense(characters, numCharacters) && Dense(events, numEvents) &&
    Indexed(characters, cities, events)
  }

  /**
   * A graph without dead ends, a whole roster of actors in its cities
   * `keys`, and `populations` the snapshot of the actors.
   */
  ghost predicate Live(g: Graph, keys: set<CityId>, numCharacters: nat, states: seq<CharacterState>,
                       populations: map<CityId, seq<CharacterId>>)
  {
    NoDeadEnds(g) && numCharacters >= NumCharacters &&
    Roster(states, keys) && populations == Snapshot(keys, states)
  }

  class World {
    var cities: map<CityId, City>
    var characters: map<CharacterId, Character>
    var events: map<EventId, Event>
    var cityIdCounter: nat
    var eventIdCounter: nat
    var characterIdCounter: nat
    /** The cities of each of the five layers, start city first, end city last. */
    const layers: array<seq<CityId>>

    /** Five layers, and the ledger is consistent. */
    ghost predicate Valid()
      reads this
    {
      layers.Length == NumLayers &&
      Consistent(cities, characters, events, cityIdCounter, characterIdCounter, eventIdCounter)
    }

    /** The settlement graph: each city's outbound edges. */
    ghost function Network(): Graph
      reads this
    {
      Roads(cities)
    }

    /** The ledger, as a value. */
    ghost function Book(): Chronicle
      reads this
    {
      Chronicle(characters, cities, events, eventIdCounter)
    }

    /** The cities, the layers and the next city id, as a value. */
    ghost function Current(): Draft
      reads this, layers
    {
      Draft(cities, layers[..], cityIdCounter)
    }

    /** The graph has the layered shape the builder produces. */
    ghost predicate Shaped()
      reads this, layers
    {
      WellLayered(Network(), layers[..])
    }

    /** Every character's event list is in time order and no event starts after `time`. */
    ghost predicate OrderedUpTo(time: nat)
      reads this
    {
      Chronological(characters, events) && StartedBy(events, time)
    }

    /**
     * The world while the history runs: valid, without dead ends, with the
     * whole roster, and `populations` the snapshot of the actors `states`.
     */
    ghost predicate Running(states: seq<CharacterState>, populations: map<CityId, seq<CharacterId>>)
      reads this
    {
      Valid() && Live(Network(), cities.Keys, characterIdCounter, states, populations)
    }

    /** `World::new`: an empty world. */
    constructor ()
      ensures Valid() && fresh(layers)
      ensures cities == map[] && characters == map[] && events == map[]
      ensures cityIdCounter == 0 && eventIdCounter == 0 && characterIdCounter == 0
      ensures layers[..] == [[], [], [], [], []]
    {
      cities, characters, events := map[], map[], map[];
      cityIdCounter, eventIdCounter, characterIdCounter := 0, 0, 0;
      layers := new seq<CityId>[NumLayers](_ => []);
    }

    /** `add_city`: a fresh city with the drawn name under the next city id. */
    method AddCity(name: Syllables) returns (id: CityId)
      requires Valid() && ValidSyllables(name)
      modifies this
      ensures Valid()
      ensures id == old(cityIdCounter) && cityIdCounter == id + 1 && id !in old(cities)
      ensures cities == old(cities)[id := NewCity(NameGen(name))]
      ensures Network() == old(Network())[id := []]
      ensures characters == old(characters) && events == old(events)
      ensures characterIdCounter == old(characterIdCounter) && eventIdCounter == old(eventIdCounter)
    {
      id := cityIdCounter;
      cityIdCounter := cityIdCounter + 1;
      var cityName := NameGen(name);
      var city := NewCity(cityName);
      cities := cities[id := city];
    }

    /** `connect_cities`: a directed edge from `id1` to `id2`; `id2` and every other city are unchanged. */
    method ConnectCities(id1: CityId, id2: CityId)
      requires Valid() && id1 in cities
      modifies this
      ensures Valid()
      ensures cities == old(cities)[id1 := old(cities)[id1].(neighbours := old(cities)[id1].neighbours + [id2])]
      ensures Network() == old(Network())[id1 := old(Network())[id1] + [id2]]
      ensures characters == old(characters) && events == old(events)
      ensures cityIdCounter == old(cityIdCounter) && characterIdCounter == old(characterIdCounter)
      ensures eventIdCounter == old(eventIdCounter)
    {
      var city1 := cities[id1];
      cities := cities[id1 := city1.(neighbours := city1.neighbours + [id2])];
    }

    /** `add_character`: a fresh character without events under the next character id. */
    method AddCharacter(name: string, pronouns: Pronouns) returns (id: CharacterId)
      requires Valid()
      modifies this
      ensures Valid()
      ensures id == old(characterIdCounter) && characterIdCounter == id + 1 && id !in old(characters)
      ensures characters == old(characters)[id := NewCharacter(name, pronouns)]
      ensures cities == old(cities) && events == old(events)
      ensures cityIdCounter == old(cityIdCounter) && eventIdCounter == old(eventIdCounter)
    {
      id := characterIdCounter;
      characterIdCounter := characterIdCounter + 1;
      var character := NewCharacter(name, pronouns);
      characters := characters[id := character];
    }

    /** A loop of `connect_cities` calls: an edge from `id` to each of `targets`, in order. */
    method LinkCity(id: CityId, targets: seq<CityId>)
      requires Valid() && id in cities
      modifies this
      ensures Valid()
      ensures cities == old(cities)[id := old(cities)[id].(neighbours := old(cities)[id].neighbours + targets)]
      ensures Network() == old(Network())[id := old(Network())[id] + targets]
      ensures characters == old(characters) && events == old(events)
      ensures cityIdCounter == old(cityIdCounter) && characterIdCounter == old(characterIdCounter)
      ensures eventIdCounter == old(eventIdCounter)
    {
      ghost var city := cities[id];
      var k := 0;
      assert city.neighbours + targets[..k] == city.neighbours;
      while k < |targets|
        invariant 0 <= k <= |targets| && Valid()
        invariant cities == old(cities)[id := city.(neighbours := city.neighbours + targets[..k])]
        invariant Network() == old(Network())[id := city.neighbours + targets[..k]]
        invariant characters == old(characters) && events == old(events)
        invariant cityIdCounter == old(cityIdCounter) && characterIdCounter == old(characterIdCounter)
        invariant eventIdCounter == old(eventIdCounter)
      {
        assert city.neighbours + targets[..k + 1] == city.neighbours + targets[..k] + [targets[k]];
        ConnectCities(id, targets[k]);
        k := k + 1;
      }
      assert targets[..k] == targets;
    }

    /**
     * `add_event`: logs a new event under the next event id, pushes the id
     * onto the list of each participant and, once per participant, onto the
     * list of `place`.
     */
    method AddEvent(participants: seq<CharacterId>, startTime: nat, endTime: Option<nat>,
                    eventType: EventType, place: CityId, summary: string) returns (id: EventId)
      requires Valid()
      requires forall p :: p in participants ==> p in characters
      requires |participants| > 0 ==> place in cities
      modifies this
      ensures Valid()
      ensures id == old(eventIdCounter) && eventIdCounter == id + 1 && id !in old(events)
      ensures Book() == Logged(old(Book()), participants, startTime, endTime, eventType, place, summary)
      ensures events == old(events)[id := NewEvent(participants, startTime, endTime, eventType, summary)]
      ensures characters == Enroll(old(characters), participants, id)
      ensures cities == Host(old(cities), place, |participants|, id)
      ensures Network() == old(Network())
      ensures cityIdCounter == old(cityIdCounter) && characterIdCounter == old(characterIdCounter)
      ensures Distinct(participants) && old(OrderedUpTo(startTime)) ==> OrderedUpTo(startTime)
    {
      id := eventIdCounter;
      eventIdCounter := eventIdCounter + 1;
      var event := NewEvent(participants, startTime, endTime, eventType, summary);
      PushIds(event.characters, place, id);
      events := events[id := event];

      RecordKeepsValid(old(characters), old(cities), old(events), characterIdCounter, cityIdCounter, id, event, place);
      RecordKeepsOrder(old(characters), old(events), id, event);
    }

    /**
     * The loop of `add_event`: `id` is pushed onto the list of each
     * participant in turn and, once per participant, onto the list of `place`.
     */
    method PushIds(participants: seq<CharacterId>, place: CityId, id: EventId)
      requires forall p :: p in participants ==> p in characters
      requires |participants| > 0 ==> place in cities
      modifies this
      ensures characters == Enroll(old(characters), participants, id)
      ensures cities == Host(old(cities), place, |participants|, id)
      ensures events == old(events) && eventIdCounter == old(eventIdCounter)
      ensures cityIdCounter == old(cityIdCounter) && characterIdCounter == old(characterIdCounter)
    {
      var k := 0;
      while k < |participants|
        invariant 0 <= k <= |participants|
        invariant characters == Enroll(old(characters), participants[..k], id)
        invariant cities == Host(old(cities), place, k, id)
        invariant events == old(events) && eventIdCounter == old(eventIdCounter)
        invariant cityIdCounter == old(cityIdCounter) && characterIdCounter == old(characterIdCounter)
      {
        assert participants[..k + 1][..k] == participants[..k];
        var charId := participants[k];
        var character := characters[charId];
        characters := characters[charId := character.(events := character.events + [id])];

        var city := cities[place];
        HostStep(old(cities), place, k, id);
        cities := cities[place := city.(events := city.events + [id])];
        k := k + 1;
      }
      assert participants[..k] == participants;
    }

    /**
     * `event_move`: the character walks to one of the neighbours of its
     * city, takes the weights that the destination's population before the
     * move gives, and a move is logged at the destination.
     */
    method EventMove(time: nat, state: CharacterState, draw: nat, populations: map<CityId, seq<CharacterId>>)
      returns (next: CharacterState)
      requires Valid()
      requires state.city in cities && |cities[state.city].neighbours| > 0
      requires forall d :: d in cities[state.city].neighbours ==> d in cities && d in populations
      requires state.character in characters
      modifies this
      ensures Valid() && Network() == old(Network())
      ensures next.city in old(cities[state.city].neighbours)
      ensures next.city == old(cities[state.city].neighbours)[draw % |old(cities[state.city].neighbours)|]
      ensures next == AfterMove(state, next.city, |populations[next.city]|)
      ensures Book() == Happened(old(Book()), [state.character], time, EventType.EventMove, next.city)
      ensures eventIdCounter == old(eventIdCounter) + 1
      ensures events == old(events)[old(eventIdCounter) := NewEvent([state.character], time, None, EventType.EventMove, "")]
      ensures characters == Enroll(old(characters), [state.character], old(eventIdCounter))
      ensures cities == Host(old(cities), next.city, 1, old(eventIdCounter))
      ensures cityIdCounter == old(cityIdCounter) && characterIdCounter == old(characterIdCounter)
      ensures forall e :: e in old(events) ==> e in events && events[e] == old(events)[e]
      ensures forall e :: e in events && e !in old(events) ==>
                HistoryEvent(events[e]) && events[e].startTime == time && state.character in events[e].characters
      ensures old(OrderedUpTo(time)) ==> OrderedUpTo(time)
    {
      var currCity := cities[state.city];
      var nextCity := currCity.neighbours[draw % |currCity.neighbours|];
      var population := |populations[nextCity]|;
      next := AfterMove(state, nextCity, population);
      var id := AddEvent([state.character], time, None, EventType.EventMove, nextCity, "");
    }

    /** `event_death`: the character idles from now on; the death is logged, as a move, in its city. */
    method EventDeath(time: nat, state: CharacterState) returns (next: CharacterState)
      requires Valid() && state.city in cities && state.character in characters
      modifies this
      ensures Valid() && Network() == old(Network())
      ensures next == AfterDeath(state)
      ensures Book() == Happened(old(Book()), [state.character], time, EventType.EventMove, state.city)
      ensures eventIdCounter == old(eventIdCounter) + 1
      ensures events == old(events)[old(eventIdCounter) := NewEvent([state.character], time, None, EventType.EventMove, "")]
      ensures characters == Enroll(old(characters), [state.character], old(eventIdCounter))
      ensures cities == Host(old(cities), state.city, 1, old(eventIdCounter))
      ensures cityIdCounter == old(cityIdCounter) && characterIdCounter == old(characterIdCounter)
      ensures forall e :: e in old(events) ==> e in events && events[e] == old(events)[e]
      ensures forall e :: e in events && e !in old(events) ==>
                HistoryEvent(events[e]) && events[e].startTime == time && state.character in events[e].characters
      ensures old(OrderedUpTo(time)) ==> OrderedUpTo(time)
    {
      next := AfterDeath(state);
      var id := AddEvent([state.character], time, None, EventType.EventMove, state.city, "");
    }

    /**
     * `event_encounter`, corrected: the character meets one of the other
     * characters of its city, the encounter is logged there (the city's
     * list gets the id once per participant) and the character stops
     * weighting Encounter. When nobody else is in the city the turn does
     * nothing, where `event_encounter` panics.
     */
    method EventEncounter(time: nat, state: CharacterState, draw: nat, populations: map<CityId, seq<CharacterId>>)
      returns (next: CharacterState)
      requires Valid() && state.city in cities && state.city in populations && state.character in characters
      requires forall x :: x in populations[state.city] ==> x in characters
      modifies this
      ensures Valid() && Network() == old(Network())
      ensures cityIdCounter == old(cityIdCounter) && characterIdCounter == old(characterIdCounter)
      ensures var partner := EncounterPartner(populations[state.city], state.character, draw);
              partner.None? ==> next == state && unchanged(this)
      ensures var partner := EncounterPartner(populations[state.city], state.character, draw);
              partner.Some? ==>
                next == AfterEncounter(state) &&
                Book() == Happened(old(Book()), [state.character, partner.value], time, EventType.EventEncounter, state.city) &&
                eventIdCounter == old(eventIdCounter) + 1 &&
                events == old(events)[old(eventIdCounter) := NewEvent([state.character, partner.value], time, None, EventType.EventEncounter, "")] &&
                characters == Enroll(old(characters), [state.character, partner.value], old(eventIdCounter)) &&
                cities == Host(old(cities), state.city, 2, old(eventIdCounter))
      ensures forall e :: e in old(events) ==> e in events && events[e] == old(events)[e]
      ensures forall e :: e in events && e !in old(events) ==>
                HistoryEvent(events[e]) && events[e].startTime == time && state.character in events[e].characters
      ensures old(OrderedUpTo(time)) ==> OrderedUpTo(time)
    {
      var partner := EncounterPartner(populations[state.city], state.character, draw);
      if partner.None? {
        next := state;
        return;
      }
      var encountered := partner.value;
      var id := AddEvent([state.character, encountered], time, None, EventType.EventEncounter, state.city, "");
      next := AfterEncounter(state);
    }

    /**
     * One actor's turn of the tick loop of `generate_events`: the action
     * sampled from its weights is carried out. Death is never sampled, an
     * idle actor changes nothing, and every logged event is a move of the
     * actor or an encounter of the actor with someone else, at this tick.
     */
    method TakeTurn(time: nat, state: CharacterState, draw: Draw, populations: map<CityId, seq<CharacterId>>)
      returns (next: CharacterState)
      requires Valid() && NoDeadEnds(Network()) && StateOk(state)
      requires state.city in cities && state.character in characters
      requires populations.Keys == cities.Keys
      requires forall c, x :: c in populations && x in populations[c] ==> x in characters
      modifies this
      ensures Valid() && Network() == old(Network()) && cities.Keys == old(cities).Keys
      ensures characters.Keys == old(characters).Keys
      ensures cityIdCounter == old(cityIdCounter) && characterIdCounter == old(characterIdCounter)
      ensures StateOk(next) && next.character == state.character && next.city in cities
      ensures Sample(state.weights, draw.action) != Death
      ensures Sample(state.weights, draw.action) == Idle ==> next == state && unchanged(this)
      ensures !Active(state) ==> next == state && unchanged(this)
      ensures Sample(state.weights, draw.action) == Move ==>
                next.city in old(cities[state.city].neighbours) &&
                next == AfterMove(state, next.city, |populations[next.city]|)
      ensures Sample(state.weights, draw.action) == Encounter ==>
                next == if EncounterPartner(populations[state.city], state.character, draw.partner).None?
                        then state else AfterEncounter(state)
      ensures (next, Book()) == Turn(old(Book()), populations, time, state, draw)
      ensures forall e :: e in old(events) ==> e in events && events[e] == old(events)[e]
      ensures forall e :: e in events && e !in old(events) ==>
                HistoryEvent(events[e]) && events[e].startTime == time && state.character in events[e].characters
      ensures old(OrderedUpTo(time)) ==> OrderedUpTo(time)
    {
      var action := Sample(state.weights, draw.action);
      SampleOutcome(state, draw.action);
      ListEventsInOrder();
      var nextEvent := ListEvents[action];
      match nextEvent
      case EventIdle =>
        next := state;
        TurnIdles(Book(), populations, time, state, draw);
      case EventMove =>
        assert action == Move && cities[state.city].neighbours == Network()[state.city];
        TurnMoves(Book(), populations, time, state, draw);
        next := EventMove(time, state, draw.neighbour, populations);
        MoveOutcome(state, next.city, |populations[next.city]|);
      case EventDeath =>
        assert false;
      case EventEncounter =>
        assert action == Encounter;
        TurnMeets(Book(), populations, time, state, draw);
        next := EventEncounter(time, state, draw.partner, populations);
        if next != state {
          EncounterOutcome(state);
        }
    }

    /**
     * The body of the tick loop of `generate_events`: actor `i` takes its
     * turn and the population snapshot is recomputed for the new actors.
     */
    method PlayTurn(time: nat, states: seq<CharacterState>, i: nat, draw: Draw,
                    populations: map<CityId, seq<CharacterId>>)
      returns (states': seq<CharacterState>, populations': map<CityId, seq<CharacterId>>)
      requires Running(states, populations) && i < |states|
      modifies this
      ensures Running(states', populations')
      ensures Moment(states', Book()) == Play(Moment(states, old(Book())), time, i, draw)
      ensures |states'| == |states| && forall j :: 0 <= j < |states| && j != i ==> states'[j] == states[j]
      ensures Network() == old(Network()) && characters.Keys == old(characters).Keys
      ensures LogGrows(old(events), events, time)
      ensures old(OrderedUpTo(time)) ==> OrderedUpTo(time)
    {
      ghost var keys := cities.Keys;
      SnapshotOfRoster(keys, states, populations);
      var next := TakeTurn(time, states[i], draw, populations);
      TurnKeepsRoster(states, i, next, keys);
      states' := states[i := next];
      populations' := RecalculateCityPopulations(cities.Keys, populations, states');
      RecalculatedIsSnapshot(keys, populations, states', populations');
    }

    /** One tick of `generate_events`: each actor in turn takes its turn with its draw. */
    method RunTick(time: nat, states: seq<CharacterState>, populations: map<CityId, seq<CharacterId>>,
                   draws: seq<Draw>)
      returns (states': seq<CharacterState>, populations': map<CityId, seq<CharacterId>>)
      requires Running(states, populations) && |draws| == NumCharacters
      modifies this
      ensures Running(states', populations')
      ensures Ticked(Moment(states', Book()), Moment(states, old(Book())), time, draws, NumCharacters)
      ensures Network() == old(Network()) && characters.Keys == old(characters).Keys
      ensures LogGrows(old(events), events, time)
      ensures old(OrderedUpTo(time)) ==> OrderedUpTo(time)
    {
      states', populations' := states, populations;
      ghost var start := Moment(states, Book());
      TickedStart(start, time, draws);
      LogGrowsReflexive(events, time);
      var stateIndex := 0;
      while stateIndex < |states'|
        invariant 0 <= stateIndex <= |states'| == NumCharacters
        invariant Running(states', populations')
        invariant Ticked(Moment(states', Book()), start, time, draws, stateIndex)
        invariant Network() == old(Network()) && characters.Keys == old(characters).Keys
        invariant LogGrows(old(events), events, time)
        invariant old(OrderedUpTo(time)) ==> OrderedUpTo(time)
      {
        ghost var log, before := events, Moment(states', Book());
        states', populations' := PlayTurn(time, states', stateIndex, draws[stateIndex], populations');
        TickNext(start, time, draws, stateIndex, before, Moment(states', Book()));
        LogGrowsTransitive(old(events), log, events, time);
        stateIndex := stateIndex + 1;
      }
    }

    /**
     * `generate_events`: every character starts in the start city with the
     * initial weights, and ticks 0 to 10 are run in order. The graph and the
     * roster do not change, the ledger only grows by history events of those
     * ticks, and each character's list stays in time order.
     */
    method GenerateEvents(draws: seq<seq<Draw>>)
      requires Valid() && Shaped() && characterIdCounter >= NumCharacters
      requires |draws| == MaxTime + 1 && forall t :: 0 <= t < |draws| ==> |draws[t]| == NumCharacters
      modifies this
      ensures Valid() && Shaped() && Network() == old(Network())
      ensures var start := old(layers[0][0]);
              start != LastCityId && Chronicled(Book(), Beginning(start, old(Book())), draws, |draws|)
      ensures characters.Keys == old(characters).Keys
      ensures LogGrows(old(events), events, MaxTime)
      ensures old(OrderedUpTo(0)) ==> OrderedUpTo(MaxTime)
    {
      var start := layers[0][0];
      StartIsNotEnd(Network(), layers[..]);
      WellLayeredHasNoDeadEnds(Network(), layers[..]);
      var states, populations := BeginHistory(start);
      ghost var begun := Moment(states, Book());
      states, populations := RunHistory(states, populations, draws);
      RanChronicled(Moment(states, Book()), begun, draws, |draws|);
    }

    /**
     * `generate_world`: the end city, the intermediate layers from layer 3
     * down to layer 1 as `plan` describes them, the start city linked to all
     * of layer 1, then six placeholder characters; no events.
     */
    static method GenerateWorld(plan: WorldPlan) returns (world: World)
      requires ValidPlan(plan)
      ensures fresh(world) && fresh(world.layers)
      ensures world.Valid() && world.Shaped()
      ensures world.Current() == Drafted(plan)
      ensures world.characterIdCounter == NumCharacters
      ensures forall i :: i in world.characters ==> world.characters[i] == Placeholder
      ensures world.events == map[] && world.eventIdCounter == 0
    {
      world := new World();
      world.BuildCities(plan);
      world.AddRoster();
      DraftedWellLayered(plan);
    }

    /** The city part of `generate_world`: the end city, the three intermediate layers, then the start city. */
    method BuildCities(plan: WorldPlan)
      requires Valid() && ValidPlan(plan)
      requires cities == map[] && cityIdCounter == 0 && layers[..] == [[], [], [], [], []]
      modifies this, layers
      ensures Valid() && Current() == Drafted(plan)
      ensures characters == old(characters) && events == old(events)
      ensures characterIdCounter == old(characterIdCounter) && eventIdCounter == old(eventIdCounter)
    {
      AddEndCity(plan.endName);
      BuildMiddle(plan);
      var start := AddStartCity(plan.startName);
    }

    /** The first step of `generate_world`: the end city, alone in the last layer. */
    method AddEndCity(name: Syllables)
      requires Valid() && ValidSyllables(name)
      requires cities == map[] && cityIdCounter == 0 && layers[..] == [[], [], [], [], []]
      modifies this, layers
      ensures Valid() && Current() == EndDraft(name)
      ensures characters == old(characters) && events == old(events)
      ensures characterIdCounter == old(characterIdCounter) && eventIdCounter == old(eventIdCounter)
    {
      var id := AddCity(name);
      layers[NumLayers - 1] := [id];
    }

    /**
     * One city of an intermediate layer of `generate_world`: a fresh city
     * named from `p`, pushed onto layer `layer` and linked to the planned
     * cities of layer `layer + 1`.
     */
    method BuildCity(layer: nat, p: CityPlan) returns (id: CityId)
      requires Valid() && 1 <= layer <= 3
      requires ValidSyllables(p.name) && forall k :: 0 <= k < |p.links| ==> p.links[k] < |layers[layer + 1]|
      modifies this, layers
      ensures Valid() && Current() == PlaceCity(old(Current()), layer, p)
      ensures characters == old(characters) && events == old(events)
      ensures characterIdCounter == old(characterIdCounter) && eventIdCounter == old(eventIdCounter)
    {
      ghost var before := Current();
      id := AddCity(p.name);
      layers[layer] := layers[layer] + [id];
      assert layers[..] == before.layers[layer := before.layers[layer] + [id]];
      var next := layers[layer + 1];
      var targets := Targets(p.links, next);
      LinkCity(id, targets);
      assert [] + targets == targets;
      assert cities == before.cities[id := City(NameGen(p.name), targets, [])];
    }

    /** The city loop of `generate_world` for one intermediate layer: the cities of `plans`, in order. */
    method BuildLayer(layer: nat, plans: seq<CityPlan>)
      requires Valid() && 1 <= layer <= 3 && PlansFit(plans, |layers[layer + 1]|)
      modifies this, layers
      ensures Valid() && Current() == PlaceLayer(old(Current()), layer, plans)
      ensures characters == old(characters) && events == old(events)
      ensures characterIdCounter == old(characterIdCounter) && eventIdCounter == old(eventIdCounter)
    {
      ghost var start, size := Current(), |layers[layer + 1]|;
      var j := 0;
      while j < |plans|
        invariant 0 <= j <= |plans| && PlansFit(plans[..j], size)
        invariant Valid() && Current() == PlaceLayer(start, layer, plans[..j])
        invariant |layers[layer + 1]| == size
        invariant characters == old(characters) && events == old(events)
        invariant characterIdCounter == old(characterIdCounter) && eventIdCounter == old(eventIdCounter)
      {
        assert plans[..j + 1][..j] == plans[..j];
        var id := BuildCity(layer, plans[j]);
        j := j + 1;
      }
      assert plans[..j] == plans;
    }

    /** The layer loop of `generate_world`: layers 3, 2 and 1, in that order, as `plan` describes them. */
    method BuildMiddle(plan: WorldPlan)
      requires Valid() && ValidPlan(plan)
      requires |layers[4]| == 1 && layers[1] == [] && layers[2] == [] && layers[3] == []
      modifies this, layers
      ensures Valid() && Current() == PlaceMiddle(old(Current()), plan, 1)
      ensures characters == old(characters) && events == old(events)
      ensures characterIdCounter == old(characterIdCounter) && eventIdCounter == old(eventIdCounter)
    {
      var built := NumLayers - 1;
      while built > 1
        invariant 1 <= built <= 4
        invariant Valid() && Current() == PlaceMiddle(old(Current()), plan, built)
        invariant characters == old(characters) && events == old(events)
        invariant characterIdCounter == old(characterIdCounter) && eventIdCounter == old(eventIdCounter)
      {
        var layer := built - 1;
        assert |layers[built]| == NextSize(plan, layer);
        BuildLayer(layer, LayerPlan(plan, layer));
        built := layer;
      }
    }

    /** The start city of `generate_world`, alone in layer 0 and linked to every city of layer 1, in order. */
    method AddStartCity(name: Syllables) returns (start: CityId)
      requires Valid() && ValidSyllables(name)
      modifies this, layers
      ensures Valid() && Current() == PlaceStart(old(Current()), name)
      ensures characters == old(characters) && events == old(events)
      ensures characterIdCounter == old(characterIdCounter) && eventIdCounter == old(eventIdCounter)
    {
      ghost var before := Current();
      start := AddCity(name);
      layers[0] := [start];
      assert layers[..] == before.layers[0 := [start]];
      var next := layers[1];
      LinkCity(start, next);
      assert [] + next == next;
      assert cities == before.cities[start := City(NameGen(name), next, [])];
    }

    /** The character loop of `generate_world`: six placeholder characters under the next character ids. */
    method AddRoster()
      requires Valid()
      modifies this
      ensures Valid()
      ensures characterIdCounter == old(characterIdCounter) + NumCharacters
      ensures forall i :: i in characters ==>
                if i < old(characterIdCounter) then characters[i] == old(characters)[i] else characters[i] == Placeholder
      ensures cities == old(cities) && events == old(events)
      ensures cityIdCounter == old(cityIdCounter) && eventIdCounter == old(eventIdCounter)
    {
      var k := 0;
      while k < NumCharacters
        invariant 0 <= k <= NumCharacters && Valid()
        invariant characterIdCounter == old(characterIdCounter) + k
        invariant forall i :: i in characters ==>
                    if i < old(characterIdCounter) then characters[i] == old(characters)[i] else characters[i] == Placeholder
        invariant cities == old(cities) && events == old(events)
        invariant cityIdCounter == old(cityIdCounter) && eventIdCounter == old(eventIdCounter)
      {
        var pronouns := Pronouns("pn1", "pn2", "pn3");
        var id := AddCharacter("test", pronouns);
        k := k + 1;
      }
    }

    /**
     * The start of `generate_events`: every character is an actor in the
     * start city with the initial weights, and the snapshot lists them.
     */
    method BeginHistory(start: CityId) returns (states: seq<CharacterState>, populations: map<CityId, seq<CharacterId>>)
      requires Valid() && NoDeadEnds(Network()) && characterIdCounter >= NumCharacters
      requires start in cities && start != LastCityId
      ensures Running(states, populations)
      ensures Moment(states, Book()) == Beginning(start, Book())
    {
      states := InitialStates(start);
      InitialRoster(states, start, cities.Keys);
      populations := RecalculateCityPopulations(cities.Keys, map[], states);
      RecalculatedIsSnapshot(cities.Keys, map[], states, populations);
    }

    /** The ticks of `generate_events`, from the actors `states` and their snapshot `populations` on. */
    method RunHistory(states: seq<CharacterState>, populations: map<CityId, seq<CharacterId>>, draws: seq<seq<Draw>>)
      returns (states': seq<CharacterState>, populations': map<CityId, seq<CharacterId>>)
      requires Running(states, populations)
      requires |draws| == MaxTime + 1 && forall t :: 0 <= t < |draws| ==> |draws[t]| == NumCharacters
      modifies this
      ensures Valid()
      ensures Ran(Moment(states', Book()), Moment(states, old(Book())), draws, |draws|)
      ensures Network() == old(Network()) && characters.Keys == old(characters).Keys
      ensures LogGrows(old(events), events, MaxTime)
      ensures old(OrderedUpTo(0)) ==> OrderedUpTo(MaxTime)
    {
      states', populations' := states, populations;
      ghost var start := Moment(states, Book());
      RanStart(start, draws);
      LogGrowsReflexive(events, MaxTime);
      ghost var ordered := OrderedUpTo(0);
      var time := 0;
      while time <= MaxTime
        invariant time <= MaxTime + 1
        invariant Running(states', populations')
        invariant Ran(Moment(states', Book()), start, draws, time)
        invariant Network() == old(Network()) && characters.Keys == old(characters).Keys
        invariant LogGrows(old(events), events, MaxTime)
        invariant ordered ==> OrderedUpTo(Min(time, MaxTime))
      {
        ghost var log, before := events, Moment(states', Book());
        assert Min(time, MaxTime) == time;
        states', populations' := RunTick(time, states', populations', draws[time]);
        RanNext(start, draws, time, before, Moment(states', Book()));
        LogGrowsLater(log, events, time, MaxTime);
        LogGrowsTransitive(old(events), log, events, MaxTime);
        if ordered {
          StartedByLater(events, time, Min(time + 1, MaxTime));
        }
        time := time + 1;
      }
    }
  }
}
