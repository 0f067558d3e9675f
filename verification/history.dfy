/**
 * The history of `generate_events` as values: what one actor's turn does to
 * the actor and to the ledger, the body of the tick loop, a tick and the
 * whole run of ticks, together with the promises the history keeps about
 * idle actors, encounters and the direction of travel.
 */
module Histories {
  import opened Wrappers
  import opened Entities
  import opened Weights
  import opened Actors
  import opened Population
  import opened Ledger
  import opened Layout

  /** The random numbers one actor draws in one tick: its action, then the neighbour or the partner it picks. */
  datatype Draw = Draw(action: nat, neighbour: nat, partner: nat)

  /** The ledger of a world: its characters, its cities, its events and the next event id. */
  datatype Chronicle = Chronicle(characters: map<CharacterId, Character>, cities: map<CityId, City>,
                                 events: map<EventId, Event>, nextEvent: nat)

  /**
   * The actors and the ledger while the history runs. The population
   * snapshot is not kept apart: between turns it is always the snapshot of
   * the actors over the cities of the ledger.
   */
  datatype Moment = Moment(states: seq<CharacterState>, book: Chronicle)

  /**
   * `add_event` on values: the event is logged under the next event id,
   * each participant's list gets the id, and the list of `place` gets it
   * once per participant. A participant or place missing from the ledger
   * (which `add_event` would unwrap and panic on) leaves the ledger alone.
   */
  function Logged(c: Chronicle, participants: seq<CharacterId>, start: nat, end: Option<nat>,
                  kind: EventType, place: CityId, summary: string): (r: Chronicle)
    ensures r.cities.Keys == c.cities.Keys && r.characters.Keys == c.characters.Keys
    ensures r.nextEvent == c.nextEvent || r.nextEvent == c.nextEvent + 1
  {
    if (forall p :: p in participants ==> p in c.characters) && (|participants| > 0 ==> place in c.cities) then
      Chronicle(Enroll(c.characters, participants, c.nextEvent), Host(c.cities, place, |participants|, c.nextEvent),
                c.events[c.nextEvent := NewEvent(participants, start, end, kind, summary)], c.nextEvent + 1)
    else c
  }

  /** A history event of the actor: no end, no summary. */
  function Happened(c: Chronicle, participants: seq<CharacterId>, time: nat, kind: EventType, place: CityId): Chronicle
  {
    Logged(c, participants, time, None, kind, place, "")
  }

  /**
   * A history event of participants and a place the ledger knows is logged
   * under the next event id, enrolled on each participant's list and hosted
   * by the place once per participant.
   */
  lemma HappenedRecords(c: Chronicle, participants: seq<CharacterId>, time: nat, kind: EventType, place: CityId)
    requires forall p :: p in participants ==> p in c.characters
    requires place in c.cities
    ensures Happened(c, participants, time, kind, place) ==
              Chronicle(Enroll(c.characters, participants, c.nextEvent),
                        Host(c.cities, place, |participants|, c.nextEvent),
                        c.events[c.nextEvent := NewEvent(participants, time, None, kind, "")],
                        c.nextEvent + 1)
  {
  }

  /**
   * One actor's turn at `time`: the action sampled from its weights is
   * carried out. Move walks to the drawn neighbour, takes the weights of
   * the destination's population before the move and logs a move there;
   * Death collapses the actor to Idle and logs a move in its city;
   * Encounter with another character of the city logs the encounter there
   * and drops the Encounter weight; Idle, and Encounter alone in the city,
   * change nothing. Weights that are all zero, or a city without
   * neighbours or without a snapshot entry, never occur in a running
   * history and change nothing here.
   */
  function Turn(c: Chronicle, populations: map<CityId, seq<CharacterId>>, time: nat, s: CharacterState, d: Draw)
    : (r: (CharacterState, Chronicle))
    ensures r.0.character == s.character
    ensures r.1.cities.Keys == c.cities.Keys && r.1.characters.Keys == c.characters.Keys
  {
    if Total(s.weights) == 0 then (s, c)
    else
      var action := Sample(s.weights, d.action);
      if action == Move then
        if s.city in c.cities && |c.cities[s.city].neighbours| > 0 then
          var ns := c.cities[s.city].neighbours;
          var dest := ns[d.neighbour % |ns|];
          var population := if dest in populations then |populations[dest]| else 0;
          (AfterMove(s, dest, population), Happened(c, [s.character], time, EventMove, dest))
        else (s, c)
      else if action == Death then
        (AfterDeath(s), Happened(c, [s.character], time, EventMove, s.city))
      else if action == Encounter then
        var present := if s.city in populations then populations[s.city] else [];
        var partner := EncounterPartner(present, s.character, d.partner);
        if partner.None? then (s, c)
        else (AfterEncounter(s), Happened(c, [s.character, partner.value], time, EventEncounter, s.city))
      else (s, c)
  }

  /**
   * The body of the tick loop: actor `i` takes its turn, reading the
   * snapshot of the actors as they stand, and replaces its old state.
   */
  function Play(m: Moment, time: nat, i: nat, d: Draw): (r: Moment)
    requires i < |m.states|
    ensures |r.states| == |m.states| && r.states[i].character == m.states[i].character
    ensures forall j :: 0 <= j < |m.states| && j != i ==> r.states[j] == m.states[j]
    ensures r.book.cities.Keys == m.book.cities.Keys
  {
    var turn := Turn(m.book, Snapshot(m.book.cities.Keys, m.states), time, m.states[i], d);
    Moment(m.states[i := turn.0], turn.1)
  }

  /** The first `k` actors of a tick, in order, each with its own draw. */
  function Tick(m: Moment, time: nat, draws: seq<Draw>, k: nat): (r: Moment)
    requires k <= |draws| && k <= |m.states|
    ensures |r.states| == |m.states| && r.book.cities.Keys == m.book.cities.Keys
    decreases k
  {
    if k == 0 then m else Play(Tick(m, time, draws, k - 1), time, k - 1, draws[k - 1])
  }

  /**
   * `m` is what the first `k` turns of the tick at `time` make of `start`,
   * that is `m == Tick(start, time, draws, k)`. The tick is named only as
   * the trigger, so that a proof about the world updated in place gets the
   * equation where it names that tick and does not unfold the tick elsewhere.
   */
  ghost predicate Ticked(m: Moment, start: Moment, time: nat, draws: seq<Draw>, k: nat)
  {
    k <= |draws| && k <= |start.states| && |m.states| == |start.states| &&
    forall j {:trigger Tick(start, time, draws, j)} :: j == k ==> m == Tick(start, time, draws, j)
  }

  /** No turns of a tick leave the moment as it was. */
  lemma TickedStart(start: Moment, time: nat, draws: seq<Draw>)
    ensures Ticked(start, start, time, draws, 0)
  {
    assert Tick(start, time, draws, 0) == start;
  }

  /** Turn `k` on top of the first `k` turns of a tick is the first `k` + 1 turns. */
  lemma TickNext(start: Moment, time: nat, draws: seq<Draw>, k: nat, before: Moment, after: Moment)
    requires k < |draws| && k < |start.states|
    requires Ticked(before, start, time, draws, k) && after == Play(before, time, k, draws[k])
    ensures Ticked(after, start, time, draws, k + 1)
  {
    assert before == Tick(start, time, draws, k);
  }

  /** Ticks 0 to `t` - 1, each a whole tick of every actor, with the draws of that tick. */
  function History(m: Moment, draws: seq<seq<Draw>>, t: nat): (r: Moment)
    requires t <= |draws| && forall u :: 0 <= u < |draws| ==> |draws[u]| == |m.states|
    ensures |r.states| == |m.states| && r.book.cities.Keys == m.book.cities.Keys
    decreases t
  {
    if t == 0 then m else Tick(History(m, draws, t - 1), t - 1, draws[t - 1], |m.states|)
  }

  /**
   * `m` is what ticks 0 to `t` - 1 make of `start`, that is
   * `m == History(start, draws, t)`, named only as the trigger as in `Ticked`.
   */
  ghost predicate Ran(m: Moment, start: Moment, draws: seq<seq<Draw>>, t: nat)
  {
    t <= |draws| && (forall u :: 0 <= u < |draws| ==> |draws[u]| == |start.states|) &&
    forall u {:trigger History(start, draws, u)} :: u == t ==> m == History(start, draws, u)
  }

  /** `c` is the ledger after ticks 0 to `t` - 1 from `start`, that is `c == History(start, draws, t).book`. */
  ghost predicate Chronicled(c: Chronicle, start: Moment, draws: seq<seq<Draw>>, t: nat)
  {
    t <= |draws| && (forall u :: 0 <= u < |draws| ==> |draws[u]| == |start.states|) &&
    forall u {:trigger History(start, draws, u)} :: u == t ==> c == History(start, draws, u).book
  }

  /** The ledger of a moment the history reaches is the ledger of that history. */
  lemma RanChronicled(m: Moment, start: Moment, draws: seq<seq<Draw>>, t: nat)
    requires Ran(m, start, draws, t)
    ensures Chronicled(m.book, start, draws, t)
  {
    assert m == History(start, draws, t);
  }

  /** Before the first tick the history is where it started. */
  lemma RanStart(start: Moment, draws: seq<seq<Draw>>)
    requires forall u :: 0 <= u < |draws| ==> |draws[u]| == |start.states|
    ensures Ran(start, start, draws, 0)
  {
    assert History(start, draws, 0) == start;
  }

  /** A whole tick on top of ticks 0 to `t` - 1 is ticks 0 to `t`. */
  lemma RanNext(start: Moment, draws: seq<seq<Draw>>, t: nat, before: Moment, after: Moment)
    requires t < |draws| && Ran(before, start, draws, t)
    requires Ticked(after, before, t, draws[t], |start.states|)
    ensures Ran(after, start, draws, t + 1)
  {
    assert before == History(start, draws, t);
    assert after == Tick(before, t, draws[t], |start.states|);
  }

  /** Characters 0 to `n` - 1, in order, each in `start` with the initial weights. */
  function Crowd(n: nat, start: CityId): (r: seq<CharacterState>)
    requires start != LastCityId
    ensures |r| == n && forall i :: 0 <= i < n ==> r[i] == InitialState(i, start)
  {
    if n == 0 then [] else Crowd(n - 1, start) + [InitialState(n - 1, start)]
  }

  /** The start of `generate_events`: every character in `start` with the initial weights. */
  function Beginning(start: CityId, c: Chronicle): (r: Moment)
    requires start != LastCityId
    ensures |r.states| == NumCharacters && r.book == c
    ensures forall i :: 0 <= i < NumCharacters ==> r.states[i] == InitialState(i, start)
  {
    Moment(Crowd(NumCharacters, start), c)
  }

  /** A turn that samples Move walks to the drawn neighbour and logs the move there. */
  lemma TurnMoves(c: Chronicle, populations: map<CityId, seq<CharacterId>>, time: nat, s: CharacterState, d: Draw)
    requires Total(s.weights) > 0 && Sample(s.weights, d.action) == Move
    requires s.city in c.cities && |c.cities[s.city].neighbours| > 0
    ensures var ns := c.cities[s.city].neighbours;
            var dest := ns[d.neighbour % |ns|];
            dest in populations ==>
              Turn(c, populations, time, s, d) ==
                (AfterMove(s, dest, |populations[dest]|), Happened(c, [s.character], time, EventMove, dest))
  {
  }

  /** A turn that samples Encounter meets the drawn partner, or does nothing when there is none. */
  lemma TurnMeets(c: Chronicle, populations: map<CityId, seq<CharacterId>>, time: nat, s: CharacterState, d: Draw)
    requires Total(s.weights) > 0 && Sample(s.weights, d.action) == Encounter && s.city in populations
    ensures var partner := EncounterPartner(populations[s.city], s.character, d.partner);
            Turn(c, populations, time, s, d) ==
              if partner.None? then (s, c)
              else (AfterEncounter(s), Happened(c, [s.character, partner.value], time, EventEncounter, s.city))
  {
  }

  /** A turn that samples Idle does nothing. */
  lemma TurnIdles(c: Chronicle, populations: map<CityId, seq<CharacterId>>, time: nat, s: CharacterState, d: Draw)
    requires Total(s.weights) > 0 && Sample(s.weights, d.action) == Idle
    ensures Turn(c, populations, time, s, d) == (s, c)
  {
  }

  // ---- What the history promises ----

  /** An Idle-only actor's turn changes neither the actor nor the ledger. */
  lemma IdleTurn(c: Chronicle, populations: map<CityId, seq<CharacterId>>, time: nat, s: CharacterState, d: Draw)
    requires s.weights == IdleOnly
    ensures Turn(c, populations, time, s, d) == (s, c)
  {
    IdleOnlySamplesIdle(d.action);
  }

  /** An Idle-only actor stays as it is for the rest of the tick. */
  lemma {:induction false} IdleThroughTick(m: Moment, time: nat, draws: seq<Draw>, k: nat, j: nat)
    requires k <= |draws| && k <= |m.states| && j < |m.states| && m.states[j].weights == IdleOnly
    ensures Tick(m, time, draws, k).states[j] == m.states[j]
    decreases k
  {
    if k > 0 {
      var before := Tick(m, time, draws, k - 1);
      IdleThroughTick(m, time, draws, k - 1, j);
      if k - 1 == j {
        IdleTurn(before.book, Snapshot(before.book.cities.Keys, before.states), time, before.states[j], draws[k - 1]);
      }
    }
  }

  /** An Idle-only actor stays as it is for the rest of the run, whatever is drawn. */
  lemma {:induction false} IdleStaysIdle(m: Moment, draws: seq<seq<Draw>>, t: nat, j: nat)
    requires t <= |draws| && forall u :: 0 <= u < |draws| ==> |draws[u]| == |m.states|
    requires j < |m.states| && m.states[j].weights == IdleOnly
    ensures History(m, draws, t).states[j] == m.states[j]
    decreases t
  {
    if t > 0 {
      IdleStaysIdle(m, draws, t - 1, j);
      IdleThroughTick(History(m, draws, t - 1), t - 1, draws[t - 1], |m.states|, j);
    }
  }

  /**
   * An active actor that meets someone logs exactly one encounter of the
   * two, in its own city, and keeps no Encounter weight: it is either
   * weighted [m, 0, 0, 0] or collapsed to Idle.
   */
  lemma EncounterTurn(c: Chronicle, populations: map<CityId, seq<CharacterId>>, time: nat, s: CharacterState, d: Draw)
    requires StateOk(s) && Active(s) && Sample(s.weights, d.action) == Encounter
    requires s.city in populations && EncounterPartner(populations[s.city], s.character, d.partner).Some?
    ensures var partner := EncounterPartner(populations[s.city], s.character, d.partner).value;
            Turn(c, populations, time, s, d) ==
              (AfterEncounter(s), Happened(c, [s.character, partner], time, EventEncounter, s.city))
    ensures var next := Turn(c, populations, time, s, d).0;
            StateOk(next) && next.city == s.city && next.weights[Encounter] == 0
  {
    EncounterOutcome(s);
  }

  /**
   * Without an Encounter weight an actor cannot meet anyone, and until it
   * moves it stays in its city without regaining that weight: it meets at
   * most one other character per stay in a city.
   */
  lemma NoEncounterUntilMove(c: Chronicle, populations: map<CityId, seq<CharacterId>>, time: nat, s: CharacterState, d: Draw)
    requires StateOk(s) && s.weights[Encounter] == 0
    ensures Sample(s.weights, d.action) != Encounter
    ensures Sample(s.weights, d.action) != Move ==>
              var next := Turn(c, populations, time, s, d).0;
              next.city == s.city && next.weights[Encounter] == 0
  {
    DeathOutcome(s);
  }

  /**
   * In the layered world the builder makes, a turn either keeps the actor
   * in its city or takes it to the next layer: no actor ever goes back, so
   * no city is visited twice.
   */
  lemma TurnGoesForward(c: Chronicle, populations: map<CityId, seq<CharacterId>>, time: nat, s: CharacterState, d: Draw,
                        layers: seq<seq<CityId>>, L: nat)
    requires WellLayered(Roads(c.cities), layers) && L < NumLayers && s.city in layers[L]
    ensures var next := Turn(c, populations, time, s, d).0;
            next.city == s.city || (L < 4 && next.city in layers[L + 1])
  {
    var next := Turn(c, populations, time, s, d).0;
    if next.city != s.city {
      assert next.city in Roads(c.cities)[s.city];
      EdgeGoesForward(Roads(c.cities), layers, L, s.city, next.city);
    }
  }

  /** A turn changes no city's edges. */
  lemma TurnKeepsRoads(c: Chronicle, populations: map<CityId, seq<CharacterId>>, time: nat, s: CharacterState, d: Draw)
    ensures Roads(Turn(c, populations, time, s, d).1.cities) == Roads(c.cities)
  {
    forall place: CityId, n: nat | n > 0 ==> place in c.cities {
      HostKeepsNeighbours(c.cities, place, n, c.nextEvent);
    }
  }
}
