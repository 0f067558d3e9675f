/**
 * The value entities of the world simulation: settlements (cities),
 * characters with their pronouns, and logged events, with their constructors,
 * the city-name generator and the event-overlap predicate.
 */
module Entities {
  import opened Wrappers

  type CityId = nat
  type CharacterId = nat
  type EventId = nat

  // Configuration constants of the simulation.
  const MaxTime: nat := 10
  const NumLayers: nat := 5
  const MinCitiesInLayer: nat := 1
  const MaxCitiesInLayer: nat := 2
  const NumCharacters: nat := 6

  /** The end city: the first city created, so the one with id 0. */
  const LastCityId: CityId := 0

  /** No element occurs twice. */
  predicate Distinct(xs: seq<nat>)
  {
    forall i, j :: 0 <= i < j < |xs| ==> xs[i] != xs[j]
  }

  // Syllable tables of the city-name generator.
  const SoftLetters: seq<string> := ["sh", "l", "m", "n", "r"]
  const HardLetters: seq<string> := ["p", "b", "t", "g"]
  const Vowels: seq<string> := ["a", "e", "i", "o", "oo", "ai"]
  const Suffixes: seq<string> := ["ford", "ton", "don", "dale", "by"]

  /** A settlement: its name, its outbound (directed) edges and the events that happened there. */
  datatype City = City(name: string, neighbours: seq<CityId>, events: seq<EventId>)

  function NewCity(name: string): (c: City)
    ensures c.name == name && c.neighbours == [] && c.events == []
  {
    City(name, [], [])
  }

  /** The four table positions the name generator draws at random. */
  datatype Syllables = Syllables(hard: nat, vowel: nat, soft: nat, suffix: nat)

  predicate ValidSyllables(s: Syllables)
  {
    s.hard < |HardLetters| && s.vowel < |Vowels| && s.soft < |SoftLetters| && s.suffix < |Suffixes|
  }

  /** A city name: hard consonant, vowel, soft consonant, suffix. */
  function NameGen(s: Syllables): (name: string)
    requires ValidSyllables(s)
    ensures 5 <= |name| <= 9
    ensures name[..1] in HardLetters
    ensures name[|name| - |Suffixes[s.suffix]|..] in Suffixes
  {
    var hard, vowel, soft, suffix := HardLetters[s.hard], Vowels[s.vowel], SoftLetters[s.soft], Suffixes[s.suffix];
    assert |hard| == 1 && 1 <= |vowel| <= 2 && 1 <= |soft| <= 2 && 2 <= |suffix| <= 4;
    var name := hard + vowel + soft + suffix;
    assert name[..1] == hard;
    assert name[|name| - |suffix|..] == suffix;
    name
  }

  datatype Pronouns = Pronouns(nominative: string, accusative: string, depGenitive: string)

  /** A character of the roster and the events it took part in. */
  datatype Character = Character(name: string, pronouns: Pronouns, events: seq<EventId>)

  function NewCharacter(name: string, pronouns: Pronouns): (c: Character)
    ensures c.name == name && c.pronouns == pronouns && c.events == []
  {
    Character(name, pronouns, [])
  }

  datatype EventType = EventMove | EventDeath | EventEncounter | EventIdle

  /** A logged event; `endTime` is None for an event without an end. */
  datatype Event = Event(
    characters: seq<CharacterId>,
    startTime: nat,
    endTime: Option<nat>,
    eventType: EventType,
    eventsHappeningDuring: seq<EventId>,
    summary: string)

  function NewEvent(characters: seq<CharacterId>, startTime: nat, endTime: Option<nat>,
                    eventType: EventType, summary: string): (e: Event)
    ensures e.characters == characters && e.startTime == startTime && e.endTime == endTime
    ensures e.eventType == eventType && e.summary == summary
    ensures e.eventsHappeningDuring == []
  {
    Event(characters, startTime, endTime, eventType, [], summary)
  }

  /**
   * `durations_overlap` as written: the test `start1 == start2` at its head
   * is a statement without effect, so equal starts decide nothing.
   */
  function DurationsOverlap(start1: nat, start2: nat, end1: Option<nat>, end2: Option<nat>): (r: bool)
    ensures r ==> end1.Some? || end2.Some?
    ensures r ==> (end1.Some? ==> start2 <= end1.value) && (end2.Some? ==> start1 <= end2.value)
  {
    match (end1, end2)
    case (None, None) => false
    case (Some(e1), None) => start2 > start1 && start2 < e1
    case (None, Some(e2)) => start1 > start2 && start1 < e2
    case (Some(e1), Some(e2)) => !(start1 > e2 || e1 < start2)
  }

  /** The overlap test with the early return on equal starts that the head of `durations_overlap` evidently means. */
  function DurationsOverlapIntended(start1: nat, start2: nat, end1: Option<nat>, end2: Option<nat>): (r: bool)
    ensures start1 == start2 ==> r
    ensures start1 != start2 ==> r == DurationsOverlap(start1, start2, end1, end2)
  {
    if start1 == start2 then true else DurationsOverlap(start1, start2, end1, end2)
  }

  /** A closed span [start, end], unbounded above when there is no end. */
  ghost predicate Covers(start: nat, end: Option<nat>, t: nat)
  {
    start <= t && (end.Some? ==> t <= end.value)
  }

  lemma OverlapSymmetric(start1: nat, start2: nat, end1: Option<nat>, end2: Option<nat>)
    ensures DurationsOverlap(start1, start2, end1, end2) == DurationsOverlap(start2, start1, end2, end1)
    ensures DurationsOverlapIntended(start1, start2, end1, end2) == DurationsOverlapIntended(start2, start1, end2, end1)
  {
  }

  /** Two bounded events overlap exactly when some instant lies in both closed spans. */
  lemma BoundedOverlapIsCommonInstant(start1: nat, start2: nat, e1: nat, e2: nat)
    requires start1 <= e1 && start2 <= e2
    ensures DurationsOverlap(start1, start2, Some(e1), Some(e2))
            <==> exists t: nat :: Covers(start1, Some(e1), t) && Covers(start2, Some(e2), t)
  {
    if DurationsOverlap(start1, start2, Some(e1), Some(e2)) {
      var t := if start1 < start2 then start2 else start1;
      assert Covers(start1, Some(e1), t) && Covers(start2, Some(e2), t);
    }
  }

  /** With one end missing, the open event overlaps iff it starts strictly inside the bounded one. */
  lemma HalfOpenOverlap(start1: nat, start2: nat, e1: nat)
    ensures DurationsOverlap(start1, start2, Some(e1), None) <==> start1 < start2 < e1
    ensures DurationsOverlap(start2, start1, None, Some(e1)) <==> start1 < start2 < e1
  {
  }

  /** As written, two events without an end never overlap, not even with themselves. */
  lemma UnboundedNeverOverlaps(start1: nat, start2: nat)
    ensures !DurationsOverlap(start1, start2, None, None)
    ensures !DurationsOverlap(start1, start1, None, None)
  {
  }

  /** The intended test makes every event overlap itself. */
  lemma IntendedOverlapReflexive(start: nat, end: Option<nat>)
    ensures DurationsOverlapIntended(start, start, end, end)
  {
  }

  datatype Panic = NoEventFound(id: EventId)

  /**
   * `Event::add_event_during`: looks `id` up in the ledger, and records it
   * among the events happening during `e` when `durations_overlap` holds
   * for the two; a missing id is a panic.
   */
  function AddEventDuring(e: Event, ledger: map<EventId, Event>, id: EventId): (r: Result<Event, Panic>)
    ensures r.Err? <==> id !in ledger
    ensures r.Err? ==> r.error == NoEventFound(id)
    ensures r.Ok? ==> r.value.(eventsHappeningDuring := e.eventsHappeningDuring) == e
    ensures r.Ok? ==> (r.value.eventsHappeningDuring == e.eventsHappeningDuring + [id]
                       <==> DurationsOverlap(e.startTime, ledger[id].startTime, e.endTime, ledger[id].endTime))
    ensures r.Ok? ==> r.value.eventsHappeningDuring in {e.eventsHappeningDuring, e.eventsHappeningDuring + [id]}
  {
    if id in ledger then
      var other := ledger[id];
      if DurationsOverlap(e.startTime, other.startTime, e.endTime, other.endTime) then
        Ok(e.(eventsHappeningDuring := e.eventsHappeningDuring + [id]))
      else
        Ok(e)
    else
      Err(NoEventFound(id))
  }

  /** `add_event_during` with the overlap test that returns early on equal starts. */
  function AddEventDuringIntended(e: Event, ledger: map<EventId, Event>, id: EventId): (r: Result<Event, Panic>)
    ensures r.Err? <==> id !in ledger
    ensures r.Err? ==> r.error == NoEventFound(id)
    ensures r.Ok? ==> r.value.(eventsHappeningDuring := e.eventsHappeningDuring) == e
    ensures r.Ok? ==> (r.value.eventsHappeningDuring == e.eventsHappeningDuring + [id]
                       <==> DurationsOverlapIntended(e.startTime, ledger[id].startTime, e.endTime, ledger[id].endTime))
  {
    if id in ledger then
      var other := ledger[id];
      if DurationsOverlapIntended(e.startTime, other.startTime, e.endTime, other.endTime) then
        Ok(e.(eventsHappeningDuring := e.eventsHappeningDuring + [id]))
      else
        Ok(e)
    else
      Err(NoEventFound(id))
  }

  /**
   * As written, an event without an end never records another event
   * without an end, even one that starts at the same time.
   */
  lemma OpenEventsNeverRecorded(e: Event, ledger: map<EventId, Event>, id: EventId)
    requires id in ledger && e.endTime == None && ledger[id].endTime == None
    ensures AddEventDuring(e, ledger, id) == Ok(e)
  {
  }

  /** With the early return, an open event records every open event that starts at the same time. */
  lemma IntendedRecordsSameStart(e: Event, ledger: map<EventId, Event>, id: EventId)
    requires id in ledger && ledger[id].startTime == e.startTime
    ensures AddEventDuringIntended(e, ledger, id) == Ok(e.(eventsHappeningDuring := e.eventsHappeningDuring + [id]))
  {
  }
}
