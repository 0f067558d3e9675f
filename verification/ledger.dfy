/**
 * The event ledger: how recording an event extends the participants' and
 * the hosting city's event lists, and the consistency between the ledger
 * and those lists that recording keeps.
 */
module Ledger {
  import opened Wrappers
  import opened Entities

  /** `n` copies of `id`. */
  function Repeat(id: EventId, n: nat): (r: seq<EventId>)
    ensures |r| == n && forall x :: x in r ==> x == id
  {
    if n == 0 then [] else Repeat(id, n - 1) + [id]
  }

  function Occurrences(xs: seq<CharacterId>, c: CharacterId): nat
  {
    if xs == [] then 0
    else Occurrences(xs[..|xs| - 1], c) + (if xs[|xs| - 1] == c then 1 else 0)
  }

  lemma {:induction false} OccurrencesPositive(xs: seq<CharacterId>, c: CharacterId)
    ensures Occurrences(xs, c) > 0 <==> c in xs
  {
    if xs != [] {
      OccurrencesPositive(xs[..|xs| - 1], c);
      assert xs == xs[..|xs| - 1] + [xs[|xs| - 1]];
    }
  }

  lemma {:induction false} OccurrencesOfDistinct(xs: seq<CharacterId>, c: CharacterId)
    requires Distinct(xs)
    ensures Occurrences(xs, c) == if c in xs then 1 else 0
  {
    if xs != [] {
      var prefix := xs[..|xs| - 1];
      assert Distinct(prefix);
      OccurrencesOfDistinct(prefix, c);
      assert xs == prefix + [xs[|xs| - 1]];
      assert xs[|xs| - 1] == c ==> c !in prefix;
    }
  }

  /** The characters after `id` is pushed onto the list of each participant in turn. */
  function Enroll(characters: map<CharacterId, Character>, participants: seq<CharacterId>, id: EventId)
    : (r: map<CharacterId, Character>)
    requires forall p :: p in participants ==> p in characters
    ensures r.Keys == characters.Keys
  {
    if participants == [] then characters
    else
      var before := Enroll(characters, participants[..|participants| - 1], id);
      var p := participants[|participants| - 1];
      before[p := before[p].(events := before[p].events + [id])]
  }

  /** Each character gets `id` once per time it is listed, and nothing else changes. */
  lemma {:induction false} EnrollEffect(characters: map<CharacterId, Character>, participants: seq<CharacterId>,
                                        id: EventId, c: CharacterId)
    requires forall p :: p in participants ==> p in characters
    requires c in characters
    ensures Enroll(characters, participants, id)[c]
            == characters[c].(events := characters[c].events + Repeat(id, Occurrences(participants, c)))
  {
    if participants != [] {
      EnrollEffect(characters, participants[..|participants| - 1], id, c);
    }
  }

  /** The cities after `id` is pushed `n` times onto the list of `place`. */
  function Host(cities: map<CityId, City>, place: CityId, n: nat, id: EventId): (r: map<CityId, City>)
    requires n > 0 ==> place in cities
    ensures r.Keys == cities.Keys
  {
    if n == 0 then cities
    else cities[place := cities[place].(events := cities[place].events + Repeat(id, n))]
  }

  /** Pushing `id` once more onto the list of `place` hosts it one more time. */
  lemma HostStep(cities: map<CityId, City>, place: CityId, n: nat, id: EventId)
    requires place in cities
    ensures var before := Host(cities, place, n, id);
            Host(cities, place, n + 1, id) == before[place := before[place].(events := before[place].events + [id])]
  {
    var city := cities[place];
    var before := Host(cities, place, n, id);
    assert Repeat(id, n + 1) == Repeat(id, n) + [id];
    assert city.events + Repeat(id, n + 1) == city.events + Repeat(id, n) + [id];
    if n == 0 {
      assert before == cities && Repeat(id, n + 1) == [id];
    } else {
      assert before[place] == city.(events := city.events + Repeat(id, n));
    }
  }

  /** Hosting an event changes no city's name or edges. */
  lemma HostKeepsNeighbours(cities: map<CityId, City>, place: CityId, n: nat, id: EventId)
    requires n > 0 ==> place in cities
    ensures forall c :: c in cities ==> Host(cities, place, n, id)[c].neighbours == cities[c].neighbours
  {
  }

  /**
   * The ledger and the per-character and per-city lists agree: a character
   * lists exactly the events it took part in, and a city lists only logged events.
   */
  ghost predicate Indexed(characters: map<CharacterId, Character>, cities: map<CityId, City>,
                          events: map<EventId, Event>)
  {
    ListsLogged(characters, events) && RostersListed(characters, events) && CityListsLogged(cities, events)
  }

  /** Every id on a character's list is a logged event that names the character. */
  ghost predicate ListsLogged(characters: map<CharacterId, Character>, events: map<EventId, Event>)
  {
    forall c, e :: c in characters && e in characters[c].events ==> e in events && c in events[e].characters
  }

  /** Every participant of a logged event is a character whose list holds the event. */
  ghost predicate RostersListed(characters: map<CharacterId, Character>, events: map<EventId, Event>)
  {
    forall e, p :: e in events && p in events[e].characters ==> p in characters && e in characters[p].events
  }

  /** Every id on a city's list is a logged event. */
  ghost predicate CityListsLogged(cities: map<CityId, City>, events: map<EventId, Event>)
  {
    forall c, e :: c in cities && e in cities[c].events ==> e in events
  }

  /** A list of logged ids in increasing id order and non-decreasing start time. */
  ghost predicate TimeOrdered(list: seq<EventId>, events: map<EventId, Event>)
  {
    (forall i :: 0 <= i < |list| ==> list[i] in events) &&
    (forall i, j :: 0 <= i < j < |list| ==> list[i] < list[j] && events[list[i]].startTime <= events[list[j]].startTime)
  }

  ghost predicate Chronological(characters: map<CharacterId, Character>, events: map<EventId, Event>)
  {
    forall c :: c in characters ==> TimeOrdered(characters[c].events, events)
  }

  /** Every logged event started no later than `time`. */
  ghost predicate StartedBy(events: map<EventId, Event>, time: nat)
  {
    forall e :: e in events ==> events[e].startTime <= time
  }

  /** Recording a fresh event keeps the ledger and the lists in agreement. */
  lemma RecordKeepsIndexed(characters: map<CharacterId, Character>, cities: map<CityId, City>,
                           events: map<EventId, Event>, id: EventId, event: Event, place: CityId)
    requires Indexed(characters, cities, events)
    requires id !in events
    requires forall p :: p in event.characters ==> p in characters
    requires |event.characters| > 0 ==> place in cities
    ensures Indexed(Enroll(characters, event.characters, id), Host(cities, place, |event.characters|, id),
                    events[id := event])
  {
    RecordKeepsListsLogged(characters, events, id, event);
    RecordKeepsRostersListed(characters, events, id, event);
    RecordKeepsCityLists(cities, events, id, event, place);
  }

  lemma RecordKeepsListsLogged(characters: map<CharacterId, Character>, events: map<EventId, Event>, id: EventId, event: Event)
    requires ListsLogged(characters, events)
    requires id !in events
    requires forall p :: p in event.characters ==> p in characters
    ensures ListsLogged(Enroll(characters, event.characters, id), events[id := event])
  {
    var ps := event.characters;
    var characters', events' := Enroll(characters, ps, id), events[id := event];
    forall c, e | c in characters' && e in characters'[c].events
      ensures e in events' && c in events'[e].characters
    {
      EnrollEffect(characters, ps, id, c);
      OccurrencesPositive(ps, c);
      if e !in characters[c].events {
        assert e == id;
      }
    }
  }

  lemma RecordKeepsRostersListed(characters: map<CharacterId, Character>, events: map<EventId, Event>, id: EventId, event: Event)
    requires RostersListed(characters, events)
    requires id !in events
    requires forall p :: p in event.characters ==> p in characters
    ensures RostersListed(Enroll(characters, event.characters, id), events[id := event])
  {
    var ps := event.characters;
    var characters', events' := Enroll(characters, ps, id), events[id := event];
    forall e, p | e in events' && p in events'[e].characters
      ensures p in characters' && e in characters'[p].events
    {
      EnrollEffect(characters, ps, id, p);
      OccurrencesPositive(ps, p);
      if e == id {
        var added := Repeat(id, Occurrences(ps, p));
        assert added[0] in added;
      }
    }
  }

  lemma RecordKeepsCityLists(cities: map<CityId, City>, events: map<EventId, Event>, id: EventId, event: Event, place: CityId)
    requires CityListsLogged(cities, events)
    requires |event.characters| > 0 ==> place in cities
    ensures CityListsLogged(Host(cities, place, |event.characters|, id), events[id := event])
  {
    var ps := event.characters;
    var cities', events' := Host(cities, place, |ps|, id), events[id := event];
    forall c, e | c in cities' && e in cities'[c].events ensures e in events' {
      if c == place && |ps| > 0 && e !in cities[c].events {
        assert e == id;
      }
    }
  }

  /**
   * Recording an event with distinct participants, a larger id than any
   * logged one and a start no earlier than any logged one keeps every
   * character's list in time order.
   */
  lemma RecordKeepsChronological(characters: map<CharacterId, Character>, events: map<EventId, Event>,
                                 id: EventId, event: Event, time: nat)
    requires Chronological(characters, events) && StartedBy(events, time)
    requires forall e :: e in events ==> e < id
    requires forall p :: p in event.characters ==> p in characters
    requires Distinct(event.characters) && event.startTime == time
    ensures Chronological(Enroll(characters, event.characters, id), events[id := event])
    ensures StartedBy(events[id := event], time)
  {
    var ps := event.characters;
    var characters', events' := Enroll(characters, ps, id), events[id := event];
    forall c | c in characters' ensures TimeOrdered(characters'[c].events, events') {
      EnrollEffect(characters, ps, id, c);
      OccurrencesOfDistinct(ps, c);
      var old_ := characters[c].events;
      assert TimeOrdered(old_, events);
      var list := characters'[c].events;
      assert list == old_ || list == old_ + [id];
      forall i | 0 <= i < |list| ensures list[i] in events' && (i < |old_| ==> list[i] == old_[i]) {
        if i < |old_| {
          assert list[i] == old_[i];
        }
      }
    }
  }
}
