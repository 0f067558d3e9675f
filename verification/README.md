# World history generator — a Dafny model

This project models the world and history simulation of the procedural
world-history generator, from `rust/src/world.rs`. The simulation has four
parts:

- **Settlement-graph builder** (`World::generate_world`). It builds a directed
  graph in five layers, from the end city backwards:
  - the end city comes first, so it has id 0;
  - layers 3, 2 and 1 get one or two cities each, and each city links to a
    non-empty, duplicate-free subset of the next layer;
  - the start city comes last and links to every city of layer 1;
  - then six placeholder characters are added.
- **Id-allocating ledger** (`add_city`, `connect_cities`, `add_character`,
  `add_event`). It hands out sequential ids and inserts into the maps. Each
  event id is pushed onto the lists of its participants and, once per
  participant, onto the list of its city.
- **Per-character state machine** (`generate_events`, `event_move`,
  `event_death`, `event_encounter`):
  - every actor carries four action weights: Move, Death, Encounter, Idle;
  - one action is sampled per actor per tick, for ticks 0 to 10;
  - an update that zeroes every weight collapses the actor to Idle-only;
  - the city population snapshot is recomputed after every single action.
- **Value helpers**: `City::new`, `City::name_gen`, `Character::new`,
  `Event::new`, `Event::add_event_during` and `durations_overlap`.

Modules:

- `Entities`: the value types, their constructors, the name generator and the
  overlap test.
- `Weights`: the `WeightedIndex` distribution. It covers sampling support,
  fallible updates and the collapse to Idle.
- `Actors`: an actor's runtime state and what Move, Death and Encounter do to it.
- `Population`: the population snapshot.
- `Ledger`: the effect of `add_event` on the event lists, on values.
- `Histories`: the history of `generate_events` on values. It has one actor's
  turn (`Turn`), the body of the tick loop (`Play`), a tick (`Tick`) and the
  run of ticks (`History`), and what they promise about idle actors,
  encounters and the direction of travel.
- `Layout`: the layered graph. It has the builder on values (`Draft`) and the
  route properties of the finished shape.
- `WorldModel`: the `World` class. Its methods update the fields in place as
  the Rust methods do, except as listed under "Left out" (a lone actor's
  encounter does nothing, and summaries are empty). Each method is proved
  against the value-level functions above: the builder against `Drafted`,
  the history against `Turn`, `Play`, `Tick` and `History`.

Randomness is passed in as arguments:

- A `WorldPlan` holds the builder's choices: the syllables of each name, and
  the link positions of each city, sampled without replacement.
- A `Draw` per actor per tick holds the sampled action, the neighbour and the
  partner.

Three behaviours of the code may be surprising. The model follows the code in
each:

- **Reachability.** Not every settlement can be reached from the start. The
  builder only guarantees that every city links forward, and a city of layer 2
  can be linked to by nobody (`Layout.StartDoesNotReachEveryCity`).
- **Death events.** `event_death` logs a death with the Move event type, not
  Death (`rust/src/world.rs:241`).
- **Encounters in a city's list.** An encounter's id is pushed onto its city's
  list twice, because the city push sits inside the participant loop.

## Model

Three predicates of `Histories` state equations with the history functions:
`Ticked(m, start, time, draws, k)` means `m == Tick(start, time, draws, k)`,
`Ran(m, start, draws, t)` means `m == History(start, draws, t)`, and
`Chronicled(c, start, draws, t)` means `c == History(start, draws, t).book`.

| member | source | states |
|---|---|---|
| Entities.NewCity | rust/src/world.rs:417-423 | a new city has the given name and no neighbours or events |
| Entities.NameGen | rust/src/world.rs:411-433 | a city name is hard letter, vowel, soft letter and suffix from the fixed tables: 5 to 9 characters, starting with a hard letter and ending in a suffix |
| Entities.NewCharacter | rust/src/world.rs:455-462 | a new character has the given name and pronouns and no events |
| Entities.NewEvent | rust/src/world.rs:507-523 | a new event keeps its participants, times, type and summary, with no overlapping events yet |
| Entities.DurationsOverlapIntended | rust/src/world.rs:490-505 | equal starts overlap; otherwise the result is that of the match in `durations_overlap` |
| Entities.OverlapSymmetric | rust/src/world.rs:490-505 | swapping the two events does not change whether they overlap, as written and as intended |
| Entities.BoundedOverlapIsCommonInstant | rust/src/world.rs:503 | two bounded events overlap exactly when some instant lies in both closed spans |
| Entities.HalfOpenOverlap | rust/src/world.rs:501-502 | with one end missing, the events overlap exactly when the open one starts strictly inside the bounded one |
| Entities.UnboundedNeverOverlaps | rust/src/world.rs:496-500 | as written, two events without an end never overlap, not even when they start together |
| Entities.IntendedOverlapReflexive | rust/src/world.rs:496-498 | with the early return, every event overlaps itself |
| Entities.DurationsOverlap | rust/src/world.rs:490-505 | as written, two events without an end never overlap, and overlapping events never start after the other one's end |
| Entities.AddEventDuring | rust/src/world.rs:526-543 | panics exactly when the id is missing from the ledger; otherwise appends the id exactly when `durations_overlap`, as written, holds for the two events, and changes nothing else |
| Entities.OpenEventsNeverRecorded | rust/src/world.rs:526-543 | as written, an event without an end is never recorded as happening during a logged event without an end |
| Entities.AddEventDuringIntended | rust/src/world.rs:490-543 | the same update with the early return on equal starts that `durations_overlap` evidently means |
| Entities.IntendedRecordsSameStart | rust/src/world.rs:496-498 | with the early return, an event that starts together with a logged event records it |
| Weights.PickInSupport | rust/src/world.rs:373 | a draw below the total weight picks an index whose weight is nonzero |
| Weights.SupportIsPicked | rust/src/world.rs:373 | every index with nonzero weight is picked by some draw |
| Weights.Sample | rust/src/world.rs:373 | a sampled action is in range and has nonzero weight |
| Weights.Assign | rust/src/world.rs:208-209 | the updates keep the number of weights |
| Weights.AssignAt | rust/src/world.rs:208-209 | after the updates, an updated index holds its new weight and every other index keeps its old one |
| Weights.Update | rust/src/world.rs:209 | `update_weights` succeeds exactly when the indices are valid and ascending and the new total is nonzero, and then returns the assigned weights |
| Weights.UpdateOrIdle | rust/src/world.rs:209-216 | the fail-safe update never leaves all weights zero: when `update_weights` succeeds it returns exactly the updated weights, and only when it fails does the actor collapse to Idle-only |
| Weights.IdleOnlySamplesIdle | rust/src/world.rs:214 | an Idle-only actor always samples Idle |
| Actors.InitialState | rust/src/world.rs:311-322 | an initial actor has weights [3, 0, 3, 0], keeps the actor invariant and is active |
| Actors.AfterMove | rust/src/world.rs:195-216 | a move puts the actor in the destination, keeps its character, and leaves it with some nonzero weight to sample |
| Actors.AfterEncounter | rust/src/world.rs:288-298 | an encounter keeps the actor's character and city and leaves it with some nonzero weight to sample |
| Actors.AfterDeath | rust/src/world.rs:233-234 | a death keeps the actor's character and city, and Idle is the only action left with a nonzero weight |
| Actors.MoveOutcome | rust/src/world.rs:195-216 | a move keeps the actor invariant; the actor collapses to Idle exactly when fewer than two characters were at the destination; otherwise Move is weighted half the population (0 at the end city) and Encounter half the population |
| Actors.EncounterOutcome | rust/src/world.rs:288-298 | an encounter keeps the actor invariant, sets the Encounter weight to 0, and collapses the actor to Idle exactly when its Move weight was already 0 |
| Actors.DeathOutcome | rust/src/world.rs:233-234 | a death leaves the actor Idle-only in its city |
| Actors.SampleOutcome | rust/src/world.rs:373 | Death is never sampled, a collapsed actor only samples Idle, and Move is never sampled in the end city |
| Actors.Others | rust/src/world.rs:267-269 | the filtered population holds exactly the characters of the city other than the actor |
| Actors.EncounterPartner | rust/src/world.rs:267-271 | the partner choice fails exactly when nobody else is in the city; otherwise the partner is another character of the city |
| Population.CharactersInCity | rust/src/world.rs:326-334 | the list is no longer than the roster and names every character whose actor is in the city |
| Population.CharactersInCityExactly | rust/src/world.rs:326-334 | a city's list holds exactly the characters whose actor is there, in ascending id order |
| Population.GetCharactersInCity | rust/src/world.rs:326-334 | the loop returns the filter of the actors in the city |
| Population.Snapshot | rust/src/world.rs:336-351 | the snapshot has an entry for exactly the given cities |
| Population.SnapshotPartitions | rust/src/world.rs:336-351 | the snapshot lists every character under its actor's city and no other, each list ascending |
| Population.RecalculateCityPopulations | rust/src/world.rs:336-351 | every given city is mapped to its current characters, and other entries are left as they were |
| Population.RecalculatedIsSnapshot | rust/src/world.rs:389-395 | recomputing every city gives the snapshot of the current actors |
| Population.LoneEncounterPanics | rust/src/world.rs:262-271 | in the world the builder makes from a concrete valid plan, start city 5 has city 4 as its only neighbour; after characters 0 to 4 move there at tick 0, the sixth actor samples Encounter while alone in the start city, so the partner choice fails |
| Ledger.Enroll | rust/src/world.rs:164-167 | pushing the id onto the participants' lists adds and removes no character |
| Ledger.EnrollEffect | rust/src/world.rs:164-167 | each character gets the event id once per time it is listed, and nothing else changes |
| Ledger.Host | rust/src/world.rs:169-171 | pushing the id onto the place's list adds and removes no city |
| Ledger.HostStep | rust/src/world.rs:169-171 | each pass of the participant loop pushes the id once more onto the place's list |
| Ledger.HostKeepsNeighbours | rust/src/world.rs:169-171 | hosting an event changes no city's edges |
| Ledger.RecordKeepsIndexed | rust/src/world.rs:151-178 | recording a fresh event keeps the ledger and the character and city lists in agreement |
| Ledger.RecordKeepsListsLogged | rust/src/world.rs:164-175 | every id on a character's list stays a logged event that names the character |
| Ledger.RecordKeepsRostersListed | rust/src/world.rs:164-175 | every participant of a logged event stays a character whose list holds the event |
| Ledger.RecordKeepsCityLists | rust/src/world.rs:169-175 | every id on a city's list stays a logged event |
| Ledger.RecordKeepsChronological | rust/src/world.rs:160-175 | recording an event with a larger id, distinct participants and a start no earlier than any logged one keeps every character's list in time order |
| Layout.TargetsLinkInto | rust/src/world.rs:88-96 | distinct in-range link positions give a non-empty, duplicate-free set of edges into the next layer |
| Layout.EndCityAlone | rust/src/world.rs:75 | the end city alone is the first partial shape |
| Layout.AddLinkedCity | rust/src/world.rs:84-96 | a fresh city pushed onto the layer and linked into the next layer extends the partial shape |
| Layout.NextLayer | rust/src/world.rs:78 | a finished layer lets the builder move down to the layer below |
| Layout.AddStart | rust/src/world.rs:101-106 | the start city linked to all of layer 1 completes the layered shape |
| Layout.EndDraft | rust/src/world.rs:74-75 | the first draft holds only the end city, with id 0 and no edges or events, alone in the last of five layers; the next free id is 1 |
| Layout.PlaceCity | rust/src/world.rs:84-96 | a placed city gets the next free id and links only into the next layer |
| Layout.PlaceLayer | rust/src/world.rs:82-97 | placing a layer's cities adds one id per plan, grows only that layer, and leaves the other layers alone |
| Layout.PlaceMiddle | rust/src/world.rs:78-98 | layers 3 down to `layer` get the planned number of cities; the end and start layers are untouched |
| Layout.PlaceStart | rust/src/world.rs:101-106 | the start city gets the next free id and is alone in layer 0; every existing city and layers 1 to 4 are kept |
| Layout.Drafted | rust/src/world.rs:68-106 | the builder's world has five layers, the end city alone in the last, and the start city, with the last id handed out, alone in the first |
| Layout.PlaceCityBuilds | rust/src/world.rs:84-96 | one planned city keeps the partial shape |
| Layout.PlaceLayerBuilds | rust/src/world.rs:82-97 | a planned layer keeps the partial shape |
| Layout.PlaceMiddleBuilds | rust/src/world.rs:78-98 | the planned intermediate layers keep the partial shape |
| Layout.MiddleBuilding | rust/src/world.rs:74-98 | after the intermediate layers, everything but the start layer has the finished shape |
| Layout.RoadsOfStart | rust/src/world.rs:101-106 | adding the start city adds exactly its edges to layer 1 |
| Layout.PlannedKept | rust/src/world.rs:78-106 | a layer built as planned stays so while other cities and layers change |
| Layout.PlannedGrows | rust/src/world.rs:84-96 | a fresh city built from plan `p` extends the planned part of its layer by `p` |
| Layout.PlaceLayerKeeps | rust/src/world.rs:82-97 | placing a layer keeps every existing city and keeps the ids below the next free id |
| Layout.PlaceLayerAsPlanned | rust/src/world.rs:82-96 | each city of the placed layer has its planned name and its edges to the planned positions of the next layer |
| Layout.PlaceMiddleAsPlanned | rust/src/world.rs:78-98 | every intermediate layer is built as planned, and existing cities are kept |
| Layout.DraftedWellLayered | rust/src/world.rs:68-106 | the builder's graph has the layered shape: the end city with id 0 and no edges, one or two cities in each of layers 1 to 3, each linked to between 1 and all cities of the next layer, the start city linked to exactly layer 1 in order, and every city in exactly one layer |
| Layout.DraftedAsPlanned | rust/src/world.rs:68-106 | the end city, every intermediate city and the start city have the names and edges of the plan |
| Layout.DraftedMiddleAsPlanned | rust/src/world.rs:78-98 | in the finished world every intermediate layer is as planned |
| Layout.PlaceMiddleCount | rust/src/world.rs:78-98 | the intermediate layers take one id per planned city |
| Layout.PlannedBounds | rust/src/world.rs:78-82 | a valid plan puts between three and six cities in layers 1 to 3 |
| Layout.DraftedCount | rust/src/world.rs:75-108 | the builder hands out one id per planned city, between 5 and 8 in all |
| Layout.EdgeGoesForward | rust/src/world.rs:88-106 | every edge leads from a layer into the next one |
| Layout.RouteFollowsLayers | rust/src/world.rs:78-106 | a route from layer L is in layer L + i at its i-th step, so it visits at most 5 - L cities |
| Layout.OnlyEndIsStranded | rust/src/world.rs:75-106 | only the end city lacks neighbours, and every neighbour is a city |
| Layout.StartIsNotEnd | rust/src/world.rs:101-102 | the start city is a city of the graph other than the end city |
| Layout.WellLayeredHasNoDeadEnds | rust/src/world.rs:75-106 | in the layered shape, no city other than the end city strands a travelling character |
| Layout.MaximalRouteReachesEnd | rust/src/world.rs:78-106 | every route from the start city that cannot go on takes exactly four moves and ends in the end city |
| Layout.FirstRoute | rust/src/world.rs:78-106 | from a city of layer L, following first neighbours reaches the end city in 4 - L moves |
| Layout.EndReachable | rust/src/world.rs:78-106 | the end city can be reached from every city |
| Layout.DemoBuilt | rust/src/world.rs:68-106 | following a concrete valid plan, the builder makes exactly the example graph and layers |
| Layout.StartDoesNotReachEveryCity | rust/src/world.rs:88-106 | the builder, following a concrete valid plan, makes a world with a layer-2 city that no route from the start visits |
| Histories.Logged | rust/src/world.rs:151-178 | recording keeps the ledger's cities and characters and advances the event id by at most one; a participant or place the ledger lacks, where `add_event` panics, leaves the ledger alone |
| Histories.HappenedRecords | rust/src/world.rs:151-178 | a history event of known participants and place is logged under the next event id, added to each participant's list and, once per participant, to the place's list |
| Histories.Turn | rust/src/world.rs:370-387 | one actor's turn keeps its character and the ledger's cities and characters |
| Histories.TurnMoves | rust/src/world.rs:179-230 | a turn that samples Move goes to the neighbour the draw picks, takes the weights of that city's population before the move, and logs a one-character move there |
| Histories.TurnMeets | rust/src/world.rs:250-299 | a turn that samples Encounter logs an encounter of the actor and the drawn partner in its city and applies the encounter's weights, or changes nothing when nobody else is there |
| Histories.TurnIdles | rust/src/world.rs:377 | a turn that samples Idle changes neither the actor nor the ledger |
| Histories.Play | rust/src/world.rs:370-395 | the loop body, reading the snapshot of the current actors, replaces actor i only, keeps its character and keeps the ledger's cities |
| Histories.Tick | rust/src/world.rs:370-396 | the first k turns of a tick keep the number of actors and the ledger's cities |
| Histories.TickedStart | rust/src/world.rs:370 | before the first turn the tick leaves the actors and the ledger as they were |
| Histories.TickNext | rust/src/world.rs:370-395 | the loop body on top of the first k turns gives the first k + 1 turns |
| Histories.History | rust/src/world.rs:366-398 | the ticks keep the number of actors and the ledger's cities |
| Histories.RanStart | rust/src/world.rs:367 | before the first tick the history is where it started |
| Histories.RanNext | rust/src/world.rs:366-398 | a whole tick on top of ticks 0 to t - 1 gives ticks 0 to t |
| Histories.RanChronicled | rust/src/world.rs:366-398 | the ledger of a moment the history reaches is the ledger of that history |
| Histories.Crowd | rust/src/world.rs:309-323 | the first n initial actors are characters 0 to n - 1, in order, each in the start city with the initial weights |
| Histories.Beginning | rust/src/world.rs:305-323 | the history starts with all six characters in the start city with the initial weights, and the ledger as it was |
| Histories.IdleTurn | rust/src/world.rs:209-216 | an actor collapsed to Idle-only changes neither itself nor the ledger in its turn |
| Histories.IdleThroughTick | rust/src/world.rs:370-396 | an Idle-only actor is the same after any number of turns of a tick |
| Histories.IdleStaysIdle | rust/src/world.rs:366-398 | an Idle-only actor is the same after any number of ticks, whatever is drawn |
| Histories.EncounterTurn | rust/src/world.rs:250-299 | an active actor that meets someone logs exactly one encounter of the two in its city, stays there, and keeps no Encounter weight |
| Histories.NoEncounterUntilMove | rust/src/world.rs:301-302 | an actor without an Encounter weight cannot sample Encounter, and unless it moves it stays in its city without regaining it, so it meets at most one other character per city |
| Histories.TurnGoesForward | rust/src/world.rs:301-302 | in the layered world a turn keeps the actor in its city or takes it one layer forward, so no city is visited twice |
| Histories.TurnKeepsRoads | rust/src/world.rs:151-230 | a turn changes no city's edges |
| WorldModel.ListEventsInOrder | rust/src/world.rs:30-35 | the action list is indexed like the weights: Move, Death, Encounter, Idle |
| WorldModel.InitialStates | rust/src/world.rs:309-323 | the loop builds `Crowd(6, start)`: actor i is character i in the start city with the initial weights, for all six characters |
| WorldModel.InitialRoster | rust/src/world.rs:309-323 | the initial actors form a roster |
| WorldModel.TurnKeepsRoster | rust/src/world.rs:370-396 | replacing one actor by its successor keeps the roster |
| WorldModel.SnapshotOfRoster | rust/src/world.rs:356-364 | the snapshot covers every city and lists only characters of the roster |
| WorldModel.RecordKeepsValid | rust/src/world.rs:151-178 | recording an event keeps the ids dense and the lists indexed, and leaves the roads as they were |
| WorldModel.RecordKeepsOrder | rust/src/world.rs:151-178 | recording an event with distinct participants keeps the lists in time order up to its start |
| WorldModel.World.constructor | rust/src/world.rs:56-66 | an empty world with zero counters and five empty layers |
| WorldModel.World.AddCity | rust/src/world.rs:123-133 | returns the old counter value and bumps it by one, inserts a fresh city with no edges under that id, and keeps the world consistent |
| WorldModel.World.ConnectCities | rust/src/world.rs:135-141 | appends the second city to the first city's edges only; every other city is unchanged |
| WorldModel.World.AddCharacter | rust/src/world.rs:143-149 | returns the old counter value and bumps it by one, and inserts a fresh character without events under that id |
| WorldModel.World.LinkCity | rust/src/world.rs:94-96 | a loop of `connect_cities` appends the targets, in order, to one city's edges |
| WorldModel.World.AddEvent | rust/src/world.rs:151-178 | returns the old counter value and bumps it by one; logs exactly that id; appends it to each participant's list and, once per participant, to the place's list; leaves the graph alone; keeps the ledger consistent and, for distinct participants, in time order |
| WorldModel.World.PushIds | rust/src/world.rs:164-172 | the participant loop of `add_event` has the effect `Enroll` and `Host` describe |
| WorldModel.World.EventMove | rust/src/world.rs:180-230 | the character moves to a neighbour, takes the weights of the destination's pre-move population, and a one-character move is logged at the destination |
| WorldModel.World.EventDeath | rust/src/world.rs:232-248 | the character becomes Idle-only, and the death is logged as a move in its city |
| WorldModel.World.EventEncounter | rust/src/world.rs:250-299 | with another character in the city, an encounter of the two is logged there and Encounter drops to 0; alone, nothing changes |
| WorldModel.World.TakeTurn | rust/src/world.rs:370-387 | the new actor and the new ledger are exactly those of `Turn`, so Move logs what `TurnMoves` says and Encounter what `TurnMeets` says; the sampled action is never Death; Idle and collapsed actors change nothing; any logged event is a history event of this actor at this tick |
| WorldModel.World.PlayTurn | rust/src/world.rs:370-396 | one actor's turn then the recomputed snapshot leave exactly the actors and the ledger of `Play`; the roster, the snapshot and the graph are kept, and the log only grows, in time order |
| WorldModel.World.RunTick | rust/src/world.rs:370-396 | the loop over the actors leaves exactly the actors and the ledger of `Tick` over all six actors (`Ticked`); it keeps the roster, the snapshot and the graph, and only adds history events started by this tick, in time order |
| WorldModel.World.BeginHistory | rust/src/world.rs:308-364 | the actors and the ledger are `Beginning(start, ledger)`: every character in the start city with the initial weights, and the snapshot lists them |
| WorldModel.World.RunHistory | rust/src/world.rs:366-398 | the loop over ticks 0 to 10 returns the actors and leaves the ledger of `History` over all eleven ticks (`Ran`); it keeps the graph and the roster, and only adds history events started by tick 10, in time order |
| WorldModel.World.GenerateEvents | rust/src/world.rs:305-400 | on a generated world the ledger afterwards is that of `History` from `Beginning` in the start city with the draws of ticks 0 to 10 (`Chronicled`); the graph and the roster are kept, and only history events of ticks 0 to 10 are added, with every character's list in time order |
| WorldModel.World.GenerateWorld | rust/src/world.rs:68-121 | a fresh consistent world whose graph has the layered shape and whose cities and layers are those the plan describes, with six placeholder characters and no events |
| WorldModel.World.BuildCities | rust/src/world.rs:74-106 | the end city, the intermediate layers and the start city are built as the plan describes |
| WorldModel.World.AddEndCity | rust/src/world.rs:74-75 | the end city, with id 0, is alone in the last layer |
| WorldModel.World.BuildCity | rust/src/world.rs:83-96 | one intermediate city is added to its layer and linked to its planned targets |
| WorldModel.World.BuildLayer | rust/src/world.rs:82-97 | the cities of one intermediate layer are built in plan order |
| WorldModel.World.BuildMiddle | rust/src/world.rs:78-98 | layers 3, 2 and 1 are built in that order, as planned |
| WorldModel.World.AddStartCity | rust/src/world.rs:100-106 | the start city is alone in layer 0 and linked to every city of layer 1, in order |
| WorldModel.World.AddRoster | rust/src/world.rs:110-118 | six placeholder characters are added under the next character ids, and earlier ones are unchanged |

## Left out

- Randomness: `thread_rng`, `gen_range`, `choose_multiple` and `choose` are not modelled. Every choice is an argument: a `WorldPlan` for the builder, a `Draw` per actor per tick for the history.
- Weights.Sample: reduces the raw draw modulo the total weight. The model states only the support of `WeightedIndex::sample` (a nonzero-weight index), not its probabilities.
- WorldModel.World.EventMove: picks the neighbour by a draw modulo the number of neighbours. A uniform choice is not stated.
- Integer widths: ids, counters and times are unbounded naturals; `usize` overflow cannot happen at these sizes (at most 8 cities, 6 characters and 66 events).
- Summaries: every event's `summary` is the empty string. Its formatted text and all `println!` output are left out.
- The unused `layer` parameter of `add_city` is left out, and so are the unused `chars_found`, `num_cities` and `num_chars` of `recalculate_city_populations`.
- Entities.AddEventDuring: modelled on values, with the overlap test as written. It returns the updated event instead of pushing onto `self` in place, and takes the ledger map instead of the whole `World`.
- `WorldModel.World.EventEncounter` models the corrected behaviour: a lone actor's turn does nothing. The as-written panic is `Actors.EncounterPartner` returning None (see Findings).
- Histories.Turn, Histories.Logged: the fallbacks for all-zero weights, a city without neighbours or without a snapshot entry, and an unknown participant or place return the input unchanged. `generate_events` never reaches these cases on a generated world (the `Running` invariant of the `World` methods), where the Rust code would panic or sample from an empty distribution.
- Histories.Moment does not carry the population snapshot. Between turns it is always the snapshot of the actors over the ledger's cities, which the `Running` invariant of the `World` methods states.
- The model assumes `generate_world` ran before `generate_events` (the `Shaped` precondition), as the comment on `generate_events` asks.
- `rust/src/godot.rs` (Godot bindings and narrative text) is not part of this model. Neither is `rust/src/lib.rs` (module declarations and a printing test).
- Items, item provenance, the calamity and a dead flag do not exist in `rust/src/world.rs` and are not modelled.

## Findings

| source | as written | input that shows it | evidently intended | confidence | as-written member | corrected member |
|---|---|---|---|---|---|---|
| rust/src/world.rs:267-271 | `event_encounter` unwraps a random choice among the other characters of the actor's city | in a world whose layer 1 holds one city, characters 0 to 4 all move there at tick 0; character 5 keeps weights [3, 0, 3, 0], samples Encounter and is alone in the start city, so `choose` returns None and the unwrap panics | an actor with nobody to meet should skip the encounter rather than abort the run | not executed | Population.LoneEncounterPanics | WorldModel.World.EventEncounter |
| rust/src/world.rs:496-498 | `if start1 == start2 { true; }` is a statement without effect, so equal starts fall through to the match | two events starting at time 2 with no end: `durations_overlap(2, 2, None, None)` is false, so an event does not overlap itself | return true when both events start together | not executed | Entities.UnboundedNeverOverlaps | Entities.IntendedOverlapReflexive |
