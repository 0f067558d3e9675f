/**
 * The settlement graph: five layers of cities with forward-only edges from
 * each layer into the next, the random choices that shape it, the partial
 * shapes it passes through while built from the end backwards, and what the
 * finished shape guarantees about routes.
 */
module Layout {
  import opened Entities

  /** A directed graph: the neighbour list of every city. */
  type Graph = map<CityId, seq<CityId>>

  /** A city's outbound edges: one to all cities of the next layer, no city twice. */
  predicate LinksInto(ns: seq<CityId>, next: seq<CityId>)
  {
    1 <= |ns| && Distinct(ns) && forall n :: n in ns ==> n in next
  }

  /**
   * The finished shape: layer 0 is one start city linked to every city of
   * layer 1, in order; layers 1 to 3 hold one or two cities, each linked into
   * the next layer; layer 4 is the end city, without neighbours. Every city
   * is in exactly one layer.
   */
  ghost predicate WellLayered(g: Graph, layers: seq<seq<CityId>>)
  {
    |layers| == NumLayers &&
    layers[4] == [LastCityId] && LastCityId in g && g[LastCityId] == [] &&
    |layers[0]| == 1 && layers[0][0] in g && g[layers[0][0]] == layers[1] &&
    (forall L :: 1 <= L < 4 ==> MinCitiesInLayer <= |layers[L]| <= MaxCitiesInLayer) &&
    (forall L :: 0 <= L < 5 ==> Distinct(layers[L])) &&
    (forall L, M, c :: 0 <= L < M < 5 && c in layers[L] ==> c !in layers[M]) &&
    (forall c :: c in g <==> exists L :: 0 <= L < 5 && c in layers[L]) &&
    (forall L, c :: 1 <= L < 4 && c in layers[L] ==> LinksInto(g[c], layers[L + 1]))
  }

  // ---- The random choices of the builder ----

  /** A city of an intermediate layer: its name, and the positions in the next layer it links to, in link order. */
  datatype CityPlan = CityPlan(name: Syllables, links: seq<nat>)

  /**
   * Every random choice of the builder: the names of the end and start
   * cities and, for layer L in 1..3, the plans of its cities in `middle[L - 1]`.
   */
  datatype WorldPlan = WorldPlan(endName: Syllables, middle: seq<seq<CityPlan>>, startName: Syllables)

  /** A sample without replacement of 1 to n positions below n. */
  predicate ValidLinks(links: seq<nat>, n: nat)
  {
    1 <= |links| <= n && Distinct(links) && forall k :: 0 <= k < |links| ==> links[k] < n
  }

  /** The plans of the cities of layer L. */
  function LayerPlan(plan: WorldPlan, L: nat): seq<CityPlan>
    requires 1 <= L <= 3 && |plan.middle| == 3
  {
    plan.middle[L - 1]
  }

  /** The number of cities the plan puts in layer L + 1, which layer L links into. */
  function NextSize(plan: WorldPlan, L: nat): nat
    requires 1 <= L <= 3 && |plan.middle| == 3
  {
    if L == 3 then 1 else |LayerPlan(plan, L + 1)|
  }

  /** Names from the tables, one or two cities per intermediate layer, each linked into the next layer. */
  predicate ValidPlan(plan: WorldPlan)
  {
    ValidSyllables(plan.endName) && ValidSyllables(plan.startName) &&
    |plan.middle| == 3 && MiddleFits(plan)
  }

  predicate MiddleFits(plan: WorldPlan)
    requires |plan.middle| == 3
  {
    (forall L :: 1 <= L <= 3 ==> MinCitiesInLayer <= |LayerPlan(plan, L)| <= MaxCitiesInLayer) &&
    (forall L :: 1 <= L <= 3 ==> PlansFit(LayerPlan(plan, L), NextSize(plan, L)))
  }

  /** City plans that fit a next layer of `size` cities. */
  predicate PlansFit(plans: seq<CityPlan>, size: nat)
  {
    forall j :: 0 <= j < |plans| ==> ValidSyllables(plans[j].name) && ValidLinks(plans[j].links, size)
  }

  /** The cities at the given positions of a layer. */
  function Targets(links: seq<nat>, next: seq<CityId>): (r: seq<CityId>)
    requires forall k :: 0 <= k < |links| ==> links[k] < |next|
    ensures |r| == |links|
  {
    seq(|links|, k requires 0 <= k < |links| => next[links[k]])
  }

  lemma TargetsLinkInto(links: seq<nat>, next: seq<CityId>)
    requires ValidLinks(links, |next|) && Distinct(next)
    ensures LinksInto(Targets(links, next), next)
  {
    var r := Targets(links, next);
    forall n | n in r ensures n in next {
      var k :| 0 <= k < |r| && r[k] == n;
    }
  }

  // ---- Partial shapes while building backwards ----

  /**
   * The layers while layer `layer` is being built: the end city alone in
   * layer 4, no city twice in a layer or in two layers, the layers below
   * `layer` still empty.
   */
  ghost predicate Layers(layers: seq<seq<CityId>>, layer: nat)
  {
    |layers| == NumLayers && 1 <= layer <= 4 &&
    layers[4] == [LastCityId] &&
    (forall L :: 0 <= L < layer ==> layers[L] == []) &&
    (forall L :: layer <= L < 5 ==> Distinct(layers[L])) &&
    (forall L, M, c: CityId :: layer <= L < M < 5 && c in layers[L] ==> c !in layers[M])
  }

  /** The ids in use are those below `n`, each in one of the layers from `layer` up. */
  ghost predicate Ids(ids: set<CityId>, layers: seq<seq<CityId>>, layer: nat, n: nat)
    requires |layers| == NumLayers
  {
    (forall c: CityId :: c in ids <==> c < n) &&
    (forall c: CityId :: c in ids <==> exists L :: layer <= L < 5 && c in layers[L])
  }

  /** The end city has no links; the layers above `layer` and the first `done` cities of `layer` are linked. */
  ghost predicate Linked(g: Graph, layers: seq<seq<CityId>>, layer: nat, done: nat)
    requires |layers| == NumLayers && 1 <= layer <= 4
  {
    LastCityId in g && g[LastCityId] == [] &&
    (forall L, c: CityId :: layer < L < 4 && c in layers[L] ==> c in g && LinksInto(g[c], layers[L + 1])) &&
    done <= |layers[layer]| &&
    (layer < 4 ==> forall i :: 0 <= i < done ==> layers[layer][i] in g && LinksInto(g[layers[layer][i]], layers[layer + 1]))
  }

  /**
   * The shape while layer `layer` is being built: the layers above it are
   * finished, the first `done` cities of layer `layer` are linked, the layers
   * below are empty, and the ids in use are exactly those below `n`.
   */
  ghost predicate Building(g: Graph, layers: seq<seq<CityId>>, layer: nat, done: nat, n: nat)
  {
    Layers(layers, layer) && Ids(g.Keys, layers, layer, n) && Linked(g, layers, layer, done)
  }

  /** The end city alone. */
  lemma EndCityAlone(g: Graph, layers: seq<seq<CityId>>)
    requires g == map[LastCityId := []] && layers == [[], [], [], [], [LastCityId]]
    ensures Building(g, layers, 4, 1, 1)
  {
    assert forall c: CityId :: c in g.Keys <==> c == LastCityId;
    assert forall c: CityId :: c in g.Keys <==> c in layers[4];
  }

  /** A fresh city `n` joins the end of layer `layer`, still unlinked. */
  lemma AddToLayer(g: Graph, layers: seq<seq<CityId>>, layer: nat, done: nat, n: nat)
    requires Building(g, layers, layer, done, n) && layer < 4
    ensures Building(g[n := []], layers[layer := layers[layer] + [n]], layer, done, n + 1)
  {
    forall L, c: CityId | layer <= L < 5 && c in layers[L] ensures c < n {
      assert c in g.Keys;
    }
    AddToLayers(layers, layer, n);
    AddToIds(g.Keys, layers, layer, n);
    AddToLinked(g, layers, layer, done, n);
  }

  lemma AddToLayers(layers: seq<seq<CityId>>, layer: nat, n: nat)
    requires Layers(layers, layer) && layer < 4
    requires forall L, c: CityId :: layer <= L < 5 && c in layers[L] ==> c < n
    ensures Layers(layers[layer := layers[layer] + [n]], layer)
  {
    var layers' := layers[layer := layers[layer] + [n]];
    forall L, M, c: CityId | layer <= L < M < 5 && c in layers'[L] ensures c !in layers'[M] {
      if c == n {
        assert forall d: CityId :: d in layers[M] ==> d < n;
      }
    }
    forall i, j | 0 <= i < j < |layers'[layer]| ensures layers'[layer][i] != layers'[layer][j] {
      if j == |layers[layer]| {
        assert layers[layer][i] in layers[layer];
      }
    }
  }

  lemma AddToIds(ids: set<CityId>, layers: seq<seq<CityId>>, layer: nat, n: nat)
    requires |layers| == NumLayers && layer < 4
    requires Ids(ids, layers, layer, n)
    ensures Ids(ids + {n}, layers[layer := layers[layer] + [n]], layer, n + 1)
  {
    var layers' := layers[layer := layers[layer] + [n]];
    forall c: CityId ensures c in ids + {n} <==> exists L :: layer <= L < 5 && c in layers'[L] {
      if c in ids {
        var L :| layer <= L < 5 && c in layers[L];
        assert c in layers'[L];
      }
      if c == n {
        assert c in layers'[layer];
      }
    }
  }

  lemma AddToLinked(g: Graph, layers: seq<seq<CityId>>, layer: nat, done: nat, n: nat)
    requires |layers| == NumLayers && 1 <= layer < 4
    requires Linked(g, layers, layer, done) && n !in g
    ensures Linked(g[n := []], layers[layer := layers[layer] + [n]], layer, done)
  {
    var g', layers' := g[n := []], layers[layer := layers[layer] + [n]];
    forall L, c: CityId | layer < L < 4 && c in layers'[L] ensures c in g' && LinksInto(g'[c], layers'[L + 1]) {
      assert c in g;
    }
    forall i | 0 <= i < done ensures layers'[layer][i] in g' && LinksInto(g'[layers'[layer][i]], layers'[layer + 1]) {
      assert layers'[layer][i] == layers[layer][i] && layers[layer][i] in g;
    }
  }

  /** New links `ns` of the city being built (the last of its layer, position `done`) change nobody else. */
  lemma Relink(g: Graph, layers: seq<seq<CityId>>, layer: nat, done: nat, n: nat, ns: seq<CityId>)
    requires |layers| == NumLayers && layer < 4
    requires Building(g, layers, layer, done, n)
    requires done == |layers[layer]| - 1
    ensures var c := layers[layer][done];
            c in g && Building(g[c := ns], layers, layer, done, n)
  {
    var c := layers[layer][done];
    assert c in layers[layer];
    assert c in g.Keys;
    var g' := g[c := ns];
    assert g'.Keys == g.Keys;
    assert c != LastCityId by {
      assert layers[4][0] == LastCityId;
    }
    assert Linked(g', layers, layer, done) by {
      forall L, d: CityId | layer < L < 4 && d in layers[L] ensures d in g' && LinksInto(g'[d], layers[L + 1]) {
        assert d != c;
      }
      forall i | 0 <= i < done ensures layers[layer][i] in g' && LinksInto(g'[layers[layer][i]], layers[layer + 1]) {
        assert layers[layer][i] != c;
      }
    }
  }

  /** A fresh city `n` at the end of layer `layer`, linked to the positions `links` of the next layer, is done. */
  lemma AddLinkedCity(g: Graph, layers: seq<seq<CityId>>, layer: nat, n: nat, links: seq<nat>)
    requires 1 <= layer < 4 && |layers| == NumLayers
    requires Building(g, layers, layer, |layers[layer]|, n)
    requires ValidLinks(links, |layers[layer + 1]|)
    ensures var layers' := layers[layer := layers[layer] + [n]];
            Building(g[n := Targets(links, layers[layer + 1])], layers', layer, |layers'[layer]|, n + 1)
  {
    var done := |layers[layer]|;
    var g', layers' := g[n := []], layers[layer := layers[layer] + [n]];
    var targets := Targets(links, layers[layer + 1]);
    AddToLayer(g, layers, layer, done, n);
    Relink(g', layers', layer, done, n + 1, targets);
    assert g'[n := targets] == g[n := targets];
    TargetsLinkInto(links, layers[layer + 1]);
    FinishCity(g[n := targets], layers', layer, done, n + 1);
  }

  /** Once its links are in place, the city being built counts as done. */
  lemma FinishCity(g: Graph, layers: seq<seq<CityId>>, layer: nat, done: nat, n: nat)
    requires |layers| == NumLayers && layer < 5
    requires Building(g, layers, layer, done, n) && done < |layers[layer]|
    requires layer < 4 ==> LinksInto(g[layers[layer][done]], layers[layer + 1])
    ensures Building(g, layers, layer, done + 1, n)
  {
    assert layers[layer][done] in layers[layer];
  }

  /** A finished layer makes room for the one below it. */
  lemma NextLayer(g: Graph, layers: seq<seq<CityId>>, layer: nat, n: nat)
    requires |layers| == NumLayers && 1 < layer < 5
    requires Building(g, layers, layer, |layers[layer]|, n)
    ensures Building(g, layers, layer - 1, 0, n)
  {
    NextLayerIds(g.Keys, layers, layer, n);
    NextLayerLinked(g, layers, layer);
  }

  lemma NextLayerIds(ids: set<CityId>, layers: seq<seq<CityId>>, layer: nat, n: nat)
    requires |layers| == NumLayers && 1 < layer < 5
    requires Ids(ids, layers, layer, n) && layers[layer - 1] == []
    ensures Ids(ids, layers, layer - 1, n)
  {
    forall c: CityId | c in ids ensures exists L :: layer - 1 <= L < 5 && c in layers[L] {
      var L :| layer <= L < 5 && c in layers[L];
    }
  }

  lemma NextLayerLinked(g: Graph, layers: seq<seq<CityId>>, layer: nat)
    requires |layers| == NumLayers && 1 < layer < 5
    requires Linked(g, layers, layer, |layers[layer]|)
    ensures Linked(g, layers, layer - 1, 0)
  {
    forall L, c: CityId | layer - 1 < L < 4 && c in layers[L] ensures c in g && LinksInto(g[c], layers[L + 1]) {
      if L == layer {
        var i :| 0 <= i < |layers[layer]| && layers[layer][i] == c;
      }
    }
  }

  /** The start city `n`, linked to every city of layer 1, completes the shape. */
  lemma AddStart(g: Graph, layers: seq<seq<CityId>>, n: nat)
    requires |layers| == NumLayers
    requires Building(g, layers, 1, |layers[1]|, n)
    requires forall L :: 1 <= L < 4 ==> MinCitiesInLayer <= |layers[L]| <= MaxCitiesInLayer
    ensures WellLayered(g[n := layers[1]], layers[0 := [n]])
  {
    assert n !in g.Keys;
    forall L, c: CityId | 1 <= L < 5 && c in layers[L] ensures c < n {
      assert c in g.Keys;
    }
    AddStartKeys(g, layers, n);
    AddStartDisjoint(layers, n);
    AddStartLinks(g, layers, n);
    assert LastCityId in g && LastCityId != n;
  }

  lemma AddStartKeys(g: Graph, layers: seq<seq<CityId>>, n: nat)
    requires |layers| == NumLayers
    requires forall c: CityId :: c in g.Keys <==> exists L :: 1 <= L < 5 && c in layers[L]
    ensures var g', layers' := g[n := layers[1]], layers[0 := [n]];
            forall c :: c in g' <==> exists L :: 0 <= L < 5 && c in layers'[L]
  {
    var g', layers' := g[n := layers[1]], layers[0 := [n]];
    forall c: CityId ensures c in g' <==> exists L :: 0 <= L < 5 && c in layers'[L] {
      if c in g.Keys {
        var L :| 1 <= L < 5 && c in layers[L];
        assert c in layers'[L];
      }
      if c == n {
        assert c in layers'[0];
      }
    }
  }

  lemma AddStartDisjoint(layers: seq<seq<CityId>>, n: nat)
    requires Layers(layers, 1)
    requires forall L, c: CityId :: 1 <= L < 5 && c in layers[L] ==> c < n
    ensures var layers' := layers[0 := [n]];
            (forall L :: 0 <= L < 5 ==> Distinct(layers'[L])) &&
            (forall L, M, c :: 0 <= L < M < 5 && c in layers'[L] ==> c !in layers'[M])
  {
    var layers' := layers[0 := [n]];
    forall L, M, c: CityId | 0 <= L < M < 5 && c in layers'[L] ensures c !in layers'[M] {
      if L == 0 {
        assert forall d: CityId :: d in layers[M] ==> d < n;
      }
    }
  }

  lemma AddStartLinks(g: Graph, layers: seq<seq<CityId>>, n: nat)
    requires |layers| == NumLayers
    requires Linked(g, layers, 1, |layers[1]|) && n !in g
    ensures var g', layers' := g[n := layers[1]], layers[0 := [n]];
            forall L, c :: 1 <= L < 4 && c in layers'[L] ==> c in g' && LinksInto(g'[c], layers'[L + 1])
  {
    var g', layers' := g[n := layers[1]], layers[0 := [n]];
    forall L, c: CityId | 1 <= L < 4 && c in layers'[L] ensures c in g' && LinksInto(g'[c], layers'[L + 1]) {
      if L == 1 {
        var i :| 0 <= i < |layers[1]| && layers[1][i] == c;
      }
    }
  }

  // ---- The cities the plan describes ----

  /**
   * The cities of layer L are those `plans` describe, in order: each named
   * from its syllables, linked to the planned positions of layer L + 1, and
   * without events.
   */
  ghost predicate BuiltAsPlanned(cities: map<CityId, City>, layers: seq<seq<CityId>>, L: nat, plans: seq<CityPlan>)
    requires |layers| == NumLayers && 1 <= L <= 3
  {
    |layers[L]| == |plans| &&
    forall j :: 0 <= j < |plans| ==>
      layers[L][j] in cities && ValidSyllables(plans[j].name) &&
      (forall k :: 0 <= k < |plans[j].links| ==> plans[j].links[k] < |layers[L + 1]|) &&
      cities[layers[L][j]] == City(NameGen(plans[j].name), Targets(plans[j].links, layers[L + 1]), [])
  }

  /** A described layer stays described while other cities and other layers change. */
  lemma PlannedKept(cities: map<CityId, City>, layers: seq<seq<CityId>>, L: nat, plans: seq<CityPlan>,
                    cities': map<CityId, City>, layers': seq<seq<CityId>>)
    requires |layers| == NumLayers == |layers'| && 1 <= L <= 3
    requires BuiltAsPlanned(cities, layers, L, plans)
    requires layers'[L] == layers[L] && layers'[L + 1] == layers[L + 1]
    requires forall c :: c in cities ==> c in cities' && cities'[c] == cities[c]
    ensures BuiltAsPlanned(cities', layers', L, plans)
  {
  }

  /** A fresh city built from plan `p` at the end of layer L extends the described part of L by `p`. */
  lemma PlannedGrows(d: Draft, L: nat, plans: seq<CityPlan>, p: CityPlan)
    requires |d.layers| == NumLayers && 1 <= L <= 3
    requires BuiltAsPlanned(d.cities, d.layers, L, plans) && d.next !in d.cities
    requires ValidSyllables(p.name) && forall k :: 0 <= k < |p.links| ==> p.links[k] < |d.layers[L + 1]|
    ensures var r := PlaceCity(d, L, p);
            BuiltAsPlanned(r.cities, r.layers, L, plans + [p])
  {
    var r := PlaceCity(d, L, p);
    var plans' := plans + [p];
    forall j | 0 <= j < |plans'|
      ensures r.layers[L][j] in r.cities && ValidSyllables(plans'[j].name) &&
              (forall k :: 0 <= k < |plans'[j].links| ==> plans'[j].links[k] < |r.layers[L + 1]|) &&
              r.cities[r.layers[L][j]] == City(NameGen(plans'[j].name), Targets(plans'[j].links, r.layers[L + 1]), [])
    {
      if j < |plans| {
        assert r.layers[L][j] == d.layers[L][j] && d.layers[L][j] in d.cities;
      }
    }
  }

  // ---- The builder on values ----

  /** The graph of a city map: each city's outbound edges. */
  ghost function Roads(cities: map<CityId, City>): Graph
  {
    map c | c in cities :: cities[c].neighbours
  }

  /** A world under construction: its cities, its layers and the next free city id. */
  datatype Draft = Draft(cities: map<CityId, City>, layers: seq<seq<CityId>>, next: nat)

  /** The end city, alone in the last layer. */
  function EndDraft(name: Syllables): (r: Draft)
    requires ValidSyllables(name)
    ensures r.cities.Keys == {LastCityId} && r.next == LastCityId + 1
    ensures r.cities[LastCityId].neighbours == [] && r.cities[LastCityId].events == []
    ensures |r.layers| == NumLayers && r.layers[NumLayers - 1] == [LastCityId]
    ensures forall l :: 0 <= l < NumLayers - 1 ==> r.layers[l] == []
  {
    Draft(map[LastCityId := NewCity(NameGen(name))], [[], [], [], [], [LastCityId]], LastCityId + 1)
  }

  /** A fresh city from plan `p` at the end of layer `layer`, linked to the planned positions of the next layer. */
  function PlaceCity(d: Draft, layer: nat, p: CityPlan): (r: Draft)
    requires |d.layers| == NumLayers && layer < 4 && ValidSyllables(p.name)
    requires forall k :: 0 <= k < |p.links| ==> p.links[k] < |d.layers[layer + 1]|
    ensures d.next in r.cities && forall c :: c in r.cities[d.next].neighbours ==> c in d.layers[layer + 1]
  {
    Draft(d.cities[d.next := City(NameGen(p.name), Targets(p.links, d.layers[layer + 1]), [])],
          d.layers[layer := d.layers[layer] + [d.next]], d.next + 1)
  }

  /** The cities of `plans`, placed in order at the end of layer `layer`. */
  function PlaceLayer(d: Draft, layer: nat, plans: seq<CityPlan>): (r: Draft)
    requires |d.layers| == NumLayers && layer < 4 && PlansFit(plans, |d.layers[layer + 1]|)
    ensures |r.layers| == NumLayers && r.next == d.next + |plans|
    ensures forall L :: 0 <= L < NumLayers && L != layer ==> r.layers[L] == d.layers[L]
    ensures |r.layers[layer]| == |d.layers[layer]| + |plans|
    decreases |plans|
  {
    if plans == [] then d
    else
      var before := PlaceLayer(d, layer, plans[..|plans| - 1]);
      PlaceCity(before, layer, plans[|plans| - 1])
  }

  /** Layers 3 down to `layer`, placed on top of `d` as `plan` describes them. */
  function PlaceMiddle(d: Draft, plan: WorldPlan, layer: nat): (r: Draft)
    requires ValidPlan(plan) && 1 <= layer <= 4
    requires |d.layers| == NumLayers && |d.layers[4]| == 1 && d.layers[1] == [] && d.layers[2] == [] && d.layers[3] == []
    ensures |r.layers| == NumLayers && r.layers[0] == d.layers[0] && r.layers[4] == d.layers[4]
    ensures forall L :: layer <= L <= 3 ==> |r.layers[L]| == |LayerPlan(plan, L)|
    ensures forall L :: 1 <= L < layer ==> r.layers[L] == []
    decreases 4 - layer
  {
    if layer == 4 then d
    else
      var above := PlaceMiddle(d, plan, layer + 1);
      assert |above.layers[layer + 1]| == NextSize(plan, layer);
      PlaceLayer(above, layer, LayerPlan(plan, layer))
  }

  /** The start city, alone in layer 0 and linked to every city of layer 1, in order. */
  function PlaceStart(d: Draft, name: Syllables): (r: Draft)
    requires |d.layers| == NumLayers && ValidSyllables(name)
    ensures r.cities.Keys == d.cities.Keys + {d.next} && r.next == d.next + 1
    ensures forall c :: c in d.cities && c != d.next ==> r.cities[c] == d.cities[c]
    ensures |r.layers| == NumLayers && r.layers[0] == [d.next]
    ensures forall L :: 1 <= L < NumLayers ==> r.layers[L] == d.layers[L]
  {
    Draft(d.cities[d.next := City(NameGen(name), d.layers[1], [])], d.layers[0 := [d.next]], d.next + 1)
  }

  /**
   * The cities and layers the builder makes from `plan`: the end city alone
   * in the last layer, the start city, with the last id handed out, alone in
   * the first.
   */
  function Drafted(plan: WorldPlan): (r: Draft)
    requires ValidPlan(plan)
    ensures |r.layers| == NumLayers && r.layers[0] == [r.next - 1] && r.layers[4] == [LastCityId]
  {
    var middle := PlaceMiddle(EndDraft(plan.endName), plan, 1);
    PlaceStart(middle, plan.startName)
  }

  /** A draft while layer `layer` is built: its graph has the partial shape, its last layer `layer` complete so far. */
  ghost predicate DraftBuilding(d: Draft, layer: nat)
  {
    |d.layers| == NumLayers && 1 <= layer <= 4 && Building(Roads(d.cities), d.layers, layer, |d.layers[layer]|, d.next)
  }

  lemma PlaceCityBuilds(d: Draft, layer: nat, p: CityPlan)
    requires 1 <= layer < 4 && DraftBuilding(d, layer)
    requires ValidSyllables(p.name) && ValidLinks(p.links, |d.layers[layer + 1]|)
    ensures DraftBuilding(PlaceCity(d, layer, p), layer)
  {
    var targets := Targets(p.links, d.layers[layer + 1]);
    AddLinkedCity(Roads(d.cities), d.layers, layer, d.next, p.links);
    assert Roads(PlaceCity(d, layer, p).cities) == Roads(d.cities)[d.next := targets];
  }

  lemma {:induction false} PlaceLayerBuilds(d: Draft, layer: nat, plans: seq<CityPlan>)
    requires 1 <= layer < 4 && DraftBuilding(d, layer) && PlansFit(plans, |d.layers[layer + 1]|)
    ensures DraftBuilding(PlaceLayer(d, layer, plans), layer)
    decreases |plans|
  {
    if plans != [] {
      var prefix := plans[..|plans| - 1];
      PlaceLayerBuilds(d, layer, prefix);
      PlaceCityBuilds(PlaceLayer(d, layer, prefix), layer, plans[|plans| - 1]);
    }
  }

  lemma {:induction false} PlaceMiddleBuilds(d: Draft, plan: WorldPlan, layer: nat)
    requires ValidPlan(plan) && 1 <= layer <= 4
    requires |d.layers| == NumLayers && |d.layers[4]| == 1 && d.layers[1] == [] && d.layers[2] == [] && d.layers[3] == []
    requires DraftBuilding(d, 4)
    ensures DraftBuilding(PlaceMiddle(d, plan, layer), layer)
    decreases 4 - layer
  {
    if layer < 4 {
      var above := PlaceMiddle(d, plan, layer + 1);
      PlaceMiddleBuilds(d, plan, layer + 1);
      NextLayer(Roads(above.cities), above.layers, layer + 1, above.next);
      assert |above.layers[layer + 1]| == NextSize(plan, layer);
      PlaceLayerBuilds(above, layer, LayerPlan(plan, layer));
    }
  }

  /** Placing cities keeps every placed city and takes only ids from `d.next` on. */
  lemma {:induction false} PlaceLayerKeeps(d: Draft, layer: nat, plans: seq<CityPlan>)
    requires |d.layers| == NumLayers && layer < 4 && PlansFit(plans, |d.layers[layer + 1]|)
    requires forall c :: c in d.cities ==> c < d.next
    ensures forall c :: c in PlaceLayer(d, layer, plans).cities ==> c < PlaceLayer(d, layer, plans).next
    ensures forall c :: c in d.cities ==>
              c in PlaceLayer(d, layer, plans).cities && PlaceLayer(d, layer, plans).cities[c] == d.cities[c]
    decreases |plans|
  {
    if plans != [] {
      var before := PlaceLayer(d, layer, plans[..|plans| - 1]);
      PlaceLayerKeeps(d, layer, plans[..|plans| - 1]);
      var r := PlaceCity(before, layer, plans[|plans| - 1]);
      assert r == PlaceLayer(d, layer, plans);
      forall c | c in r.cities ensures c < r.next {
        if c != before.next {
          assert c in before.cities;
        }
      }
    }
  }

  lemma {:induction false} PlaceLayerAsPlanned(d: Draft, layer: nat, plans: seq<CityPlan>)
    requires |d.layers| == NumLayers && 1 <= layer <= 3 && d.layers[layer] == []
    requires PlansFit(plans, |d.layers[layer + 1]|)
    requires forall c :: c in d.cities ==> c < d.next
    ensures var r := PlaceLayer(d, layer, plans);
            BuiltAsPlanned(r.cities, r.layers, layer, plans)
    decreases |plans|
  {
    if plans != [] {
      var prefix, last := plans[..|plans| - 1], plans[|plans| - 1];
      assert prefix + [last] == plans;
      var before := PlaceLayer(d, layer, prefix);
      PlaceLayerAsPlanned(d, layer, prefix);
      PlaceLayerKeeps(d, layer, prefix);
      PlannedGrows(before, layer, prefix, last);
    }
  }

  lemma {:induction false} PlaceMiddleAsPlanned(d: Draft, plan: WorldPlan, layer: nat)
    requires ValidPlan(plan) && 1 <= layer <= 4
    requires |d.layers| == NumLayers && |d.layers[4]| == 1 && d.layers[1] == [] && d.layers[2] == [] && d.layers[3] == []
    requires forall c :: c in d.cities ==> c < d.next
    ensures var r := PlaceMiddle(d, plan, layer);
            (forall c :: c in r.cities ==> c < r.next) &&
            (forall c :: c in d.cities ==> c in r.cities && r.cities[c] == d.cities[c]) &&
            forall L :: layer <= L <= 3 ==> BuiltAsPlanned(r.cities, r.layers, L, LayerPlan(plan, L))
    decreases 4 - layer
  {
    if layer < 4 {
      var above := PlaceMiddle(d, plan, layer + 1);
      var r := PlaceMiddle(d, plan, layer);
      PlaceMiddleAsPlanned(d, plan, layer + 1);
      assert |above.layers[layer + 1]| == NextSize(plan, layer);
      PlaceLayerKeeps(above, layer, LayerPlan(plan, layer));
      PlaceLayerAsPlanned(above, layer, LayerPlan(plan, layer));
      forall L | layer < L <= 3 ensures BuiltAsPlanned(r.cities, r.layers, L, LayerPlan(plan, L)) {
        PlannedKept(above.cities, above.layers, L, LayerPlan(plan, L), r.cities, r.layers);
      }
    }
  }

  /** The builder's graph has the layered shape. */
  lemma DraftedWellLayered(plan: WorldPlan)
    requires ValidPlan(plan)
    ensures WellLayered(Roads(Drafted(plan).cities), Drafted(plan).layers)
  {
    var m := PlaceMiddle(EndDraft(plan.endName), plan, 1);
    MiddleBuilding(plan);
    assert forall L :: 1 <= L < 4 ==> MinCitiesInLayer <= |m.layers[L]| <= MaxCitiesInLayer;
    AddStart(Roads(m.cities), m.layers, m.next);
    RoadsOfStart(m, plan.startName);
  }

  lemma RoadsOfStart(d: Draft, name: Syllables)
    requires |d.layers| == NumLayers && ValidSyllables(name)
    ensures Roads(PlaceStart(d, name).cities) == Roads(d.cities)[d.next := d.layers[1]]
  {
  }

  lemma MiddleBuilding(plan: WorldPlan)
    requires ValidPlan(plan)
    ensures DraftBuilding(PlaceMiddle(EndDraft(plan.endName), plan, 1), 1)
  {
    var e := EndDraft(plan.endName);
    assert Roads(e.cities) == map[LastCityId := []];
    EndCityAlone(Roads(e.cities), e.layers);
    PlaceMiddleBuilds(e, plan, 1);
  }

  /**
   * The builder's cities: the end city named from its syllables, every
   * intermediate city as planned, and the start city linked to all of layer 1.
   */
  lemma DraftedAsPlanned(plan: WorldPlan)
    requires ValidPlan(plan)
    ensures var r := Drafted(plan);
            LastCityId in r.cities && r.cities[LastCityId] == NewCity(NameGen(plan.endName)) &&
            (forall L :: 1 <= L <= 3 ==> BuiltAsPlanned(r.cities, r.layers, L, LayerPlan(plan, L))) &&
            r.layers[0][0] in r.cities && r.cities[r.layers[0][0]] == City(NameGen(plan.startName), r.layers[1], [])
  {
    DraftedMiddleAsPlanned(plan);
    var e := EndDraft(plan.endName);
    PlaceMiddleAsPlanned(e, plan, 1);
  }

  lemma DraftedMiddleAsPlanned(plan: WorldPlan)
    requires ValidPlan(plan)
    ensures var r := Drafted(plan);
            forall L :: 1 <= L <= 3 ==> BuiltAsPlanned(r.cities, r.layers, L, LayerPlan(plan, L))
  {
    var e := EndDraft(plan.endName);
    var m := PlaceMiddle(e, plan, 1);
    PlaceMiddleAsPlanned(e, plan, 1);
    var r := Drafted(plan);
    forall L | 1 <= L <= 3 ensures BuiltAsPlanned(r.cities, r.layers, L, LayerPlan(plan, L)) {
      PlannedKept(m.cities, m.layers, L, LayerPlan(plan, L), r.cities, r.layers);
    }
  }

  /** The number of cities the plan puts in layers `layer` to 3. */
  function PlannedCities(plan: WorldPlan, layer: nat): nat
    requires |plan.middle| == 3 && 1 <= layer <= 4
    decreases 4 - layer
  {
    if layer == 4 then 0 else |LayerPlan(plan, layer)| + PlannedCities(plan, layer + 1)
  }

  lemma {:induction false} PlaceMiddleCount(d: Draft, plan: WorldPlan, layer: nat)
    requires ValidPlan(plan) && 1 <= layer <= 4
    requires |d.layers| == NumLayers && |d.layers[4]| == 1 && d.layers[1] == [] && d.layers[2] == [] && d.layers[3] == []
    ensures PlaceMiddle(d, plan, layer).next == d.next + PlannedCities(plan, layer)
    decreases 4 - layer
  {
    if layer < 4 {
      PlaceMiddleCount(d, plan, layer + 1);
    }
  }

  /** The builder hands out one id per planned city, between 5 and 8 in all. */
  lemma DraftedCount(plan: WorldPlan)
    requires ValidPlan(plan)
    ensures Drafted(plan).next == 2 + |LayerPlan(plan, 1)| + |LayerPlan(plan, 2)| + |LayerPlan(plan, 3)|
    ensures 5 <= Drafted(plan).next <= 8
  {
    PlaceMiddleCount(EndDraft(plan.endName), plan, 1);
    PlannedBounds(plan);
  }

  /** A valid plan puts between three and six cities in the intermediate layers. */
  lemma PlannedBounds(plan: WorldPlan)
    requires ValidPlan(plan)
    ensures PlannedCities(plan, 1) == |LayerPlan(plan, 1)| + |LayerPlan(plan, 2)| + |LayerPlan(plan, 3)|
    ensures 3 <= PlannedCities(plan, 1) <= 6
  {
    assert PlannedCities(plan, 4) == 0;
    assert forall L :: 1 <= L <= 3 ==> 1 <= |LayerPlan(plan, L)| <= 2;
  }

  // ---- Routes ----

  /** A route: a sequence of cities, each a neighbour of the one before. */
  ghost predicate IsRoute(g: Graph, p: seq<CityId>)
  {
    |p| >= 1 && (forall i :: 0 <= i < |p| ==> p[i] in g) &&
    (forall i :: 0 <= i < |p| - 1 ==> p[i + 1] in g[p[i]])
  }

  /** Every edge leads from a layer into the next one. */
  lemma EdgeGoesForward(g: Graph, layers: seq<seq<CityId>>, L: nat, c: CityId, d: CityId)
    requires WellLayered(g, layers) && L < 5 && c in layers[L] && d in g[c]
    ensures L < 4 && d in layers[L + 1]
  {
  }

  /** A route starting in layer L visits layer L + i at its i-th step, so it has at most 5 - L cities. */
  lemma {:induction false} RouteFollowsLayers(g: Graph, layers: seq<seq<CityId>>, p: seq<CityId>, L: nat)
    requires WellLayered(g, layers) && IsRoute(g, p) && L < 5 && p[0] in layers[L]
    ensures L + |p| <= 5
    ensures forall i :: 0 <= i < |p| ==> p[i] in layers[L + i]
  {
    if |p| > 1 {
      EdgeGoesForward(g, layers, L, p[0], p[1]);
      RouteFollowsLayers(g, layers, p[1..], L + 1);
      forall i | 0 <= i < |p| ensures p[i] in layers[L + i] {
        if i > 0 {
          assert p[i] == p[1..][i - 1];
        }
      }
    }
  }

  /** Only the end city lacks neighbours. */
  lemma OnlyEndIsStranded(g: Graph, layers: seq<seq<CityId>>, c: CityId)
    requires WellLayered(g, layers) && c in g
    ensures |g[c]| == 0 <==> c == LastCityId
    ensures forall d :: d in g[c] ==> d in g
  {
    var L :| 0 <= L < 5 && c in layers[L];
    if L == 0 {
      assert c == layers[0][0];
      assert layers[1][0] in layers[1];
    }
    if c == LastCityId {
      assert layers[4][0] == LastCityId;
      assert L == 4;
    }
    forall d | d in g[c] ensures d in g {
      EdgeGoesForward(g, layers, L, c, d);
    }
  }

  /** The start city is a city of the graph other than the end city. */
  lemma StartIsNotEnd(g: Graph, layers: seq<seq<CityId>>)
    requires WellLayered(g, layers)
    ensures layers[0][0] in g && layers[0][0] != LastCityId
  {
    assert layers[0][0] in layers[0];
    assert LastCityId in layers[4];
  }

  /** Every city other than the end city has a neighbour, and every neighbour is a city. */
  ghost predicate NoDeadEnds(g: Graph)
  {
    forall c :: c in g ==> (|g[c]| == 0 <==> c == LastCityId) && forall d :: d in g[c] ==> d in g
  }

  lemma WellLayeredHasNoDeadEnds(g: Graph, layers: seq<seq<CityId>>)
    requires WellLayered(g, layers)
    ensures NoDeadEnds(g)
  {
    forall c | c in g ensures (|g[c]| == 0 <==> c == LastCityId) && forall d :: d in g[c] ==> d in g {
      OnlyEndIsStranded(g, layers, c);
    }
  }

  /**
   * Every route from the start city that cannot be extended takes exactly
   * four moves and ends in the end city.
   */
  lemma MaximalRouteReachesEnd(g: Graph, layers: seq<seq<CityId>>, p: seq<CityId>)
    requires WellLayered(g, layers) && IsRoute(g, p) && p[0] == layers[0][0]
    requires g[p[|p| - 1]] == []
    ensures |p| == 5 && p[4] == LastCityId
  {
    RouteFollowsLayers(g, layers, p, 0);
    OnlyEndIsStranded(g, layers, p[|p| - 1]);
    assert p[|p| - 1] in layers[|p| - 1];
    assert layers[4][0] == LastCityId;
  }

  /** A route from `c`, in layer L, to the end city that always takes the first neighbour. */
  ghost function FirstRoute(g: Graph, layers: seq<seq<CityId>>, c: CityId, L: nat): (p: seq<CityId>)
    requires WellLayered(g, layers) && L < 5 && c in layers[L]
    ensures |p| == 5 - L && IsRoute(g, p) && p[0] == c && p[|p| - 1] == LastCityId
    decreases 5 - L
  {
    assert c in g;
    if L == 4 then [c]
    else
      OnlyEndIsStranded(g, layers, c);
      assert c != LastCityId by {
        assert LastCityId in layers[4];
      }
      EdgeGoesForward(g, layers, L, c, g[c][0]);
      var rest := FirstRoute(g, layers, g[c][0], L + 1);
      var p := [c] + rest;
      assert forall i :: 0 < i < |p| ==> p[i] == rest[i - 1];
      p
  }

  /** The end city can be reached from every city. */
  lemma EndReachable(g: Graph, layers: seq<seq<CityId>>, c: CityId)
    requires WellLayered(g, layers) && c in g
    ensures exists p :: IsRoute(g, p) && p[0] == c && p[|p| - 1] == LastCityId
  {
    var L :| 0 <= L < 5 && c in layers[L];
    var p := FirstRoute(g, layers, c, L);
  }

  // A finished shape in which a city of layer 2 is not reachable from the
  // start: the builder only links each city forward, so nothing makes a
  // city of layer L + 1 the target of some city of layer L.

  const DemoGraph: Graph := map[0 := [], 1 := [0], 2 := [1], 3 := [1], 4 := [2], 5 := [4]]
  const DemoLayers: seq<seq<CityId>> := [[5], [4], [2, 3], [1], [0]]

  const DemoName: Syllables := Syllables(0, 0, 0, 0)
  /** A city linked to the first city of the next layer only. */
  const DemoCity: CityPlan := CityPlan(DemoName, [0])
  /** One city in layers 1 and 3, two in layer 2, each linked to the first city of the next layer. */
  const DemoPlan: WorldPlan := WorldPlan(DemoName, [[DemoCity], [DemoCity, DemoCity], [DemoCity]], DemoName)

  /** A city of the example world with the given neighbours. */
  function DemoTown(ns: seq<CityId>): City
  {
    City(NameGen(DemoName), ns, [])
  }

  lemma DemoPlanValid()
    ensures ValidPlan(DemoPlan)
  {
    var plan, p := DemoPlan, DemoCity;
    assert LayerPlan(plan, 1) == [p] && LayerPlan(plan, 2) == [p, p] && LayerPlan(plan, 3) == [p];
    assert ValidLinks(p.links, 1) && ValidLinks(p.links, 2);
  }

  /** Layer 3: city 1, linked to the end city. */
  lemma DemoLayer3()
    ensures ValidPlan(DemoPlan)
    ensures PlaceMiddle(EndDraft(DemoName), DemoPlan, 3)
            == Draft(map[0 := DemoTown([]), 1 := DemoTown([0])], [[], [], [], [1], [0]], 2)
  {
    DemoPlanValid();
    var e, p := EndDraft(DemoName), DemoCity;
    assert LayerPlan(DemoPlan, 3) == [p] && [p][..0] == [];
    assert PlaceMiddle(e, DemoPlan, 4) == e;
    assert PlaceLayer(e, 3, []) == e;
    var empty: seq<CityId> := [];
    assert empty + [1] == [1];
    assert e == Draft(map[0 := DemoTown([])], [[], [], [], [], [0]], 1);
    assert Targets(p.links, [0]) == [0];
    assert PlaceMiddle(e, DemoPlan, 3) == PlaceLayer(e, 3, [p]) == PlaceCity(e, 3, p);
  }

  /** Layer 2: cities 2 and 3, both linked to city 1. */
  lemma DemoLayer2()
    ensures ValidPlan(DemoPlan)
    ensures PlaceMiddle(EndDraft(DemoName), DemoPlan, 2)
            == Draft(map[0 := DemoTown([]), 1 := DemoTown([0]), 2 := DemoTown([1]), 3 := DemoTown([1])],
                     [[], [], [2, 3], [1], [0]], 4)
  {
    DemoLayer3();
    var e, p := EndDraft(DemoName), DemoCity;
    var d3 := PlaceMiddle(e, DemoPlan, 3);
    assert LayerPlan(DemoPlan, 2) == [p, p] && [p, p][..1] == [p] && [p][..0] == [];
    assert PlaceLayer(d3, 2, []) == d3;
    assert PlaceLayer(d3, 2, [p]) == PlaceCity(d3, 2, p);
    var empty: seq<CityId> := [];
    assert empty + [2] == [2] && [2] + [3] == [2, 3];
    assert Targets(p.links, [1]) == [1];
    assert PlaceMiddle(e, DemoPlan, 2) == PlaceLayer(d3, 2, [p, p]) == PlaceCity(PlaceCity(d3, 2, p), 2, p);
  }

  /** Layer 1: city 4, linked to city 2 only. */
  lemma DemoLayer1()
    ensures ValidPlan(DemoPlan)
    ensures PlaceMiddle(EndDraft(DemoName), DemoPlan, 1)
            == Draft(map[0 := DemoTown([]), 1 := DemoTown([0]), 2 := DemoTown([1]), 3 := DemoTown([1]), 4 := DemoTown([2])],
                     [[], [4], [2, 3], [1], [0]], 5)
  {
    DemoLayer2();
    var e, p := EndDraft(DemoName), DemoCity;
    var d2 := PlaceMiddle(e, DemoPlan, 2);
    assert LayerPlan(DemoPlan, 1) == [p] && [p][..0] == [];
    assert PlaceLayer(d2, 1, []) == d2;
    var empty: seq<CityId> := [];
    assert empty + [4] == [4];
    assert Targets(p.links, [2, 3]) == [2];
    assert PlaceMiddle(e, DemoPlan, 1) == PlaceLayer(d2, 1, [p]) == PlaceCity(d2, 1, p);
  }

  /** The cities of the example world. */
  function DemoCities(): map<CityId, City>
  {
    map[0 := DemoTown([]), 1 := DemoTown([0]), 2 := DemoTown([1]), 3 := DemoTown([1]),
        4 := DemoTown([2]), 5 := DemoTown([4])]
  }

  /** The start city: city 5, linked to the single city of layer 1. */
  lemma DemoStartPlaced()
    ensures ValidPlan(DemoPlan)
    ensures Drafted(DemoPlan) == Draft(DemoCities(), DemoLayers, 6)
  {
    DemoLayer1();
  }

  lemma DemoRoads()
    ensures Roads(DemoCities()) == DemoGraph
  {
    var roads := Roads(DemoCities());
    assert roads.Keys == DemoGraph.Keys;
    assert roads[0] == [] && roads[1] == [0] && roads[2] == [1] && roads[3] == [1] && roads[4] == [2] && roads[5] == [4];
  }

  /** The builder, following `DemoPlan`, makes exactly the example graph and layers. */
  lemma DemoBuilt()
    ensures ValidPlan(DemoPlan)
    ensures Drafted(DemoPlan).layers == DemoLayers && Roads(Drafted(DemoPlan).cities) == DemoGraph
  {
    DemoStartPlaced();
    DemoRoads();
  }

  /** Membership in the demo layers, layer by layer. */
  lemma DemoLayerMembers(L: nat, c: CityId)
    requires L < 5
    ensures c in DemoLayers[L] <==>
      (L == 0 && c == 5) || (L == 1 && c == 4) || (L == 2 && (c == 2 || c == 3)) || (L == 3 && c == 1) || (L == 4 && c == 0)
  {
    if L == 0 {
      assert DemoLayers[0] == [5];
    } else if L == 1 {
      assert DemoLayers[1] == [4];
    } else if L == 2 {
      assert DemoLayers[2] == [2, 3];
    } else if L == 3 {
      assert DemoLayers[3] == [1];
    } else {
      assert DemoLayers[4] == [0];
    }
  }

  /**
   * The builder, following a valid plan, can make a world whose start city
   * cannot reach every city: city 3 is off every route from start city 5.
   */
  lemma StartDoesNotReachEveryCity()
    ensures ValidPlan(DemoPlan)
    ensures Drafted(DemoPlan).layers == DemoLayers && Roads(Drafted(DemoPlan).cities) == DemoGraph
    ensures WellLayered(DemoGraph, DemoLayers)
    ensures 3 in DemoGraph && DemoLayers[0][0] == 5
    ensures forall p :: IsRoute(DemoGraph, p) && p[0] == 5 ==> 3 !in p
  {
    DemoBuilt();
    DraftedWellLayered(DemoPlan);
    forall p | IsRoute(DemoGraph, p) && p[0] == 5 ensures 3 !in p {
      DemoRouteAvoids(p);
    }
  }

  /** A route of the example graph from its start city never visits city 3. */
  lemma DemoRouteAvoids(p: seq<CityId>)
    requires WellLayered(DemoGraph, DemoLayers)
    requires IsRoute(DemoGraph, p) && p[0] == 5
    ensures 3 !in p
  {
    RouteFollowsLayers(DemoGraph, DemoLayers, p, 0);
    if |p| > 2 {
      assert p[1] in DemoLayers[1];
      assert p[2] in DemoGraph[p[1]];
    }
    forall i | 0 <= i < |p| ensures p[i] != 3 {
      DemoLayerMembers(i, p[i]);
    }
  }
}
