/**
 * The categorical action distribution of an actor (a `WeightedIndex` over
 * the four actions Move, Death, Encounter, Idle): sampling, fallible weight
 * updates, and the collapse to certainty on Idle.
 */
module Weights {
  import opened Wrappers

  // Positions of the four actions in the weight sequence.
  const Move: nat := 0
  const Death: nat := 1
  const Encounter: nat := 2
  const Idle: nat := 3

  /** The fail-safe distribution: Idle with certainty. */
  const IdleOnly: seq<nat> := [0, 0, 0, 1]

  function Total(w: seq<nat>): nat
  {
    if w == [] then 0 else w[0] + Total(w[1..])
  }

  /**
   * The index `WeightedIndex::sample` returns for the uniform draw `u`:
   * the first index whose cumulative weight exceeds `u`.
   */
  function Pick(w: seq<nat>, u: nat): nat
  {
    if w == [] || u < w[0] then 0 else 1 + Pick(w[1..], u - w[0])
  }

  /** Every draw below the total lands on an index of nonzero weight. */
  lemma {:induction false} PickInSupport(w: seq<nat>, u: nat)
    requires u < Total(w)
    ensures Pick(w, u) < |w| && w[Pick(w, u)] > 0
  {
    if u >= w[0] {
      PickInSupport(w[1..], u - w[0]);
    }
  }

  /** Conversely, every index of nonzero weight is the pick of some draw below the total. */
  lemma {:induction false} SupportIsPicked(w: seq<nat>, i: nat)
    requires i < |w| && w[i] > 0
    ensures exists u: nat :: u < Total(w) && Pick(w, u) == i
  {
    if i == 0 {
      assert 0 < Total(w) && Pick(w, 0) == 0;
    } else {
      SupportIsPicked(w[1..], i - 1);
      var u: nat :| u < Total(w[1..]) && Pick(w[1..], u) == i - 1;
      assert Pick(w, w[0] + u) == i;
    }
  }

  /**
   * One sample of the distribution. `draw` stands for the random number the
   * sampler draws; it is reduced to the range [0, Total(w)) it is drawn from.
   */
  function Sample(w: seq<nat>, draw: nat): (a: nat)
    requires Total(w) > 0
    ensures a < |w| && w[a] > 0
  {
    PickInSupport(w, draw % Total(w));
    Pick(w, draw % Total(w))
  }

  /** The index updates are in range and strictly ascending, as `update_weights` demands. */
  predicate ValidUpdates(updates: seq<(nat, nat)>, n: nat)
  {
    (forall k :: 0 <= k < |updates| ==> updates[k].0 < n) &&
    (forall k :: 0 < k < |updates| ==> updates[k - 1].0 < updates[k].0)
  }

  function Assign(w: seq<nat>, updates: seq<(nat, nat)>): (r: seq<nat>)
    requires ValidUpdates(updates, |w|)
    ensures |r| == |w|
    decreases |updates|
  {
    if updates == [] then w else Assign(w[updates[0].0 := updates[0].1], updates[1..])
  }

  /** The weight at `i` after the updates: the last update of `i`, or the old weight. */
  lemma {:induction false} AssignAt(w: seq<nat>, updates: seq<(nat, nat)>, i: nat)
    requires ValidUpdates(updates, |w|) && i < |w|
    ensures (forall k :: 0 <= k < |updates| ==> updates[k].0 != i) ==> Assign(w, updates)[i] == w[i]
    ensures forall k :: 0 <= k < |updates| && updates[k].0 == i ==> Assign(w, updates)[i] == updates[k].1
    decreases |updates|
  {
    if updates != [] {
      var w' := w[updates[0].0 := updates[0].1];
      AssignAt(w', updates[1..], i);
      forall k | 0 <= k < |updates| && updates[k].0 == i
        ensures Assign(w, updates)[i] == updates[k].1
      {
        if k == 0 {
          forall m | 0 <= m < |updates[1..]| ensures updates[1..][m].0 != i {
            AscendingFrom(updates, 0, m + 1);
          }
        } else {
          assert updates[1..][k - 1] == updates[k];
        }
      }
      if forall k :: 0 <= k < |updates| ==> updates[k].0 != i {
        assert updates[0].0 != i;
        forall m | 0 <= m < |updates[1..]| ensures updates[1..][m].0 != i {
          assert updates[1..][m] == updates[m + 1];
        }
      }
    }
  }

  lemma {:induction false} AscendingFrom(updates: seq<(nat, nat)>, j: nat, k: nat)
    requires forall m :: 0 < m < |updates| ==> updates[m - 1].0 < updates[m].0
    requires j < k < |updates|
    ensures updates[j].0 < updates[k].0
  {
    if j + 1 < k {
      AscendingFrom(updates, j, k - 1);
    }
  }

  /**
   * `WeightedIndex::update_weights`: None (the weights left as they were) for
   * invalid updates and for updates after which every weight is zero.
   */
  function Update(w: seq<nat>, updates: seq<(nat, nat)>): (r: Option<seq<nat>>)
    ensures r.Some? <==> ValidUpdates(updates, |w|) && Total(Assign(w, updates)) > 0
    ensures r.Some? ==> r.value == Assign(w, updates)
  {
    if !ValidUpdates(updates, |w|) then None
    else
      var w' := Assign(w, updates);
      if Total(w') == 0 then None else Some(w')
  }

  /**
   * A weight update with the fail-safe of the simulation: a rejected update
   * leaves the actor idle forever. The result is never an all-zero distribution.
   */
  function UpdateOrIdle(w: seq<nat>, updates: seq<(nat, nat)>): (r: seq<nat>)
    ensures Total(r) > 0
    ensures Update(w, updates).Some? ==> r == Update(w, updates).value && |r| == |w|
    ensures Update(w, updates).None? ==> r == IdleOnly
  {
    match Update(w, updates)
    case Some(w') => w'
    case None => IdleOnly
  }

  lemma TotalOfFour(w: seq<nat>)
    requires |w| == 4
    ensures Total(w) == w[0] + w[1] + w[2] + w[3]
  {
    assert w[1..][1..] == w[2..] && w[2..][1..] == w[3..] && w[3..][1..] == [];
    assert Total(w[3..]) == w[3];
    assert Total(w[2..]) == w[2] + w[3];
  }

  /** An idle-only actor can only ever sample Idle. */
  lemma IdleOnlySamplesIdle(draw: nat)
    ensures Total(IdleOnly) == 1 && Sample(IdleOnly, draw) == Idle
  {
    TotalOfFour(IdleOnly);
  }
}
