/** The `completedObjectives` map of the user's detail view: which objectives the user has ticked,
    keyed by the objective's index. It lives only in the page and is never sent to the server. */
module Completion {

  /** Whether objective `i` shows as done: `completedObjectives[i]` is truthy, and an index the map
      does not hold reads as undefined, which is falsy. */
  predicate Done(m: map<nat, bool>, i: nat)
  {
    i in m && m[i]
  }

  /** The initial map: `objectives.reduce((acc, _, index) => { acc[index] = false; ... }, {})`
      writes `false` for every index of the task's objectives into one accumulator. */
  method InitCompleted(objectiveCount: nat) returns (m: map<nat, bool>)
    ensures forall i: nat :: i in m <==> i < objectiveCount
    ensures forall i: nat :: !Done(m, i)
  {
    m := map[];
    var index := 0;
    while index < objectiveCount
      invariant index <= objectiveCount
      invariant forall i: nat :: i in m <==> i < index
      invariant forall i: nat :: i in m ==> !m[i]
    {
      m := m[index := false];
      index := index + 1;
    }
  }

  /** `toggleObjective(index)`: `{ ...prev, [index]: !prev[index] }`. */
  function Toggle(m: map<nat, bool>, index: nat): (r: map<nat, bool>)
    ensures r.Keys == m.Keys + {index}
    ensures Done(r, index) == !Done(m, index)
    ensures forall j: nat :: j != index ==> (j in r <==> j in m) && Done(r, j) == Done(m, j)
  {
    m[index := !Done(m, index)]
  }

  /** Toggling the same objective twice shows every objective as before; when the map held that
      index (always so after initialisation) the map itself is restored. */
  lemma ToggleTwice(m: map<nat, bool>, index: nat)
    ensures forall j: nat :: Done(Toggle(Toggle(m, index), index), j) == Done(m, j)
    ensures index in m ==> Toggle(Toggle(m, index), index) == m
  {
    var r := Toggle(Toggle(m, index), index);
    if index in m {
      assert r.Keys == m.Keys;
      assert forall j | j in m :: r[j] == m[j];
    }
  }

  /** Toggles of different objectives do not interfere: their order does not matter. */
  lemma ToggleCommutes(m: map<nat, bool>, i: nat, j: nat)
    ensures Toggle(Toggle(m, i), j) == Toggle(Toggle(m, j), i)
  {
  }
}
