/**
 * clusterization/ClusterizationUtil and StateClusterable: the one-dimensional points the
 * clusterization works on. A state's coordinate is its evaluation for the maximizing player
 * multiplied by the probability of reaching it.
 */
module ClusterizationUtil {
  import opened Game
  import opened Search
  import opened MovementBotUtil

  /** StateClusterable: a state together with its single coordinate. */
  datatype StateClusterable = StateClusterable(value: real, state: State)
  {
    /** `getPoint`: the coordinate as a one-element vector. */
    function GetPoint(): (p: seq<real>)
      ensures |p| == 1 && p[0] == value
    {
      [value]
    }
  }

  /** The coordinate `getClusterableStates` gives a state. */
  function Coordinate(s: State): real
  {
    s.gameState.value * s.probability
  }

  /** The clusterable states, one per state and in the same order. */
  function Clusterables(states: seq<State>): (r: seq<StateClusterable>)
    ensures |r| == |states|
    ensures forall i :: 0 <= i < |states| ==> r[i].state == states[i] && r[i].value == Coordinate(states[i])
  {
    if states == [] then []
    else Clusterables(states[..|states| - 1]) + [StateClusterable(Coordinate(states[|states| - 1]), states[|states| - 1])]
  }

  /** The states the points wrap, in order (`StateClusterable::getState` over a list). */
  function StatesOf(points: seq<StateClusterable>): (r: seq<State>)
    ensures |r| == |points|
    ensures forall i :: 0 <= i < |points| ==> r[i] == points[i].state
  {
    if points == [] then [] else StatesOf(points[..|points| - 1]) + [points[|points| - 1].state]
  }

  /** `getClusterableStates(states, evaluator, maximizingPlayer)`. */
  method GetClusterableStates(states: seq<State>) returns (statesClusterable: seq<StateClusterable>)
    ensures statesClusterable == Clusterables(states)
  {
    statesClusterable := [];
    for i := 0 to |states|
      invariant statesClusterable == Clusterables(states[..i])
    {
      var state := states[i];
      assert states[..i + 1][..i] == states[..i] && states[..i + 1][i] == state;
      statesClusterable := statesClusterable + [StateClusterable(Coordinate(state), state)];
    }
    assert states[..|states|] == states;
  }

  /** Unwrapping the clusterable states gives back the states. */
  lemma StatesOfClusterables(states: seq<State>)
    ensures StatesOf(Clusterables(states)) == states
  {
    var r := StatesOf(Clusterables(states));
    assert |r| == |states|;
    forall i | 0 <= i < |states|
      ensures r[i] == states[i]
    {
    }
  }

  /** A state in range reached with a probability in [0, 1] has a coordinate in [MIN_COST, MAX_COST]. */
  lemma ClusterablesInRange(states: seq<State>)
    requires forall i :: 0 <= i < |states| ==> Bounded(states[i].gameState) && 0.0 <= states[i].probability <= 1.0
    ensures forall i :: 0 <= i < |states| ==> MIN_COST <= Clusterables(states)[i].value <= MAX_COST
  {
    forall i | 0 <= i < |states|
      ensures MIN_COST <= Coordinate(states[i]) <= MAX_COST
    {
      WeightedInRange(states[i].gameState.value, states[i].probability);
    }
  }
}
