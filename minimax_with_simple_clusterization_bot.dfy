/**
 * movement_stage/MinimaxWithSimpleClusterizationBot: the minimax of MinimaxBot, except that a
 * node with six or more collected states searches only the representatives that the value
 * clusterization picks from them. The k-means++ clusterer is a parameter of the bot; `None`
 * stands for the `null` that `clusterize` returns when clustering throws. Exceptions other
 * than a `GameException` (the `NullPointerException` on a `null` cluster list, the
 * `IndexOutOfBoundsException` of `subList`) are not caught and end the whole search.
 */
module MinimaxWithSimpleClusterizationBot {
  import opened Wrappers
  import opened Game
  import opened Search
  import opened MovementBotUtil
  import opened ClusterizationUtil
  import opened ValueClusterization
  import Instrumentation
  import MovementMinimaxBot = MinimaxBot

  /** `clusterization.clusterize(points, clustersAmount)`, the amount being fixed by the bot. */
  type Clusterer = seq<StateClusterable> -> Option<seq<Cluster>>

  /** A search's result (`Failure` when an exception propagates) and the `minimax` calls made. */
  datatype Outcome = Outcome(result: Result<EventScore>, nodes: nat)

  /** Getting fewer than six states back skips the clusterization. */
  const MIN_CLUSTERED_STATES: nat := 6

  /** Every cluster holds only points of the clusterer's input. */
  predicate Drawn(clusters: seq<Cluster>, points: seq<StateClusterable>)
  {
    forall i, p :: 0 <= i < |clusters| && p in clusters[i].points ==> p in points
  }

  /** A clusterer that never invents points. */
  ghost predicate Faithful(clusterize: Clusterer)
  {
    forall xs :: clusterize(xs).Some? ==> Drawn(clusterize(xs).value, xs)
  }

  /** `getBestRepresentatives(states)`. */
  function BestRepresentatives(states: seq<State>, clusterize: Clusterer, clustersAmount: int): Result<seq<State>>
  {
    if |states| < MIN_CLUSTERED_STATES then Success(states)
    else
      match clusterize(Clusterables(states))
      case None => Failure
      case Some(clusters) => Representatives(clusters, clustersAmount)
  }

  /**
   * Fewer than six states come back unchanged; otherwise a `null` cluster list throws, and
   * picking succeeds when the clusters partition the points and at most six
   * representatives are asked for.
   */
  lemma BestRepresentativesCases(states: seq<State>, clusterize: Clusterer, clustersAmount: int)
    ensures |states| < MIN_CLUSTERED_STATES ==> BestRepresentatives(states, clusterize, clustersAmount) == Success(states)
    ensures |states| >= MIN_CLUSTERED_STATES && clusterize(Clusterables(states)).None? ==>
      BestRepresentatives(states, clusterize, clustersAmount) == Failure
    ensures (|states| >= MIN_CLUSTERED_STATES && clusterize(Clusterables(states)).Some? &&
             Sizes(clusterize(Clusterables(states)).value) == |states| && 0 <= clustersAmount <= MIN_CLUSTERED_STATES)
      ==> BestRepresentatives(states, clusterize, clustersAmount).Success?
  {
    if |states| >= MIN_CLUSTERED_STATES && clusterize(Clusterables(states)).Some? {
      var clusters := clusterize(Clusterables(states)).value;
      if Sizes(clusters) == |states| && 0 <= clustersAmount <= MIN_CLUSTERED_STATES {
        RepresentativesSucceed(clusters, clustersAmount);
      }
    }
  }

  /** Every representative is one of the states when the clusterer draws from its input. */
  lemma RepresentativesFromInput(states: seq<State>, clusterize: Clusterer, clustersAmount: int)
    requires BestRepresentatives(states, clusterize, clustersAmount).Success?
    requires clusterize(Clusterables(states)).Some? ==> Drawn(clusterize(Clusterables(states)).value, Clusterables(states))
    ensures forall x :: x in BestRepresentatives(states, clusterize, clustersAmount).value ==> x in states
  {
    if |states| >= MIN_CLUSTERED_STATES {
      var points := Clusterables(states);
      var clusters := clusterize(points).value;
      var reps := Representatives(clusters, clustersAmount).value;
      CollectMembers(clusters, Sizes(clusters), clustersAmount);
      forall x | x in reps
        ensures x in states
      {
        var i, p :| 0 <= i < |clusters| && p in clusters[i].points && p.state == x;
        assert p in points;
        var j :| 0 <= j < |points| && points[j] == p;
      }
    }
  }

  /** `minimax(gameState, depth, maximizing)`. */
  function Minimax(n: Node, depth: nat, maxDepth: nat, maximizing: bool, clusterize: Clusterer, k: int): Outcome
    decreases depth, 3, 0
  {
    if depth == 0 || n.ended then Outcome(Success(EventScore(None, n.value)), 1)
    else if n.moves == [] && depth == maxDepth then Outcome(Success(Initial(maximizing)), 1)
    else
      var e := Expand(WithoutUnnecessary(ExpandedMoves(n)), depth, maxDepth, ExpandedRole(n, maximizing), clusterize, k);
      Outcome(e.result, e.nodes + 1)
  }

  /**
   * `maximize` / `minimize`: a `GameException` while collecting leaves the initial best;
   * only the representatives are searched.
   */
  function Expand(moves: seq<Move>, depth: nat, maxDepth: nat, maximizing: bool, clusterize: Clusterer, k: int): Outcome
    requires depth > 0
    decreases depth, 2, 0
  {
    match PossibleStates(moves)
    case Failure => Outcome(Success(Initial(maximizing)), 0)
    case Success(states) =>
      match BestRepresentatives(states, clusterize, k)
      case Failure => Outcome(Failure, 0)
      case Success(representatives) =>
        FoldStates(representatives, depth, maxDepth, maximizing, clusterize, k, Initial(maximizing), 0)
  }

  /** The loop over the representatives; a failing child ends it. */
  function FoldStates(states: seq<State>, depth: nat, maxDepth: nat, maximizing: bool, clusterize: Clusterer, k: int,
                      best: EventScore, nodes: nat): Outcome
    requires depth > 0
    decreases depth, 1, |states|
  {
    if states == [] then Outcome(Success(best), nodes)
    else
      var child := Child(states[0], depth, maxDepth, maximizing, clusterize, k);
      if child.result.Failure? then Outcome(Failure, nodes + child.nodes)
      else FoldStates(states[1..], depth, maxDepth, maximizing, clusterize, k,
        Pick(states[0], child.result.value.score, best, maximizing), nodes + child.nodes)
  }

  /** The search of one representative, one level down. */
  function Child(s: State, depth: nat, maxDepth: nat, maximizing: bool, clusterize: Clusterer, k: int): Outcome
    requires depth > 0
    decreases depth, 0, 0
  {
    Minimax(s.gameState, depth - 1, maxDepth, maximizing, clusterize, k)
  }

  /** Weight the child's score by its probability and keep it if strictly better. */
  function Pick(s: State, score: real, best: EventScore, maximizing: bool): EventScore
  {
    var weighted := score * s.probability;
    if Better(weighted, best.score, maximizing) then EventScore(Some(s.lastMove), weighted) else best
  }

  lemma FoldStatesUnfold(states: seq<State>, i: nat, depth: nat, maxDepth: nat, maximizing: bool, clusterize: Clusterer, k: int,
                         best: EventScore, nodes: nat)
    requires depth > 0 && i < |states|
    ensures var child := Child(states[i], depth, maxDepth, maximizing, clusterize, k);
      FoldStates(states[i..], depth, maxDepth, maximizing, clusterize, k, best, nodes) ==
        if child.result.Failure? then Outcome(Failure, nodes + child.nodes)
        else FoldStates(states[i + 1..], depth, maxDepth, maximizing, clusterize, k,
          Pick(states[i], child.result.value.score, best, maximizing), nodes + child.nodes)
  {
    assert states[i..][0] == states[i] && states[i..][1..] == states[i + 1..];
  }

  /**
   * The search never clusters: every expanded node collects fewer than six states (or fails
   * to collect), all the way down.
   */
  predicate Unclustered(n: Node, depth: nat, maxDepth: nat, maximizing: bool)
    decreases depth
  {
    depth == 0 || n.ended || (n.moves == [] && depth == maxDepth) ||
    var collected := PossibleStates(WithoutUnnecessary(ExpandedMoves(n)));
    collected.Failure? ||
    (|collected.value| < MIN_CLUSTERED_STATES &&
     forall i :: 0 <= i < |collected.value| ==>
       Unclustered(collected.value[i].gameState, depth - 1, maxDepth, ExpandedRole(n, maximizing)))
  }

  /** A search that never clusters is exactly MinimaxBot's: same move, same score, same count. */
  lemma {:induction false} UnclusteredIsMinimaxBot(n: Node, depth: nat, maxDepth: nat, maximizing: bool, clusterize: Clusterer, k: int)
    requires Unclustered(n, depth, maxDepth, maximizing)
    ensures var m := MovementMinimaxBot.Minimax(n, depth, maxDepth, maximizing);
      Minimax(n, depth, maxDepth, maximizing, clusterize, k) == Outcome(Success(m.result), m.nodes)
    decreases depth, 1
  {
    if !(depth == 0 || n.ended) && !(n.moves == [] && depth == maxDepth) {
      var moves := WithoutUnnecessary(ExpandedMoves(n));
      var role := ExpandedRole(n, maximizing);
      if PossibleStates(moves).Success? {
        var states := PossibleStates(moves).value;
        assert BestRepresentatives(states, clusterize, k) == Success(states);
        UnclusteredChildrenAgree(n, depth, maxDepth, maximizing, clusterize, k);
        FoldStatesIsMinimaxBot(states, depth, maxDepth, role, clusterize, k, Initial(role), 0);
        assert Expand(moves, depth, maxDepth, role, clusterize, k) ==
          FoldStates(states, depth, maxDepth, role, clusterize, k, Initial(role), 0);
        assert MovementMinimaxBot.Expand(moves, depth, maxDepth, role) ==
          MovementMinimaxBot.FoldStates(states, depth, maxDepth, role, Explored(Initial(role), 0));
      }
    }
  }

  /** Below a node that never clusters, every collected state's search is MinimaxBot's. */
  lemma {:induction false} UnclusteredChildrenAgree(n: Node, depth: nat, maxDepth: nat, maximizing: bool, clusterize: Clusterer, k: int)
    requires depth > 0 && !n.ended && !(n.moves == [] && depth == maxDepth)
    requires Unclustered(n, depth, maxDepth, maximizing)
    requires PossibleStates(WithoutUnnecessary(ExpandedMoves(n))).Success?
    ensures var states := PossibleStates(WithoutUnnecessary(ExpandedMoves(n))).value;
      forall i :: 0 <= i < |states| ==> Agrees(states[i], depth, maxDepth, ExpandedRole(n, maximizing), clusterize, k)
    decreases depth, 0
  {
    var states := PossibleStates(WithoutUnnecessary(ExpandedMoves(n))).value;
    var role := ExpandedRole(n, maximizing);
    forall i | 0 <= i < |states|
      ensures Agrees(states[i], depth, maxDepth, role, clusterize, k)
    {
      UnclusteredIsMinimaxBot(states[i].gameState, depth - 1, maxDepth, role, clusterize, k);
    }
  }

  /** The representative's search gives MinimaxBot's result and count. */
  predicate Agrees(s: State, depth: nat, maxDepth: nat, maximizing: bool, clusterize: Clusterer, k: int)
    requires depth > 0
  {
    var m := MovementMinimaxBot.Minimax(s.gameState, depth - 1, maxDepth, maximizing);
    Child(s, depth, maxDepth, maximizing, clusterize, k) == Outcome(Success(m.result), m.nodes)
  }

  /** When every child agrees with MinimaxBot, so does the loop. */
  lemma {:induction false} FoldStatesIsMinimaxBot(states: seq<State>, depth: nat, maxDepth: nat, maximizing: bool,
                                                clusterize: Clusterer, k: int, best: EventScore, nodes: nat)
    requires depth > 0
    requires forall i :: 0 <= i < |states| ==> Agrees(states[i], depth, maxDepth, maximizing, clusterize, k)
    ensures var m := MovementMinimaxBot.FoldStates(states, depth, maxDepth, maximizing, Explored(best, nodes));
      FoldStates(states, depth, maxDepth, maximizing, clusterize, k, best, nodes) == Outcome(Success(m.result), m.nodes)
    decreases |states|
  {
    if states != [] {
      var s := states[0];
      assert Agrees(s, depth, maxDepth, maximizing, clusterize, k);
      var child := MovementMinimaxBot.Minimax(s.gameState, depth - 1, maxDepth, maximizing);
      var next := Pick(s, child.result.score, best, maximizing);
      assert MovementMinimaxBot.Step(s, depth, maxDepth, maximizing, Explored(best, nodes)) == Explored(next, nodes + child.nodes);
      assert forall i :: 0 <= i < |states[1..]| ==> states[1..][i] == states[i + 1];
      FoldStatesIsMinimaxBot(states[1..], depth, maxDepth, maximizing, clusterize, k, next, nodes + child.nodes);
    }
  }

  /** The child's weighted score, for children whose search succeeds. */
  function WeightedScore(s: State, depth: nat, maxDepth: nat, maximizing: bool, clusterize: Clusterer, k: int): real
    requires depth > 0
  {
    var child := Child(s, depth, maxDepth, maximizing, clusterize, k);
    if child.result.Success? then child.result.value.score * s.probability else 0.0
  }

  /** The representatives' moves and weighted scores, in the loop's order. */
  function Candidates(states: seq<State>, depth: nat, maxDepth: nat, maximizing: bool, clusterize: Clusterer, k: int): (cs: seq<Candidate>)
    requires depth > 0
    ensures |cs| == |states|
  {
    if states == [] then []
    else
      var first := Candidate(states[0].lastMove, WeightedScore(states[0], depth, maxDepth, maximizing, clusterize, k));
      [first] + Candidates(states[1..], depth, maxDepth, maximizing, clusterize, k)
  }

  /** The loop succeeds exactly when every representative's search succeeds. */
  lemma {:induction false} FoldStatesSucceeds(states: seq<State>, depth: nat, maxDepth: nat, maximizing: bool,
                                            clusterize: Clusterer, k: int, best: EventScore, nodes: nat)
    requires depth > 0
    ensures FoldStates(states, depth, maxDepth, maximizing, clusterize, k, best, nodes).result.Success? <==>
      forall i :: 0 <= i < |states| ==> Child(states[i], depth, maxDepth, maximizing, clusterize, k).result.Success?
    decreases |states|
  {
    if states != [] {
      var s := states[0];
      var child := Child(s, depth, maxDepth, maximizing, clusterize, k);
      if child.result.Success? {
        var next := Pick(s, child.result.value.score, best, maximizing);
        assert FoldStates(states, depth, maxDepth, maximizing, clusterize, k, best, nodes) ==
          FoldStates(states[1..], depth, maxDepth, maximizing, clusterize, k, next, nodes + child.nodes);
        FoldStatesSucceeds(states[1..], depth, maxDepth, maximizing, clusterize, k, next, nodes + child.nodes);
        assert forall i :: 0 <= i < |states[1..]| ==> states[1..][i] == states[i + 1];
      } else {
        assert FoldStates(states, depth, maxDepth, maximizing, clusterize, k, best, nodes).result == Failure;
      }
    }
  }

  /** When the loop succeeds it returns the first strictly best weighted candidate. */
  lemma {:induction false} FoldStatesIsFoldBest(states: seq<State>, depth: nat, maxDepth: nat, maximizing: bool,
                                              clusterize: Clusterer, k: int, best: EventScore, nodes: nat)
    requires depth > 0
    ensures FoldStates(states, depth, maxDepth, maximizing, clusterize, k, best, nodes).result.Success? ==>
      FoldStates(states, depth, maxDepth, maximizing, clusterize, k, best, nodes).result.value ==
        FoldBest(Candidates(states, depth, maxDepth, maximizing, clusterize, k), maximizing, best)
    decreases |states|
  {
    if states != [] {
      var s := states[0];
      var child := Child(s, depth, maxDepth, maximizing, clusterize, k);
      if child.result.Success? {
        var next := Pick(s, child.result.value.score, best, maximizing);
        assert FoldStates(states, depth, maxDepth, maximizing, clusterize, k, best, nodes) ==
          FoldStates(states[1..], depth, maxDepth, maximizing, clusterize, k, next, nodes + child.nodes);
        FoldStatesIsFoldBest(states[1..], depth, maxDepth, maximizing, clusterize, k, next, nodes + child.nodes);
        var cs := Candidates(states, depth, maxDepth, maximizing, clusterize, k);
        var c := Candidate(s.lastMove, WeightedScore(s, depth, maxDepth, maximizing, clusterize, k));
        assert cs[0] == c && cs[1..] == Candidates(states[1..], depth, maxDepth, maximizing, clusterize, k);
        assert next == if Better(c.score, best.score, maximizing) then EventScore(Some(c.event), c.score) else best;
        assert FoldBest(cs, maximizing, best) == FoldBest(cs[1..], maximizing, next);
      } else {
        assert FoldStates(states, depth, maxDepth, maximizing, clusterize, k, best, nodes).result == Failure;
      }
    }
  }

  /** With in-range evaluations and chances and a faithful clusterer, every score lies in [MIN_COST, MAX_COST]. */
  lemma {:induction false} MinimaxInRange(n: Node, depth: nat, maxDepth: nat, maximizing: bool, clusterize: Clusterer, k: int)
    requires Bounded(n) && Faithful(clusterize)
    ensures Minimax(n, depth, maxDepth, maximizing, clusterize, k).result.Success? ==>
      MIN_COST <= Minimax(n, depth, maxDepth, maximizing, clusterize, k).result.value.score <= MAX_COST
    decreases depth
  {
    if !(depth == 0 || n.ended) && !(n.moves == [] && depth == maxDepth) {
      var moves := WithoutUnnecessary(ExpandedMoves(n));
      var role := ExpandedRole(n, maximizing);
      if PossibleStates(moves).Success? {
        var states := PossibleStates(moves).value;
        CollectedBounded(n, ExpandedMoves(n));
        var reps := BestRepresentatives(states, clusterize, k);
        if reps.Success? {
          RepresentativesFromInput(states, clusterize, k);
          forall i | 0 <= i < |reps.value|
            ensures ChildInRange(reps.value[i], depth, maxDepth, role, clusterize, k)
          {
            assert reps.value[i] in states;
            MinimaxInRange(reps.value[i].gameState, depth - 1, maxDepth, role, clusterize, k);
          }
          FoldStatesInRange(reps.value, depth, maxDepth, role, clusterize, k, Initial(role), 0);
        }
      }
    }
  }

  /** The representative is reached with a probability in [0, 1] and its search scores in range. */
  predicate ChildInRange(s: State, depth: nat, maxDepth: nat, maximizing: bool, clusterize: Clusterer, k: int)
    requires depth > 0
  {
    var child := Child(s, depth, maxDepth, maximizing, clusterize, k);
    0.0 <= s.probability <= 1.0 &&
    (child.result.Success? ==> MIN_COST <= child.result.value.score <= MAX_COST)
  }

  /** Weighted in-range scores keep the loop's best in range. */
  lemma {:induction false} FoldStatesInRange(states: seq<State>, depth: nat, maxDepth: nat, maximizing: bool,
                                           clusterize: Clusterer, k: int, best: EventScore, nodes: nat)
    requires depth > 0 && MIN_COST <= best.score <= MAX_COST
    requires forall i :: 0 <= i < |states| ==> ChildInRange(states[i], depth, maxDepth, maximizing, clusterize, k)
    ensures FoldStates(states, depth, maxDepth, maximizing, clusterize, k, best, nodes).result.Success? ==>
      MIN_COST <= FoldStates(states, depth, maxDepth, maximizing, clusterize, k, best, nodes).result.value.score <= MAX_COST
    decreases |states|
  {
    if states != [] {
      var s := states[0];
      var child := Child(s, depth, maxDepth, maximizing, clusterize, k);
      assert ChildInRange(s, depth, maxDepth, maximizing, clusterize, k);
      if child.result.Success? {
        WeightedInRange(child.result.value.score, s.probability);
        var next := Pick(s, child.result.value.score, best, maximizing);
        assert FoldStates(states, depth, maxDepth, maximizing, clusterize, k, best, nodes) ==
          FoldStates(states[1..], depth, maxDepth, maximizing, clusterize, k, next, nodes + child.nodes);
        assert forall i :: 0 <= i < |states[1..]| ==> states[1..][i] == states[i + 1];
        FoldStatesInRange(states[1..], depth, maxDepth, maximizing, clusterize, k, next, nodes + child.nodes);
      }
    }
  }

  class MinimaxWithSimpleClusterizationBot {
    const maxDepth: nat
    const treeAnalyzer: Instrumentation.TreeAnalyzer
    const clusterization: Clusterer
    const clustersAmount: int

    constructor (maxDepth: nat, clustersAmount: int, clusterization: Clusterer)
      ensures this.maxDepth == maxDepth && this.clustersAmount == clustersAmount && this.clusterization == clusterization
      ensures fresh(treeAnalyzer)
      ensures treeAnalyzer.nodesCount == 0 && treeAnalyzer.moveStartTime == 0 && treeAnalyzer.moveEndTime == 0
    {
      this.maxDepth := maxDepth;
      this.clustersAmount := clustersAmount;
      this.clusterization := clusterization;
      treeAnalyzer := new Instrumentation.TreeAnalyzer();
    }

    /**
     * `generateMakeMoveEvent`: search the root as the maximizing player; an exception ends the
     * call before the second clock reading.
     */
    method GenerateMakeMoveEvent(gameState: Node, startTime: int, endTime: int) returns (event: Result<Option<MakeMoveEvent>>)
      modifies treeAnalyzer
      ensures var o := Minimax(gameState, maxDepth, maxDepth, true, clusterization, clustersAmount);
        event == (if o.result.Success? then Success(o.result.value.event) else Failure) &&
        treeAnalyzer.nodesCount == old(treeAnalyzer.nodesCount) + o.nodes &&
        treeAnalyzer.moveStartTime == startTime &&
        treeAnalyzer.moveEndTime == (if o.result.Success? then endTime else old(treeAnalyzer.moveEndTime))
    {
      treeAnalyzer.StartMoveStopWatch(startTime);
      var result := MinimaxSearch(gameState, maxDepth, true);
      if result.Failure? {
        return Failure;
      }
      treeAnalyzer.EndMoveStopWatch(endTime);
      event := Success(result.value.event);
    }

    /** `minimax`. */
    method MinimaxSearch(gameState: Node, depth: nat, maximizing: bool) returns (r: Result<EventScore>)
      modifies treeAnalyzer`nodesCount
      ensures r == Minimax(gameState, depth, maxDepth, maximizing, clusterization, clustersAmount).result
      ensures treeAnalyzer.nodesCount == old(treeAnalyzer.nodesCount) + Minimax(gameState, depth, maxDepth, maximizing, clusterization, clustersAmount).nodes
      decreases depth, 3, 0
    {
      treeAnalyzer.IncrementNodesCount();
      if depth == 0 || gameState.ended {
        return Success(EventScore(None, gameState.value));
      }
      var possibleMoves := gameState.moves;
      var role := maximizing;
      if |possibleMoves| == 0 {
        if depth == maxDepth {
          return Success(EventScore(None, if maximizing then MIN_COST else MAX_COST));
        }
        possibleMoves := gameState.passMoves;
        role := !maximizing;
      }
      possibleMoves := RemoveUnnecessaryMoves(possibleMoves);
      if role {
        r := Maximize(possibleMoves, depth);
      } else {
        r := Minimize(possibleMoves, depth);
      }
    }

    /** `maximize`. */
    method Maximize(possibleMoves: seq<Move>, depth: nat) returns (r: Result<EventScore>)
      requires depth > 0
      modifies treeAnalyzer`nodesCount
      ensures r == Expand(possibleMoves, depth, maxDepth, true, clusterization, clustersAmount).result
      ensures treeAnalyzer.nodesCount == old(treeAnalyzer.nodesCount) + Expand(possibleMoves, depth, maxDepth, true, clusterization, clustersAmount).nodes
      decreases depth, 2, 1
    {
      r := Search(possibleMoves, depth, true);
    }

    /** `minimize`. */
    method Minimize(possibleMoves: seq<Move>, depth: nat) returns (r: Result<EventScore>)
      requires depth > 0
      modifies treeAnalyzer`nodesCount
      ensures r == Expand(possibleMoves, depth, maxDepth, false, clusterization, clustersAmount).result
      ensures treeAnalyzer.nodesCount == old(treeAnalyzer.nodesCount) + Expand(possibleMoves, depth, maxDepth, false, clusterization, clustersAmount).nodes
      decreases depth, 2, 1
    {
      r := Search(possibleMoves, depth, false);
    }

    /** The body `maximize` and `minimize` share: collect, pick representatives, keep the strictly best. */
    method Search(possibleMoves: seq<Move>, depth: nat, maximizing: bool) returns (r: Result<EventScore>)
      requires depth > 0
      modifies treeAnalyzer`nodesCount
      ensures r == Expand(possibleMoves, depth, maxDepth, maximizing, clusterization, clustersAmount).result
      ensures treeAnalyzer.nodesCount == old(treeAnalyzer.nodesCount) + Expand(possibleMoves, depth, maxDepth, maximizing, clusterization, clustersAmount).nodes
      decreases depth, 2, 0
    {
      var bestResult := EventScore(None, if maximizing then MIN_COST else MAX_COST);
      var collected := CollectPossibleStates(possibleMoves);
      if collected.Failure? {
        return Success(bestResult);
      }
      var picked := GetBestRepresentatives(collected.value);
      if picked.Failure? {
        return Failure;
      }
      var possibleStates := picked.value;
      assert Expand(possibleMoves, depth, maxDepth, maximizing, clusterization, clustersAmount) ==
        FoldStates(possibleStates, depth, maxDepth, maximizing, clusterization, clustersAmount, bestResult, 0);
      r := SearchStates(possibleStates, depth, maximizing, bestResult);
    }

    /** The loop over the representatives, keeping the strictly best weighted score. */
    method SearchStates(possibleStates: seq<State>, depth: nat, maximizing: bool, best: EventScore) returns (r: Result<EventScore>)
      requires depth > 0
      modifies treeAnalyzer`nodesCount
      ensures r == FoldStates(possibleStates, depth, maxDepth, maximizing, clusterization, clustersAmount, best, 0).result
      ensures treeAnalyzer.nodesCount == old(treeAnalyzer.nodesCount) +
        FoldStates(possibleStates, depth, maxDepth, maximizing, clusterization, clustersAmount, best, 0).nodes
      decreases depth, 1, 0
    {
      var bestResult := best;
      ghost var start := treeAnalyzer.nodesCount;
      for i := 0 to |possibleStates|
        invariant treeAnalyzer.nodesCount >= start
        invariant FoldStates(possibleStates[i..], depth, maxDepth, maximizing, clusterization, clustersAmount, bestResult, treeAnalyzer.nodesCount - start) ==
          FoldStates(possibleStates, depth, maxDepth, maximizing, clusterization, clustersAmount, best, 0)
      {
        var possibleState := possibleStates[i];
        ghost var acc := treeAnalyzer.nodesCount - start;
        FoldStatesUnfold(possibleStates, i, depth, maxDepth, maximizing, clusterization, clustersAmount, bestResult, acc);
        ghost var child := Child(possibleState, depth, maxDepth, maximizing, clusterization, clustersAmount);
        var result := MinimaxSearch(possibleState.gameState, depth - 1, maximizing);
        assert result == child.result && treeAnalyzer.nodesCount - start == acc + child.nodes;
        if result.Failure? {
          return Failure;
        }
        ghost var picked := Pick(possibleState, result.value.score, bestResult, maximizing);
        var score := result.value.score * possibleState.probability;
        if (maximizing && score > bestResult.score) || (!maximizing && score < bestResult.score) {
          bestResult := EventScore(Some(possibleState.lastMove), score);
        }
        assert bestResult == picked;
      }
      assert possibleStates[|possibleStates|..] == [];
      r := Success(bestResult);
    }

    /** `getBestRepresentatives`. */
    method GetBestRepresentatives(states: seq<State>) returns (r: Result<seq<State>>)
      ensures r == BestRepresentatives(states, clusterization, clustersAmount)
    {
      if |states| == 0 {
        return Success(states);
      }
      var representativesAmount := clustersAmount;
      if |states| < 6 {
        return Success(states);
      }
      var statesClusterables := GetClusterableStates(states);
      var clusters := clusterization(statesClusterables);
      if clusters.None? {
        return Failure;
      }
      r := PickRepresentatives(clusters.value, representativesAmount);
    }
  }
}
