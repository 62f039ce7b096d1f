/**
 * movement_stage/MinimaxBot: plain minimax over the deduplicated moves and the outcomes
 * `collectPossibleStates` keeps, each child's score weighted by its probability.
 */
module MinimaxBot {
  import opened Wrappers
  import opened Game
  import opened Search
  import opened MovementBotUtil
  import Instrumentation

  /** `minimax(gameState, depth, maximizing)`: the result and the number of calls it makes. */
  function Minimax(n: Node, depth: nat, maxDepth: nat, maximizing: bool): Explored
    decreases depth, 4, 0
  {
    if depth == 0 || n.ended then Explored(EventScore(None, n.value), 1)
    else if n.moves == [] && depth == maxDepth then Explored(Initial(maximizing), 1)
    else
      var e := Expand(WithoutUnnecessary(ExpandedMoves(n)), depth, maxDepth, ExpandedRole(n, maximizing));
      Explored(e.result, e.nodes + 1)
  }

  /** `maximize` / `minimize`: a `GameException` while collecting leaves the initial best. */
  function Expand(moves: seq<Move>, depth: nat, maxDepth: nat, maximizing: bool): Explored
    requires depth > 0
    decreases depth, 3, 0
  {
    match PossibleStates(moves)
    case Failure => Explored(Initial(maximizing), 0)
    case Success(states) => FoldStates(states, depth, maxDepth, maximizing, Explored(Initial(maximizing), 0))
  }

  /** The loop over the collected states; children are searched with the same role flag. */
  function FoldStates(states: seq<State>, depth: nat, maxDepth: nat, maximizing: bool, acc: Explored): Explored
    requires depth > 0
    decreases depth, 2, |states|
  {
    if states == [] then acc
    else FoldStates(states[1..], depth, maxDepth, maximizing, Step(states[0], depth, maxDepth, maximizing, acc))
  }

  /** One iteration: search the child, weight its score, keep it if strictly better. */
  function Step(s: State, depth: nat, maxDepth: nat, maximizing: bool, acc: Explored): Explored
    requires depth > 0
    decreases depth, 1, 0
  {
    var w := Weighted(s, depth, maxDepth, maximizing);
    Explored(if Better(w, acc.result.score, maximizing) then EventScore(Some(s.lastMove), w) else acc.result,
      acc.nodes + Minimax(s.gameState, depth - 1, maxDepth, maximizing).nodes)
  }

  /** A child's score multiplied by the probability of reaching it. */
  function Weighted(s: State, depth: nat, maxDepth: nat, maximizing: bool): real
    requires depth > 0
    decreases depth, 0, 0
  {
    Minimax(s.gameState, depth - 1, maxDepth, maximizing).result.score * s.probability
  }

  lemma FoldStatesUnfold(states: seq<State>, i: nat, depth: nat, maxDepth: nat, maximizing: bool, acc: Explored)
    requires depth > 0 && i < |states|
    ensures FoldStates(states[i..], depth, maxDepth, maximizing, acc) ==
      FoldStates(states[i + 1..], depth, maxDepth, maximizing, Step(states[i], depth, maxDepth, maximizing, acc))
  {
    assert states[i..][1..] == states[i + 1..];
  }

  /** Each collected state's move and its weighted child score. */
  function Candidates(states: seq<State>, depth: nat, maxDepth: nat, maximizing: bool): (cs: seq<Candidate>)
    requires depth > 0
    ensures |cs| == |states|
    ensures forall i :: 0 <= i < |states| ==> cs[i] == Candidate(states[i].lastMove, Weighted(states[i], depth, maxDepth, maximizing))
  {
    seq(|states|, i requires 0 <= i < |states| => Candidate(states[i].lastMove, Weighted(states[i], depth, maxDepth, maximizing)))
  }

  /** The number of calls the children's searches make together. */
  function ChildNodes(states: seq<State>, depth: nat, maxDepth: nat, maximizing: bool): nat
    requires depth > 0
  {
    if states == [] then 0
    else Minimax(states[0].gameState, depth - 1, maxDepth, maximizing).nodes + ChildNodes(states[1..], depth, maxDepth, maximizing)
  }

  /** The loop is the generic first-strictly-best fold over the candidates, and counts every child's calls. */
  lemma {:induction false} FoldStatesIsFoldBest(states: seq<State>, depth: nat, maxDepth: nat, maximizing: bool, acc: Explored)
    requires depth > 0
    ensures FoldStates(states, depth, maxDepth, maximizing, acc).result ==
      FoldBest(Candidates(states, depth, maxDepth, maximizing), maximizing, acc.result)
    ensures FoldStates(states, depth, maxDepth, maximizing, acc).nodes ==
      acc.nodes + ChildNodes(states, depth, maxDepth, maximizing)
    decreases |states|
  {
    if states != [] {
      var next := Step(states[0], depth, maxDepth, maximizing, acc);
      FoldStatesIsFoldBest(states[1..], depth, maxDepth, maximizing, next);
      var cs := Candidates(states, depth, maxDepth, maximizing);
      var tail := Candidates(states[1..], depth, maxDepth, maximizing);
      forall i | 0 <= i < |tail|
        ensures tail[i] == cs[i + 1]
      {
        assert states[1..][i] == states[i + 1];
      }
      assert tail == cs[1..];
      assert next.result == if Better(cs[0].score, acc.result.score, maximizing) then EventScore(Some(cs[0].event), cs[0].score) else acc.result;
      assert FoldBest(cs, maximizing, acc.result) == FoldBest(tail, maximizing, next.result);
      assert ChildNodes(states, depth, maxDepth, maximizing) ==
        Minimax(states[0].gameState, depth - 1, maxDepth, maximizing).nodes + ChildNodes(states[1..], depth, maxDepth, maximizing);
    }
  }

  /**
   * A node's choice: the first collected state whose weighted score is strictly best, and
   * the initial (null, MIN_COST) or (null, MAX_COST) when collection fails; the count is one
   * plus the children's counts.
   */
  lemma ExpandChoosesFirstBest(moves: seq<Move>, depth: nat, maxDepth: nat, maximizing: bool)
    requires depth > 0
    ensures PossibleStates(moves).Failure? ==> Expand(moves, depth, maxDepth, maximizing) == Explored(Initial(maximizing), 0)
    ensures PossibleStates(moves).Success? ==>
      var states := PossibleStates(moves).value;
      Expand(moves, depth, maxDepth, maximizing).result == FoldBest(Candidates(states, depth, maxDepth, maximizing), maximizing, Initial(maximizing)) &&
      Expand(moves, depth, maxDepth, maximizing).nodes == ChildNodes(states, depth, maxDepth, maximizing)
  {
    if PossibleStates(moves).Success? {
      FoldStatesIsFoldBest(PossibleStates(moves).value, depth, maxDepth, maximizing, Explored(Initial(maximizing), 0));
    }
  }

  /** With in-range evaluations and chances, every result lies in [MIN_COST, MAX_COST]. */
  lemma {:induction false} MinimaxInRange(n: Node, depth: nat, maxDepth: nat, maximizing: bool)
    requires Bounded(n)
    ensures MIN_COST <= Minimax(n, depth, maxDepth, maximizing).result.score <= MAX_COST
    decreases depth, 2
  {
    if !(depth == 0 || n.ended) && !(n.moves == [] && depth == maxDepth) {
      var moves := WithoutUnnecessary(ExpandedMoves(n));
      var role := ExpandedRole(n, maximizing);
      ExpandChoosesFirstBest(moves, depth, maxDepth, role);
      if PossibleStates(moves).Success? {
        var states := PossibleStates(moves).value;
        CollectedBounded(n, ExpandedMoves(n));
        CandidatesInRange(states, depth, maxDepth, role);
        FoldBestInRange(Candidates(states, depth, maxDepth, role), role, Initial(role), MIN_COST, MAX_COST);
      }
    }
  }

  lemma {:induction false} CandidatesInRange(states: seq<State>, depth: nat, maxDepth: nat, maximizing: bool)
    requires depth > 0
    requires forall x :: x in states ==> 0.0 <= x.probability <= 1.0 && Bounded(x.gameState)
    ensures forall i :: 0 <= i < |states| ==>
      MIN_COST <= Candidates(states, depth, maxDepth, maximizing)[i].score <= MAX_COST
    decreases depth, 1
  {
    forall i | 0 <= i < |states|
      ensures MIN_COST <= Weighted(states[i], depth, maxDepth, maximizing) <= MAX_COST
    {
      assert states[i] in states;
      WeightedScoreInRange(states[i], depth, maxDepth, maximizing);
    }
  }

  lemma {:induction false} WeightedScoreInRange(s: State, depth: nat, maxDepth: nat, maximizing: bool)
    requires depth > 0 && 0.0 <= s.probability <= 1.0 && Bounded(s.gameState)
    ensures MIN_COST <= Weighted(s, depth, maxDepth, maximizing) <= MAX_COST
    decreases depth, 0
  {
    var score := Minimax(s.gameState, depth - 1, maxDepth, maximizing).result.score;
    MinimaxInRange(s.gameState, depth - 1, maxDepth, maximizing);
    WeightedInRange(score, s.probability);
    assert Weighted(s, depth, maxDepth, maximizing) == score * s.probability;
  }

  class MinimaxBot {
    const maxDepth: nat
    const treeAnalyzer: Instrumentation.TreeAnalyzer

    constructor (maxDepth: nat)
      ensures this.maxDepth == maxDepth && fresh(treeAnalyzer)
      ensures treeAnalyzer.nodesCount == 0 && treeAnalyzer.moveStartTime == 0 && treeAnalyzer.moveEndTime == 0
    {
      this.maxDepth := maxDepth;
      treeAnalyzer := new Instrumentation.TreeAnalyzer();
    }

    /** `generateMakeMoveEvent`: search the root as the maximizing player between two clock readings. */
    method GenerateMakeMoveEvent(gameState: Node, startTime: int, endTime: int) returns (event: Option<MakeMoveEvent>)
      modifies treeAnalyzer
      ensures event == Minimax(gameState, maxDepth, maxDepth, true).result.event
      ensures treeAnalyzer.nodesCount == old(treeAnalyzer.nodesCount) + Minimax(gameState, maxDepth, maxDepth, true).nodes
      ensures treeAnalyzer.moveStartTime == startTime && treeAnalyzer.moveEndTime == endTime
    {
      treeAnalyzer.StartMoveStopWatch(startTime);
      var result := MinimaxSearch(gameState, maxDepth, true);
      treeAnalyzer.EndMoveStopWatch(endTime);
      event := result.event;
    }

    /** `minimax`. */
    method MinimaxSearch(gameState: Node, depth: nat, maximizing: bool) returns (r: EventScore)
      modifies treeAnalyzer`nodesCount
      ensures r == Minimax(gameState, depth, maxDepth, maximizing).result
      ensures treeAnalyzer.nodesCount == old(treeAnalyzer.nodesCount) + Minimax(gameState, depth, maxDepth, maximizing).nodes
      decreases depth, 4, 0
    {
      treeAnalyzer.IncrementNodesCount();
      if depth == 0 || gameState.ended {
        return EventScore(None, gameState.value);
      }
      var possibleMoves := gameState.moves;
      var role := maximizing;
      if |possibleMoves| == 0 {
        if depth == maxDepth {
          return EventScore(None, if maximizing then MIN_COST else MAX_COST);
        }
        possibleMoves := gameState.passMoves;
        role := !maximizing;
      }
      possibleMoves := RemoveUnnecessaryMoves(possibleMoves);
      if role {
        r := Maximize(possibleMoves, depth);
      } else {
        r := Minimize(possibleMoves, depth);
      }
    }

    /** `maximize`. */
    method Maximize(possibleMoves: seq<Move>, depth: nat) returns (bestResult: EventScore)
      requires depth > 0
      modifies treeAnalyzer`nodesCount
      ensures bestResult == Expand(possibleMoves, depth, maxDepth, true).result
      ensures treeAnalyzer.nodesCount == old(treeAnalyzer.nodesCount) + Expand(possibleMoves, depth, maxDepth, true).nodes
      decreases depth, 3, 0
    {
      bestResult := EventScore(None, MIN_COST);
      var collected := CollectPossibleStates(possibleMoves);
      if collected.Failure? {
        return;
      }
      var possibleStates := collected.value;
      ghost var start := treeAnalyzer.nodesCount;
      for i := 0 to |possibleStates|
        invariant treeAnalyzer.nodesCount >= start
        invariant FoldStates(possibleStates[i..], depth, maxDepth, true, Explored(bestResult, treeAnalyzer.nodesCount - start)) ==
          FoldStates(possibleStates, depth, maxDepth, true, Explored(Initial(true), 0))
      {
        var possibleState := possibleStates[i];
        ghost var acc := Explored(bestResult, treeAnalyzer.nodesCount - start);
        FoldStatesUnfold(possibleStates, i, depth, maxDepth, true, acc);
        bestResult := ExploreState(possibleState, depth, true, bestResult, acc.nodes);
        assert Explored(bestResult, treeAnalyzer.nodesCount - start) == Step(possibleState, depth, maxDepth, true, acc);
      }
    }

    /** One pass of the loop in `maximize` (`>`) or `minimize` (`<`): search the state, weight its score, keep it if strictly better. */
    method ExploreState(possibleState: State, depth: nat, maximizing: bool, best: EventScore, ghost nodes: nat) returns (bestResult: EventScore)
      requires depth > 0
      modifies treeAnalyzer`nodesCount
      ensures treeAnalyzer.nodesCount >= old(treeAnalyzer.nodesCount)
      ensures Explored(bestResult, nodes + treeAnalyzer.nodesCount - old(treeAnalyzer.nodesCount)) == Step(possibleState, depth, maxDepth, maximizing, Explored(best, nodes))
      decreases depth, 2, 0
    {
      ghost var child := Minimax(possibleState.gameState, depth - 1, maxDepth, maximizing);
      ghost var before := treeAnalyzer.nodesCount;
      var result := MinimaxSearch(possibleState.gameState, depth - 1, maximizing);
      assert result == child.result && treeAnalyzer.nodesCount == before + child.nodes;
      var score := result.score * possibleState.probability;
      assert score == Weighted(possibleState, depth, maxDepth, maximizing);
      ghost var picked := if Better(score, best.score, maximizing) then EventScore(Some(possibleState.lastMove), score) else best;
      assert Step(possibleState, depth, maxDepth, maximizing, Explored(best, nodes)) == Explored(picked, nodes + child.nodes);
      bestResult := best;
      if Better(score, bestResult.score, maximizing) {
        bestResult := EventScore(Some(possibleState.lastMove), score);
      }
    }

    /** `minimize`. */
    method Minimize(possibleMoves: seq<Move>, depth: nat) returns (bestResult: EventScore)
      requires depth > 0
      modifies treeAnalyzer`nodesCount
      ensures bestResult == Expand(possibleMoves, depth, maxDepth, false).result
      ensures treeAnalyzer.nodesCount == old(treeAnalyzer.nodesCount) + Expand(possibleMoves, depth, maxDepth, false).nodes
      decreases depth, 3, 0
    {
      bestResult := EventScore(None, MAX_COST);
      var collected := CollectPossibleStates(possibleMoves);
      if collected.Failure? {
        return;
      }
      var possibleStates := collected.value;
      ghost var start := treeAnalyzer.nodesCount;
      for i := 0 to |possibleStates|
        invariant treeAnalyzer.nodesCount >= start
        invariant FoldStates(possibleStates[i..], depth, maxDepth, false, Explored(bestResult, treeAnalyzer.nodesCount - start)) ==
          FoldStates(possibleStates, depth, maxDepth, false, Explored(Initial(false), 0))
      {
        var possibleState := possibleStates[i];
        ghost var acc := Explored(bestResult, treeAnalyzer.nodesCount - start);
        FoldStatesUnfold(possibleStates, i, depth, maxDepth, false, acc);
        bestResult := ExploreState(possibleState, depth, false, bestResult, acc.nodes);
        assert Explored(bestResult, treeAnalyzer.nodesCount - start) == Step(possibleState, depth, maxDepth, false, acc);
      }
    }
  }
}
