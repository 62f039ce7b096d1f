/**
 * movement_stage/AlphaBetaMinimaxBot: MinimaxMovementBot's nested move/outcome loops with an
 * (alpha, beta) window. After every searched outcome a max node raises alpha to its best score
 * and a min node lowers beta to it; once beta <= alpha the remaining outcomes and moves are skipped.
 */
module AlphaBetaMinimaxBot {
  import opened Wrappers
  import opened Game
  import opened Search
  import opened MovementBotUtil
  import Instrumentation
  import MinimaxMovementBot

  /** `bestResult`, `alpha` and `beta` of a maximize/minimize loop, and the calls made so far. */
  datatype Window = Window(best: EventScore, alpha: real, beta: real, nodes: nat)

  function Max(a: real, b: real): real { if a >= b then a else b }

  function Min(a: real, b: real): real { if a <= b then a else b }

  predicate Cutoff(w: Window) { w.beta <= w.alpha }

  /** `minimax(gameState, depth, alpha, beta, maximizing)`. */
  function AlphaBeta(n: Node, depth: nat, maxDepth: nat, alpha: real, beta: real, maximizing: bool): Explored
    decreases depth, 3, 0
  {
    if depth == 0 || n.ended then Explored(EventScore(None, n.value), 1)
    else if n.moves == [] && depth == maxDepth then Explored(Initial(maximizing), 1)
    else
      var role := ExpandedRole(n, maximizing);
      var w := FoldMoves(WithoutUnnecessary(ExpandedMoves(n)), depth, maxDepth, role, Window(Initial(role), alpha, beta, 0));
      Explored(w.best, w.nodes + 1)
  }

  /** The loop over the moves: a rejected move, or a cutoff after a move's outcomes, ends it. */
  function FoldMoves(moves: seq<Move>, depth: nat, maxDepth: nat, maximizing: bool, w: Window): Window
    requires depth > 0
    decreases depth, 2, |moves|
  {
    if moves == [] then w
    else match moves[0].outcomes
      case Rejected => w
      case Applied(options) =>
        var after := FoldOutcomes(options, moves[0].event, depth, maxDepth, maximizing, w);
        if Cutoff(after) then after else FoldMoves(moves[1..], depth, maxDepth, maximizing, after)
  }

  /** The loop over one move's outcomes: skip those below BAD_BRANCH_PROBABILITY, stop at a cutoff. */
  function FoldOutcomes(options: seq<StateChance>, event: MakeMoveEvent, depth: nat, maxDepth: nat, maximizing: bool, w: Window): Window
    requires depth > 0
    decreases depth, 1, |options|
  {
    if options == [] then w
    else if options[0].chance < BAD_BRANCH_PROBABILITY then FoldOutcomes(options[1..], event, depth, maxDepth, maximizing, w)
    else
      var next := Step(State(options[0].state, options[0].chance, event), depth, maxDepth, maximizing, w);
      if Cutoff(next) then next else FoldOutcomes(options[1..], event, depth, maxDepth, maximizing, next)
  }

  /** One searched outcome: the child gets the current window; then the best and the window are updated. */
  function Step(s: State, depth: nat, maxDepth: nat, maximizing: bool, w: Window): Window
    requires depth > 0
    decreases depth, 0, 1
  {
    var score := Weighted(s, depth, maxDepth, maximizing, w);
    var best := if Better(score, w.best.score, maximizing) then EventScore(Some(s.lastMove), score) else w.best;
    var nodes := w.nodes + AlphaBeta(s.gameState, depth - 1, maxDepth, w.alpha, w.beta, maximizing).nodes;
    if maximizing then Window(best, Max(w.alpha, best.score), w.beta, nodes)
    else Window(best, w.alpha, Min(w.beta, best.score), nodes)
  }

  function Weighted(s: State, depth: nat, maxDepth: nat, maximizing: bool, w: Window): real
    requires depth > 0
    decreases depth, 0, 0
  {
    AlphaBeta(s.gameState, depth - 1, maxDepth, w.alpha, w.beta, maximizing).result.score * s.probability
  }

  // Node counts against MinimaxMovementBot

  /** MinimaxMovementBot's loops never lose calls already counted. */
  lemma PlainMovesGrow(moves: seq<Move>, depth: nat, maxDepth: nat, maximizing: bool, acc: Explored)
    requires depth > 0
    ensures MinimaxMovementBot.FoldMoves(moves, depth, maxDepth, maximizing, acc).nodes >= acc.nodes
  {
    MinimaxMovementBot.FoldMovesIsFoldReached(moves, depth, maxDepth, maximizing, acc);
    MinimaxMovementBot.FoldReachedIsFoldBest(MinimaxMovementBot.Reached(moves), depth, maxDepth, maximizing, acc);
  }

  lemma PlainOutcomesGrow(options: seq<StateChance>, event: MakeMoveEvent, depth: nat, maxDepth: nat, maximizing: bool, acc: Explored)
    requires depth > 0
    ensures MinimaxMovementBot.FoldOutcomes(options, event, depth, maxDepth, maximizing, acc).nodes >= acc.nodes
  {
    MinimaxMovementBot.FoldOutcomesIsFoldReached(options, event, depth, maxDepth, maximizing, acc);
    MinimaxMovementBot.FoldReachedIsFoldBest(MinimaxMovementBot.ReachedOptions(options, event), depth, maxDepth, maximizing, acc);
  }

  /**
   * On the same tree, whatever the window, alpha-beta makes no more `minimax` calls than
   * MinimaxMovementBot: it searches a prefix of the same outcomes, each with no more calls.
   */
  lemma {:induction false} AlphaBetaVisitsNoMore(n: Node, depth: nat, maxDepth: nat, alpha: real, beta: real, maximizing: bool)
    ensures AlphaBeta(n, depth, maxDepth, alpha, beta, maximizing).nodes <= MinimaxMovementBot.Minimax(n, depth, maxDepth, maximizing).nodes
    decreases depth, 3, 0
  {
    if !(depth == 0 || n.ended) && !(n.moves == [] && depth == maxDepth) {
      var role := ExpandedRole(n, maximizing);
      MovesVisitNoMore(WithoutUnnecessary(ExpandedMoves(n)), depth, maxDepth, role,
        Window(Initial(role), alpha, beta, 0), Explored(Initial(role), 0));
    }
  }

  lemma {:induction false} MovesVisitNoMore(moves: seq<Move>, depth: nat, maxDepth: nat, maximizing: bool, w: Window, acc: Explored)
    requires depth > 0
    ensures FoldMoves(moves, depth, maxDepth, maximizing, w).nodes >= w.nodes
    ensures FoldMoves(moves, depth, maxDepth, maximizing, w).nodes + acc.nodes <=
      MinimaxMovementBot.FoldMoves(moves, depth, maxDepth, maximizing, acc).nodes + w.nodes
    decreases depth, 2, |moves|
  {
    if moves != [] && moves[0].outcomes.Applied? {
      var options := moves[0].outcomes.options;
      var after := FoldOutcomes(options, moves[0].event, depth, maxDepth, maximizing, w);
      var plainAfter := MinimaxMovementBot.FoldOutcomes(options, moves[0].event, depth, maxDepth, maximizing, acc);
      OutcomesVisitNoMore(options, moves[0].event, depth, maxDepth, maximizing, w, acc);
      PlainMovesGrow(moves[1..], depth, maxDepth, maximizing, plainAfter);
      if !Cutoff(after) {
        MovesVisitNoMore(moves[1..], depth, maxDepth, maximizing, after, plainAfter);
      }
    }
  }

  lemma {:induction false} OutcomesVisitNoMore(options: seq<StateChance>, event: MakeMoveEvent, depth: nat, maxDepth: nat, maximizing: bool, w: Window, acc: Explored)
    requires depth > 0
    ensures FoldOutcomes(options, event, depth, maxDepth, maximizing, w).nodes >= w.nodes
    ensures FoldOutcomes(options, event, depth, maxDepth, maximizing, w).nodes + acc.nodes <=
      MinimaxMovementBot.FoldOutcomes(options, event, depth, maxDepth, maximizing, acc).nodes + w.nodes
    decreases depth, 1, |options|
  {
    if options != [] {
      if options[0].chance < BAD_BRANCH_PROBABILITY {
        OutcomesVisitNoMore(options[1..], event, depth, maxDepth, maximizing, w, acc);
      } else {
        var s := State(options[0].state, options[0].chance, event);
        var next := Step(s, depth, maxDepth, maximizing, w);
        var plainNext := MinimaxMovementBot.Step(s, depth, maxDepth, maximizing, acc);
        StepVisitsNoMore(s, depth, maxDepth, maximizing, w, acc);
        PlainOutcomesGrow(options[1..], event, depth, maxDepth, maximizing, plainNext);
        if !Cutoff(next) {
          OutcomesVisitNoMore(options[1..], event, depth, maxDepth, maximizing, next, plainNext);
        }
      }
    }
  }

  lemma {:induction false} StepVisitsNoMore(s: State, depth: nat, maxDepth: nat, maximizing: bool, w: Window, acc: Explored)
    requires depth > 0
    ensures Step(s, depth, maxDepth, maximizing, w).nodes >= w.nodes
    ensures Step(s, depth, maxDepth, maximizing, w).nodes + acc.nodes <=
      MinimaxMovementBot.Step(s, depth, maxDepth, maximizing, acc).nodes + w.nodes
    decreases depth, 0, 1
  {
    AlphaBetaVisitsNoMore(s.gameState, depth - 1, maxDepth, w.alpha, w.beta, maximizing);
  }

  // Range of the result

  /** Every outcome of every move is bounded, with a chance in [0, 1]. */
  predicate MovesBounded(moves: seq<Move>)
  {
    forall m, o :: m in moves && m.outcomes.Applied? && o in m.outcomes.options ==> 0.0 <= o.chance <= 1.0 && Bounded(o.state)
  }

  /** With in-range evaluations and chances, every result lies in [MIN_COST, MAX_COST], whatever the window. */
  lemma {:induction false} AlphaBetaInRange(n: Node, depth: nat, maxDepth: nat, alpha: real, beta: real, maximizing: bool)
    requires Bounded(n)
    ensures MIN_COST <= AlphaBeta(n, depth, maxDepth, alpha, beta, maximizing).result.score <= MAX_COST
    decreases depth, 3, 0
  {
    if !(depth == 0 || n.ended) && !(n.moves == [] && depth == maxDepth) {
      var role := ExpandedRole(n, maximizing);
      var moves := WithoutUnnecessary(ExpandedMoves(n));
      ExpandedMovesBounded(n);
      MovesInRange(moves, depth, maxDepth, role, Window(Initial(role), alpha, beta, 0));
      assert AlphaBeta(n, depth, maxDepth, alpha, beta, maximizing).result ==
        FoldMoves(moves, depth, maxDepth, role, Window(Initial(role), alpha, beta, 0)).best;
    }
  }

  lemma ExpandedMovesBounded(n: Node)
    requires Bounded(n)
    ensures MovesBounded(WithoutUnnecessary(ExpandedMoves(n)))
  {
    WithoutUnnecessaryProperties(ExpandedMoves(n));
    SubsequenceMembers(WithoutUnnecessary(ExpandedMoves(n)), ExpandedMoves(n));
    BoundedMembers(n, ExpandedMoves(n));
  }

  lemma {:induction false} MovesInRange(moves: seq<Move>, depth: nat, maxDepth: nat, maximizing: bool, w: Window)
    requires depth > 0 && MovesBounded(moves) && MIN_COST <= w.best.score <= MAX_COST
    ensures MIN_COST <= FoldMoves(moves, depth, maxDepth, maximizing, w).best.score <= MAX_COST
    decreases depth, 2, |moves|
  {
    if moves != [] && moves[0].outcomes.Applied? {
      var options := moves[0].outcomes.options;
      assert moves[0] in moves;
      OutcomesInRange(options, moves[0].event, depth, maxDepth, maximizing, w);
      var after := FoldOutcomes(options, moves[0].event, depth, maxDepth, maximizing, w);
      if !Cutoff(after) {
        assert MovesBounded(moves[1..]) by {
          forall m | m in moves[1..] ensures m in moves { }
        }
        MovesInRange(moves[1..], depth, maxDepth, maximizing, after);
      }
    }
  }

  lemma {:induction false} OutcomesInRange(options: seq<StateChance>, event: MakeMoveEvent, depth: nat, maxDepth: nat, maximizing: bool, w: Window)
    requires depth > 0 && MIN_COST <= w.best.score <= MAX_COST
    requires forall o :: o in options ==> 0.0 <= o.chance <= 1.0 && Bounded(o.state)
    ensures MIN_COST <= FoldOutcomes(options, event, depth, maxDepth, maximizing, w).best.score <= MAX_COST
    decreases depth, 1, |options|
  {
    if options != [] {
      assert options[0] in options;
      assert forall o :: o in options[1..] ==> o in options;
      if options[0].chance < BAD_BRANCH_PROBABILITY {
        OutcomesInRange(options[1..], event, depth, maxDepth, maximizing, w);
      } else {
        var s := State(options[0].state, options[0].chance, event);
        StepInRange(s, depth, maxDepth, maximizing, w);
        var next := Step(s, depth, maxDepth, maximizing, w);
        if !Cutoff(next) {
          OutcomesInRange(options[1..], event, depth, maxDepth, maximizing, next);
        }
      }
    }
  }

  lemma {:induction false} StepInRange(s: State, depth: nat, maxDepth: nat, maximizing: bool, w: Window)
    requires depth > 0 && MIN_COST <= w.best.score <= MAX_COST
    requires 0.0 <= s.probability <= 1.0 && Bounded(s.gameState)
    ensures MIN_COST <= Step(s, depth, maxDepth, maximizing, w).best.score <= MAX_COST
    decreases depth, 0, 1
  {
    AlphaBetaInRange(s.gameState, depth - 1, maxDepth, w.alpha, w.beta, maximizing);
    WeightedInRange(AlphaBeta(s.gameState, depth - 1, maxDepth, w.alpha, w.beta, maximizing).result.score, s.probability);
  }

  // The window

  /** A max node's alpha only rises and its beta stays; a min node's beta only falls and its alpha stays. */
  lemma {:induction false} WindowNarrows(moves: seq<Move>, depth: nat, maxDepth: nat, maximizing: bool, w: Window)
    requires depth > 0
    ensures var r := FoldMoves(moves, depth, maxDepth, maximizing, w);
      if maximizing then r.alpha >= w.alpha && r.beta == w.beta else r.beta <= w.beta && r.alpha == w.alpha
    decreases |moves|
  {
    if moves != [] && moves[0].outcomes.Applied? {
      var options := moves[0].outcomes.options;
      OutcomesNarrow(options, moves[0].event, depth, maxDepth, maximizing, w);
      var after := FoldOutcomes(options, moves[0].event, depth, maxDepth, maximizing, w);
      if !Cutoff(after) {
        WindowNarrows(moves[1..], depth, maxDepth, maximizing, after);
      }
    }
  }

  lemma {:induction false} OutcomesNarrow(options: seq<StateChance>, event: MakeMoveEvent, depth: nat, maxDepth: nat, maximizing: bool, w: Window)
    requires depth > 0
    ensures var r := FoldOutcomes(options, event, depth, maxDepth, maximizing, w);
      if maximizing then r.alpha >= w.alpha && r.beta == w.beta else r.beta <= w.beta && r.alpha == w.alpha
    decreases |options|
  {
    if options != [] {
      if options[0].chance < BAD_BRANCH_PROBABILITY {
        OutcomesNarrow(options[1..], event, depth, maxDepth, maximizing, w);
      } else {
        var next := Step(State(options[0].state, options[0].chance, event), depth, maxDepth, maximizing, w);
        if !Cutoff(next) {
          OutcomesNarrow(options[1..], event, depth, maxDepth, maximizing, next);
        }
      }
    }
  }

  class AlphaBetaMinimaxBot {
    const maxDepth: nat
    const treeAnalyzer: Instrumentation.TreeAnalyzer

    constructor (maxDepth: nat)
      ensures this.maxDepth == maxDepth && fresh(treeAnalyzer)
      ensures treeAnalyzer.nodesCount == 0 && treeAnalyzer.moveStartTime == 0 && treeAnalyzer.moveEndTime == 0
    {
      this.maxDepth := maxDepth;
      treeAnalyzer := new Instrumentation.TreeAnalyzer();
    }

    /** `generateMakeMoveEvent`: search the root maximizing, with the window (MIN_COST, MAX_COST). */
    method GenerateMakeMoveEvent(gameState: Node, startTime: int, endTime: int) returns (event: Option<MakeMoveEvent>)
      modifies treeAnalyzer
      ensures event == AlphaBeta(gameState, maxDepth, maxDepth, MIN_COST, MAX_COST, true).result.event
      ensures treeAnalyzer.nodesCount == old(treeAnalyzer.nodesCount) + AlphaBeta(gameState, maxDepth, maxDepth, MIN_COST, MAX_COST, true).nodes
      ensures treeAnalyzer.moveStartTime == startTime && treeAnalyzer.moveEndTime == endTime
    {
      treeAnalyzer.StartMoveStopWatch(startTime);
      var result := MinimaxSearch(gameState, maxDepth, MIN_COST, MAX_COST, true);
      treeAnalyzer.EndMoveStopWatch(endTime);
      event := result.event;
    }

    /** `minimax`. */
    method MinimaxSearch(gameState: Node, depth: nat, alpha: real, beta: real, maximizing: bool) returns (r: EventScore)
      modifies treeAnalyzer`nodesCount
      ensures r == AlphaBeta(gameState, depth, maxDepth, alpha, beta, maximizing).result
      ensures treeAnalyzer.nodesCount == old(treeAnalyzer.nodesCount) + AlphaBeta(gameState, depth, maxDepth, alpha, beta, maximizing).nodes
      decreases depth, 3, 0
    {
      treeAnalyzer.IncrementNodesCount();
      if depth == 0 || gameState.ended {
        return EventScore(None, gameState.value);
      }
      var possibleMoves := gameState.moves;
      var role := maximizing;
      if |possibleMoves| == 0 {
        if depth == maxDepth {
          return EventScore(None, if maximizing then MIN_COST else MAX_COST);
        }
        possibleMoves := gameState.passMoves;
        role := !maximizing;
      }
      possibleMoves := RemoveUnnecessaryMoves(possibleMoves);
      if role {
        r := Maximize(depth, alpha, beta, possibleMoves);
      } else {
        r := Minimize(depth, alpha, beta, possibleMoves);
      }
    }

    /** `maximize`. */
    method Maximize(depth: nat, alpha: real, beta: real, possibleMoves: seq<Move>) returns (bestResult: EventScore)
      requires depth > 0
      modifies treeAnalyzer`nodesCount
      ensures bestResult == FoldMoves(possibleMoves, depth, maxDepth, true, Window(Initial(true), alpha, beta, 0)).best
      ensures treeAnalyzer.nodesCount == old(treeAnalyzer.nodesCount) + FoldMoves(possibleMoves, depth, maxDepth, true, Window(Initial(true), alpha, beta, 0)).nodes
      decreases depth, 2, 1
    {
      bestResult := EventScore(None, MIN_COST);
      var a, b := alpha, beta;
      ghost var start := treeAnalyzer.nodesCount;
      for i := 0 to |possibleMoves|
        invariant treeAnalyzer.nodesCount >= start
        invariant FoldMoves(possibleMoves[i..], depth, maxDepth, true, Window(bestResult, a, b, treeAnalyzer.nodesCount - start)) ==
          FoldMoves(possibleMoves, depth, maxDepth, true, Window(Initial(true), alpha, beta, 0))
      {
        var move := possibleMoves[i];
        FoldMovesUnfold(possibleMoves, i, depth, maxDepth, true, Window(bestResult, a, b, treeAnalyzer.nodesCount - start));
        if move.outcomes.Rejected? {
          return;
        }
        bestResult, a, b := ExploreOutcomes(move.outcomes.options, move.event, depth, true, bestResult, a, b, treeAnalyzer.nodesCount - start);
        if b <= a {
          return;
        }
      }
    }

    /** `minimize`. */
    method Minimize(depth: nat, alpha: real, beta: real, possibleMoves: seq<Move>) returns (bestResult: EventScore)
      requires depth > 0
      modifies treeAnalyzer`nodesCount
      ensures bestResult == FoldMoves(possibleMoves, depth, maxDepth, false, Window(Initial(false), alpha, beta, 0)).best
      ensures treeAnalyzer.nodesCount == old(treeAnalyzer.nodesCount) + FoldMoves(possibleMoves, depth, maxDepth, false, Window(Initial(false), alpha, beta, 0)).nodes
      decreases depth, 2, 1
    {
      bestResult := EventScore(None, MAX_COST);
      var a, b := alpha, beta;
      ghost var start := treeAnalyzer.nodesCount;
      for i := 0 to |possibleMoves|
        invariant treeAnalyzer.nodesCount >= start
        invariant FoldMoves(possibleMoves[i..], depth, maxDepth, false, Window(bestResult, a, b, treeAnalyzer.nodesCount - start)) ==
          FoldMoves(possibleMoves, depth, maxDepth, false, Window(Initial(false), alpha, beta, 0))
      {
        var move := possibleMoves[i];
        FoldMovesUnfold(possibleMoves, i, depth, maxDepth, false, Window(bestResult, a, b, treeAnalyzer.nodesCount - start));
        if move.outcomes.Rejected? {
          return;
        }
        bestResult, a, b := ExploreOutcomes(move.outcomes.options, move.event, depth, false, bestResult, a, b, treeAnalyzer.nodesCount - start);
        if b <= a {
          return;
        }
      }
    }

    /**
     * The inner loop of `maximize` (`>`, then `alpha = Math.max(alpha, best)`) and `minimize`
     * (`<`, then `beta = Math.min(beta, best)`), leaving at the first cutoff; `nodes` is the count
     * the enclosing loop has already added.
     */
    method ExploreOutcomes(possibleStates: seq<StateChance>, move: MakeMoveEvent, depth: nat, maximizing: bool,
                           best: EventScore, alpha: real, beta: real, ghost nodes: nat)
      returns (bestResult: EventScore, a: real, b: real)
      requires depth > 0
      modifies treeAnalyzer`nodesCount
      ensures treeAnalyzer.nodesCount >= old(treeAnalyzer.nodesCount)
      ensures FoldOutcomes(possibleStates, move, depth, maxDepth, maximizing, Window(best, alpha, beta, nodes)) ==
        Window(bestResult, a, b, nodes + treeAnalyzer.nodesCount - old(treeAnalyzer.nodesCount))
      decreases depth, 2, 0
    {
      bestResult, a, b := best, alpha, beta;
      for j := 0 to |possibleStates|
        invariant treeAnalyzer.nodesCount >= old(treeAnalyzer.nodesCount)
        invariant FoldOutcomes(possibleStates[j..], move, depth, maxDepth, maximizing,
            Window(bestResult, a, b, nodes + treeAnalyzer.nodesCount - old(treeAnalyzer.nodesCount))) ==
          FoldOutcomes(possibleStates, move, depth, maxDepth, maximizing, Window(best, alpha, beta, nodes))
      {
        var stateChance := possibleStates[j];
        ghost var w := Window(bestResult, a, b, nodes + treeAnalyzer.nodesCount - old(treeAnalyzer.nodesCount));
        FoldOutcomesUnfold(possibleStates, j, move, depth, maxDepth, maximizing, w);
        if stateChance.chance < BAD_BRANCH_PROBABILITY {
          continue;
        }
        bestResult, a, b := ExploreOutcome(stateChance, move, depth, maximizing, bestResult, a, b, w.nodes);
        if b <= a {
          return;
        }
      }
    }

    /** One searched outcome of the inner loop: search it, weigh it, keep it if strictly better, tighten the window. */
    method ExploreOutcome(stateChance: StateChance, move: MakeMoveEvent, depth: nat, maximizing: bool,
                          best: EventScore, alpha: real, beta: real, ghost nodes: nat)
      returns (bestResult: EventScore, a: real, b: real)
      requires depth > 0
      modifies treeAnalyzer`nodesCount
      ensures treeAnalyzer.nodesCount >= old(treeAnalyzer.nodesCount)
      ensures Step(State(stateChance.state, stateChance.chance, move), depth, maxDepth, maximizing, Window(best, alpha, beta, nodes)) ==
        Window(bestResult, a, b, nodes + treeAnalyzer.nodesCount - old(treeAnalyzer.nodesCount))
      decreases depth, 1, 0
    {
      bestResult, a, b := best, alpha, beta;
      var result := MinimaxSearch(stateChance.state, depth - 1, a, b, maximizing);
      var score := result.score * stateChance.chance;
      if (maximizing && score > bestResult.score) || (!maximizing && score < bestResult.score) {
        bestResult := EventScore(Some(move), score);
      }
      if maximizing {
        a := Max(a, bestResult.score);
      } else {
        b := Min(b, bestResult.score);
      }
    }
  }

  lemma FoldMovesUnfold(moves: seq<Move>, i: nat, depth: nat, maxDepth: nat, maximizing: bool, w: Window)
    requires depth > 0 && i < |moves|
    ensures FoldMoves(moves[i..], depth, maxDepth, maximizing, w) ==
      match moves[i].outcomes
      case Rejected => w
      case Applied(options) =>
        var after := FoldOutcomes(options, moves[i].event, depth, maxDepth, maximizing, w);
        if Cutoff(after) then after else FoldMoves(moves[i + 1..], depth, maxDepth, maximizing, after)
  {
    assert moves[i..][0] == moves[i] && moves[i..][1..] == moves[i + 1..];
  }

  lemma FoldOutcomesUnfold(options: seq<StateChance>, j: nat, event: MakeMoveEvent, depth: nat, maxDepth: nat, maximizing: bool, w: Window)
    requires depth > 0 && j < |options|
    ensures FoldOutcomes(options[j..], event, depth, maxDepth, maximizing, w) ==
      if options[j].chance < BAD_BRANCH_PROBABILITY then FoldOutcomes(options[j + 1..], event, depth, maxDepth, maximizing, w)
      else
        var next := Step(State(options[j].state, options[j].chance, event), depth, maxDepth, maximizing, w);
        if Cutoff(next) then next else FoldOutcomes(options[j + 1..], event, depth, maxDepth, maximizing, next)
  {
    assert options[j..][0] == options[j] && options[j..][1..] == options[j + 1..];
  }
}
