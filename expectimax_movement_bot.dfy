/**
 * movement_stage/ExpectimaxMovementBot: expectimax whose loops walk the moves and each move's
 * outcomes directly, skipping outcomes below BAD_BRANCH_PROBABILITY. Max nodes search their
 * children as chance nodes and chance nodes search theirs as max nodes. A chance node divides
 * its weighted sum by twice the number of moves, not by the number of outcomes it searched.
 */
module ExpectimaxMovementBot {
  import opened Wrappers
  import opened Game
  import opened Search
  import opened MovementBotUtil
  import opened Doubles
  import Instrumentation
  import ExpectimaxBot
  import MinimaxMovementBot

  type Scored = ExpectimaxBot.Scored
  type Searched = ExpectimaxBot.Searched
  type Sum = ExpectimaxBot.Sum

  /** `expectimax(gameState, depth, maximizing)`. */
  function Expectimax(n: Node, depth: nat, maxDepth: nat, maximizing: bool): Searched
    decreases depth, 3, 0
  {
    if depth == 0 || n.ended then ExpectimaxBot.Searched(ExpectimaxBot.Scored(None, Finite(n.value)), 1)
    else if n.moves == [] && depth == maxDepth then
      ExpectimaxBot.Searched(ExpectimaxBot.Scored(None, Finite(if maximizing then MIN_COST else MAX_COST)), 1)
    else
      var moves := WithoutUnnecessary(ExpandedMoves(n));
      var e := if ExpandedRole(n, maximizing) then FoldMaxMoves(moves, depth, maxDepth, ExpectimaxBot.Searched(ExpectimaxBot.InitialMax, 0))
        else ExpectMoves(moves, depth, maxDepth);
      ExpectimaxBot.Searched(e.result, e.nodes + 1)
  }

  /** The outer loop of `maximize`; a rejected move ends both loops with the best so far. */
  function FoldMaxMoves(moves: seq<Move>, depth: nat, maxDepth: nat, acc: Searched): Searched
    requires depth > 0
    decreases depth, 2, |moves|
  {
    if moves == [] then acc
    else match moves[0].outcomes
      case Rejected => acc
      case Applied(options) => FoldMaxMoves(moves[1..], depth, maxDepth, FoldMaxOutcomes(options, moves[0].event, depth, maxDepth, acc))
  }

  function FoldMaxOutcomes(options: seq<StateChance>, event: MakeMoveEvent, depth: nat, maxDepth: nat, acc: Searched): Searched
    requires depth > 0
    decreases depth, 1, |options|
  {
    if options == [] then acc
    else if options[0].chance < BAD_BRANCH_PROBABILITY then FoldMaxOutcomes(options[1..], event, depth, maxDepth, acc)
    else FoldMaxOutcomes(options[1..], event, depth, maxDepth, MaxStep(State(options[0].state, options[0].chance, event), depth, maxDepth, acc))
  }

  /** One explored outcome of a max node: searched as a chance node, weighted, kept if strictly greater. */
  function MaxStep(s: State, depth: nat, maxDepth: nat, acc: Searched): Searched
    requires depth > 0
    decreases depth, 0, 0
  {
    var child := Expectimax(s.gameState, depth - 1, maxDepth, false);
    var w := Mul(child.result.score, s.probability);
    ExpectimaxBot.Searched(if Gt(w, acc.result.score) then ExpectimaxBot.Scored(Some(s.lastMove), w) else acc.result, acc.nodes + child.nodes)
  }

  /** No move is rejected by `getPossibleState`. */
  predicate AllApplied(moves: seq<Move>)
  {
    forall m :: m in moves ==> m.outcomes.Applied?
  }

  /**
   * `expect`: the weighted sum over `2 * |moves|`; a rejected move abandons the sum and leaves
   * (null, 0), after the calls already made.
   */
  function ExpectMoves(moves: seq<Move>, depth: nat, maxDepth: nat): Searched
    requires depth > 0
    decreases depth, 2, |moves| + 1
  {
    var sum := FoldSumMoves(moves, depth, maxDepth, ExpectimaxBot.Sum(Finite(0.0), 0));
    if AllApplied(moves) then ExpectimaxBot.Searched(ExpectimaxBot.Scored(None, DivCount(sum.total, 2 * |moves|)), sum.nodes)
    else ExpectimaxBot.Searched(ExpectimaxBot.InitialExpect, sum.nodes)
  }

  function FoldSumMoves(moves: seq<Move>, depth: nat, maxDepth: nat, acc: Sum): Sum
    requires depth > 0
    decreases depth, 2, |moves|
  {
    if moves == [] then acc
    else match moves[0].outcomes
      case Rejected => acc
      case Applied(options) => FoldSumMoves(moves[1..], depth, maxDepth, FoldSumOutcomes(options, moves[0].event, depth, maxDepth, acc))
  }

  function FoldSumOutcomes(options: seq<StateChance>, event: MakeMoveEvent, depth: nat, maxDepth: nat, acc: Sum): Sum
    requires depth > 0
    decreases depth, 1, |options|
  {
    if options == [] then acc
    else if options[0].chance < BAD_BRANCH_PROBABILITY then FoldSumOutcomes(options[1..], event, depth, maxDepth, acc)
    else FoldSumOutcomes(options[1..], event, depth, maxDepth, SumStep(State(options[0].state, options[0].chance, event), depth, maxDepth, acc))
  }

  /** One explored outcome of a chance node: searched as a max node and its weighted score added. */
  function SumStep(s: State, depth: nat, maxDepth: nat, acc: Sum): Sum
    requires depth > 0
    decreases depth, 0, 0
  {
    var child := Expectimax(s.gameState, depth - 1, maxDepth, true);
    ExpectimaxBot.Sum(Add(acc.total, Mul(child.result.score, s.probability)), acc.nodes + child.nodes)
  }

  lemma FoldMaxMovesUnfold(moves: seq<Move>, i: nat, depth: nat, maxDepth: nat, acc: Searched)
    requires depth > 0 && i < |moves|
    ensures FoldMaxMoves(moves[i..], depth, maxDepth, acc) ==
      match moves[i].outcomes
      case Rejected => acc
      case Applied(options) => FoldMaxMoves(moves[i + 1..], depth, maxDepth, FoldMaxOutcomes(options, moves[i].event, depth, maxDepth, acc))
  {
    assert moves[i..][0] == moves[i] && moves[i..][1..] == moves[i + 1..];
  }

  lemma FoldMaxOutcomesUnfold(options: seq<StateChance>, j: nat, event: MakeMoveEvent, depth: nat, maxDepth: nat, acc: Searched)
    requires depth > 0 && j < |options|
    ensures FoldMaxOutcomes(options[j..], event, depth, maxDepth, acc) ==
      if options[j].chance < BAD_BRANCH_PROBABILITY then FoldMaxOutcomes(options[j + 1..], event, depth, maxDepth, acc)
      else FoldMaxOutcomes(options[j + 1..], event, depth, maxDepth, MaxStep(State(options[j].state, options[j].chance, event), depth, maxDepth, acc))
  {
    assert options[j..][0] == options[j] && options[j..][1..] == options[j + 1..];
  }

  lemma FoldSumMovesUnfold(moves: seq<Move>, i: nat, depth: nat, maxDepth: nat, acc: Sum)
    requires depth > 0 && i < |moves|
    ensures FoldSumMoves(moves[i..], depth, maxDepth, acc) ==
      match moves[i].outcomes
      case Rejected => acc
      case Applied(options) => FoldSumMoves(moves[i + 1..], depth, maxDepth, FoldSumOutcomes(options, moves[i].event, depth, maxDepth, acc))
  {
    assert moves[i..][0] == moves[i] && moves[i..][1..] == moves[i + 1..];
  }

  lemma FoldSumOutcomesUnfold(options: seq<StateChance>, j: nat, event: MakeMoveEvent, depth: nat, maxDepth: nat, acc: Sum)
    requires depth > 0 && j < |options|
    ensures FoldSumOutcomes(options[j..], event, depth, maxDepth, acc) ==
      if options[j].chance < BAD_BRANCH_PROBABILITY then FoldSumOutcomes(options[j + 1..], event, depth, maxDepth, acc)
      else FoldSumOutcomes(options[j + 1..], event, depth, maxDepth, SumStep(State(options[j].state, options[j].chance, event), depth, maxDepth, acc))
  {
    assert options[j..][0] == options[j] && options[j..][1..] == options[j + 1..];
  }

  /** A rejected move in the prefix the loop has passed would have ended it. */
  lemma AllAppliedPrefix(moves: seq<Move>, i: nat)
    requires i < |moves| && AllApplied(moves[..i]) && moves[i].outcomes.Applied?
    ensures AllApplied(moves[..i + 1])
  {
    assert moves[..i + 1] == moves[..i] + [moves[i]];
  }

  // The searched outcomes, as a flat sequence (MinimaxMovementBot.Reached), folded one by one.

  function FoldMaxReached(rs: seq<State>, depth: nat, maxDepth: nat, acc: Searched): Searched
    requires depth > 0
    decreases |rs|
  {
    if rs == [] then acc else FoldMaxReached(rs[1..], depth, maxDepth, MaxStep(rs[0], depth, maxDepth, acc))
  }

  function FoldSumReached(rs: seq<State>, depth: nat, maxDepth: nat, acc: Sum): Sum
    requires depth > 0
    decreases |rs|
  {
    if rs == [] then acc else FoldSumReached(rs[1..], depth, maxDepth, SumStep(rs[0], depth, maxDepth, acc))
  }

  lemma {:induction false} FoldMaxReachedAppend(a: seq<State>, b: seq<State>, depth: nat, maxDepth: nat, acc: Searched)
    requires depth > 0
    ensures FoldMaxReached(a + b, depth, maxDepth, acc) == FoldMaxReached(b, depth, maxDepth, FoldMaxReached(a, depth, maxDepth, acc))
    decreases |a|
  {
    if a == [] {
      assert a + b == b;
    } else {
      assert (a + b)[0] == a[0] && (a + b)[1..] == a[1..] + b;
      FoldMaxReachedAppend(a[1..], b, depth, maxDepth, MaxStep(a[0], depth, maxDepth, acc));
    }
  }

  lemma {:induction false} FoldSumReachedAppend(a: seq<State>, b: seq<State>, depth: nat, maxDepth: nat, acc: Sum)
    requires depth > 0
    ensures FoldSumReached(a + b, depth, maxDepth, acc) == FoldSumReached(b, depth, maxDepth, FoldSumReached(a, depth, maxDepth, acc))
    decreases |a|
  {
    if a == [] {
      assert a + b == b;
    } else {
      assert (a + b)[0] == a[0] && (a + b)[1..] == a[1..] + b;
      FoldSumReachedAppend(a[1..], b, depth, maxDepth, SumStep(a[0], depth, maxDepth, acc));
    }
  }

  lemma {:induction false} FoldMaxOutcomesIsReached(options: seq<StateChance>, event: MakeMoveEvent, depth: nat, maxDepth: nat, acc: Searched)
    requires depth > 0
    ensures FoldMaxOutcomes(options, event, depth, maxDepth, acc) ==
      FoldMaxReached(MinimaxMovementBot.ReachedOptions(options, event), depth, maxDepth, acc)
    decreases |options|
  {
    if options != [] {
      var rest := MinimaxMovementBot.ReachedOptions(options[1..], event);
      if options[0].chance < BAD_BRANCH_PROBABILITY {
        assert MinimaxMovementBot.ReachedOptions(options, event) == [] + rest == rest;
        FoldMaxOutcomesIsReached(options[1..], event, depth, maxDepth, acc);
      } else {
        var s := State(options[0].state, options[0].chance, event);
        assert MinimaxMovementBot.ReachedOptions(options, event) == [s] + rest;
        assert ([s] + rest)[0] == s && ([s] + rest)[1..] == rest;
        FoldMaxOutcomesIsReached(options[1..], event, depth, maxDepth, MaxStep(s, depth, maxDepth, acc));
      }
    }
  }

  lemma {:induction false} FoldSumOutcomesIsReached(options: seq<StateChance>, event: MakeMoveEvent, depth: nat, maxDepth: nat, acc: Sum)
    requires depth > 0
    ensures FoldSumOutcomes(options, event, depth, maxDepth, acc) ==
      FoldSumReached(MinimaxMovementBot.ReachedOptions(options, event), depth, maxDepth, acc)
    decreases |options|
  {
    if options != [] {
      var rest := MinimaxMovementBot.ReachedOptions(options[1..], event);
      if options[0].chance < BAD_BRANCH_PROBABILITY {
        assert MinimaxMovementBot.ReachedOptions(options, event) == [] + rest == rest;
        FoldSumOutcomesIsReached(options[1..], event, depth, maxDepth, acc);
      } else {
        var s := State(options[0].state, options[0].chance, event);
        assert MinimaxMovementBot.ReachedOptions(options, event) == [s] + rest;
        assert ([s] + rest)[0] == s && ([s] + rest)[1..] == rest;
        FoldSumOutcomesIsReached(options[1..], event, depth, maxDepth, SumStep(s, depth, maxDepth, acc));
      }
    }
  }

  /** The nested loops of `maximize` visit exactly the reached outcomes, in order. */
  lemma {:induction false} FoldMaxMovesIsReached(moves: seq<Move>, depth: nat, maxDepth: nat, acc: Searched)
    requires depth > 0
    ensures FoldMaxMoves(moves, depth, maxDepth, acc) == FoldMaxReached(MinimaxMovementBot.Reached(moves), depth, maxDepth, acc)
    decreases |moves|
  {
    if moves != [] && moves[0].outcomes.Applied? {
      var options := moves[0].outcomes.options;
      var inner := FoldMaxOutcomes(options, moves[0].event, depth, maxDepth, acc);
      FoldMaxOutcomesIsReached(options, moves[0].event, depth, maxDepth, acc);
      FoldMaxMovesIsReached(moves[1..], depth, maxDepth, inner);
      FoldMaxReachedAppend(MinimaxMovementBot.ReachedOptions(options, moves[0].event), MinimaxMovementBot.Reached(moves[1..]), depth, maxDepth, acc);
    }
  }

  /** The nested loops of `expect` add up exactly the reached outcomes, in order. */
  lemma {:induction false} FoldSumMovesIsReached(moves: seq<Move>, depth: nat, maxDepth: nat, acc: Sum)
    requires depth > 0
    ensures FoldSumMoves(moves, depth, maxDepth, acc) == FoldSumReached(MinimaxMovementBot.Reached(moves), depth, maxDepth, acc)
    decreases |moves|
  {
    if moves != [] && moves[0].outcomes.Applied? {
      var options := moves[0].outcomes.options;
      var inner := FoldSumOutcomes(options, moves[0].event, depth, maxDepth, acc);
      FoldSumOutcomesIsReached(options, moves[0].event, depth, maxDepth, acc);
      FoldSumMovesIsReached(moves[1..], depth, maxDepth, inner);
      FoldSumReachedAppend(MinimaxMovementBot.ReachedOptions(options, moves[0].event), MinimaxMovementBot.Reached(moves[1..]), depth, maxDepth, acc);
    }
  }

  /** Each reached outcome's move and its weighted score as a chance node. */
  function Candidates(rs: seq<State>, depth: nat, maxDepth: nat): (cs: seq<ExpectimaxBot.Weighed>)
    requires depth > 0
    ensures |cs| == |rs|
    ensures forall i :: 0 <= i < |rs| ==>
      cs[i] == ExpectimaxBot.Weighed(rs[i].lastMove, Mul(Expectimax(rs[i].gameState, depth - 1, maxDepth, false).result.score, rs[i].probability))
  {
    seq(|rs|, i requires 0 <= i < |rs| =>
      ExpectimaxBot.Weighed(rs[i].lastMove, Mul(Expectimax(rs[i].gameState, depth - 1, maxDepth, false).result.score, rs[i].probability)))
  }

  lemma {:induction false} FoldMaxReachedIsFoldGreatest(rs: seq<State>, depth: nat, maxDepth: nat, acc: Searched)
    requires depth > 0
    ensures FoldMaxReached(rs, depth, maxDepth, acc).result == ExpectimaxBot.FoldGreatest(Candidates(rs, depth, maxDepth), acc.result)
    decreases |rs|
  {
    if rs != [] {
      var next := MaxStep(rs[0], depth, maxDepth, acc);
      FoldMaxReachedIsFoldGreatest(rs[1..], depth, maxDepth, next);
      var cs := Candidates(rs, depth, maxDepth);
      assert Candidates(rs[1..], depth, maxDepth) == cs[1..];
      assert ExpectimaxBot.FoldGreatest(cs, acc.result) == ExpectimaxBot.FoldGreatest(cs[1..], next.result);
    }
  }

  /**
   * A max node's choice: the first reached outcome whose weighted score is strictly the greatest,
   * or (null, MIN_COST) when none exceeds it; a rejected move only cuts the outcomes reached.
   */
  lemma MaxChoosesFirstGreatest(moves: seq<Move>, depth: nat, maxDepth: nat)
    requires depth > 0
    ensures FoldMaxMoves(moves, depth, maxDepth, ExpectimaxBot.Searched(ExpectimaxBot.InitialMax, 0)).result ==
      ExpectimaxBot.FoldGreatest(Candidates(MinimaxMovementBot.Reached(moves), depth, maxDepth), ExpectimaxBot.InitialMax)
  {
    FoldMaxMovesIsReached(moves, depth, maxDepth, ExpectimaxBot.Searched(ExpectimaxBot.InitialMax, 0));
    FoldMaxReachedIsFoldGreatest(MinimaxMovementBot.Reached(moves), depth, maxDepth, ExpectimaxBot.Searched(ExpectimaxBot.InitialMax, 0));
  }

  /** Every reached outcome's score, as a max node, is finite. */
  predicate ReachedFinite(rs: seq<State>, depth: nat, maxDepth: nat)
    requires depth > 0
  {
    forall i :: 0 <= i < |rs| ==> Expectimax(rs[i].gameState, depth - 1, maxDepth, true).result.score.Finite?
  }

  /** Σ score · probability over the reached outcomes, on reals. */
  function WeightedSum(rs: seq<State>, depth: nat, maxDepth: nat): real
    requires depth > 0 && ReachedFinite(rs, depth, maxDepth)
  {
    if rs == [] then 0.0
    else
      assert Expectimax(rs[0].gameState, depth - 1, maxDepth, true).result.score.Finite?;
      Expectimax(rs[0].gameState, depth - 1, maxDepth, true).result.score.r * rs[0].probability
        + WeightedSum(rs[1..], depth, maxDepth)
  }

  lemma {:induction false} FoldSumReachedIsSum(rs: seq<State>, depth: nat, maxDepth: nat, t: real, nodes: nat)
    requires depth > 0 && ReachedFinite(rs, depth, maxDepth)
    ensures FoldSumReached(rs, depth, maxDepth, ExpectimaxBot.Sum(Finite(t), nodes)).total == Finite(t + WeightedSum(rs, depth, maxDepth))
    decreases |rs|
  {
    if rs != [] {
      var next := SumStep(rs[0], depth, maxDepth, ExpectimaxBot.Sum(Finite(t), nodes));
      assert Expectimax(rs[0].gameState, depth - 1, maxDepth, true).result.score.Finite?;
      assert ReachedFinite(rs[1..], depth, maxDepth) by {
        forall i | 0 <= i < |rs[1..]|
          ensures Expectimax(rs[1..][i].gameState, depth - 1, maxDepth, true).result.score.Finite?
        {
          assert rs[1..][i] == rs[i + 1];
        }
      }
      FoldSumReachedIsSum(rs[1..], depth, maxDepth, next.total.r, next.nodes);
    }
  }

  /**
   * A chance node whose moves are all applied and whose reached outcomes score finitely has no
   * event and the score Σ score · probability / (2 · number of moves); with no moves it is NaN.
   * A rejected move gives (null, 0).
   */
  lemma ExpectIsScaledSum(moves: seq<Move>, depth: nat, maxDepth: nat)
    requires depth > 0
    requires AllApplied(moves) ==> ReachedFinite(MinimaxMovementBot.Reached(moves), depth, maxDepth)
    ensures !AllApplied(moves) ==> ExpectMoves(moves, depth, maxDepth).result == ExpectimaxBot.InitialExpect
    ensures AllApplied(moves) ==>
      ExpectMoves(moves, depth, maxDepth).result ==
        if moves == [] then ExpectimaxBot.Scored(None, NaN)
        else ExpectimaxBot.Scored(None, Finite(WeightedSum(MinimaxMovementBot.Reached(moves), depth, maxDepth) / (2 * |moves|) as real))
  {
    if AllApplied(moves) {
      FoldSumMovesIsReached(moves, depth, maxDepth, ExpectimaxBot.Sum(Finite(0.0), 0));
      FoldSumReachedIsSum(MinimaxMovementBot.Reached(moves), depth, maxDepth, 0.0, 0);
    }
  }

  /** Every move of a whole tree has at most two outcomes of chance at least BAD_BRANCH_PROBABILITY. */
  predicate AtMostTwo(n: Node)
    decreases n, 1
  {
    (forall i :: 0 <= i < |n.moves| ==> MoveAtMostTwo(n.moves[i])) &&
    (forall i :: 0 <= i < |n.passMoves| ==> MoveAtMostTwo(n.passMoves[i]))
  }

  predicate MoveAtMostTwo(m: Move)
    decreases m, 0
  {
    m.outcomes.Applied? ==>
      |MinimaxMovementBot.ReachedOptions(m.outcomes.options, m.event)| <= 2 &&
      forall j :: 0 <= j < |m.outcomes.options| ==> AtMostTwo(m.outcomes.options[j].state)
  }

  lemma {:induction false} ReachedAtMostTwice(moves: seq<Move>)
    requires forall m :: m in moves ==> MoveAtMostTwo(m)
    ensures |MinimaxMovementBot.Reached(moves)| <= 2 * |moves|
    decreases |moves|
  {
    if moves != [] && moves[0].outcomes.Applied? {
      assert moves[0] in moves;
      assert forall m :: m in moves[1..] ==> m in moves;
      ReachedAtMostTwice(moves[1..]);
    }
  }

  /** Below a bounded node with at most two searched outcomes per move, the same holds and chances are in [0, 1]. */
  lemma ReachedWellFormed(n: Node, moves: seq<Move>)
    requires Bounded(n) && AtMostTwo(n) && (moves == n.moves || moves == n.passMoves)
    ensures forall x :: x in MinimaxMovementBot.Reached(WithoutUnnecessary(moves)) ==>
      0.0 <= x.probability <= 1.0 && Bounded(x.gameState) && AtMostTwo(x.gameState)
    ensures |MinimaxMovementBot.Reached(WithoutUnnecessary(moves))| <= 2 * |WithoutUnnecessary(moves)|
  {
    var kept := WithoutUnnecessary(moves);
    WithoutUnnecessaryProperties(moves);
    SubsequenceMembers(kept, moves);
    MinimaxMovementBot.ReachedSound(kept);
    BoundedMembers(n, moves);
    forall m | m in moves
      ensures MoveAtMostTwo(m)
    {
      var i :| 0 <= i < |moves| && moves[i] == m;
    }
    forall x | x in MinimaxMovementBot.Reached(kept)
      ensures AtMostTwo(x.gameState)
    {
      var m :| m in kept && m.event == x.lastMove && m.outcomes.Applied? &&
        StateChance(x.gameState, x.probability) in m.outcomes.options;
      assert MoveAtMostTwo(m);
      var j :| 0 <= j < |m.outcomes.options| && m.outcomes.options[j] == StateChance(x.gameState, x.probability);
    }
    ReachedAtMostTwice(kept);
  }

  /**
   * With in-range evaluations and chances and at most two searched outcomes per move, no search
   * yields an infinity: the score is NaN (a chance node without moves) or within
   * [MIN_COST, MAX_COST], and a max node's score is a finite value in range.
   */
  lemma {:induction false} ExpectimaxInRange(n: Node, depth: nat, maxDepth: nat, maximizing: bool)
    requires Bounded(n) && AtMostTwo(n)
    ensures NaNOrWithin(Expectimax(n, depth, maxDepth, maximizing).result.score, MIN_COST, MAX_COST)
    decreases depth, 1
  {
    if !(depth == 0 || n.ended) && !(n.moves == [] && depth == maxDepth) {
      var moves := WithoutUnnecessary(ExpandedMoves(n));
      var role := ExpandedRole(n, maximizing);
      ReachedWellFormed(n, ExpandedMoves(n));
      ChildrenInRange(n, depth, maxDepth, maximizing);
      if role {
        MaxMovesInRange(moves, depth, maxDepth);
        assert Expectimax(n, depth, maxDepth, maximizing).result ==
          FoldMaxMoves(moves, depth, maxDepth, ExpectimaxBot.Searched(ExpectimaxBot.InitialMax, 0)).result;
      } else {
        ExpectMovesInRange(moves, depth, maxDepth);
        assert Expectimax(n, depth, maxDepth, maximizing).result == ExpectMoves(moves, depth, maxDepth).result;
      }
    }
  }

  /** Every reached child of an expanded node is searched in the other role and scores in range. */
  lemma {:induction false} ChildrenInRange(n: Node, depth: nat, maxDepth: nat, maximizing: bool)
    requires Bounded(n) && AtMostTwo(n) && depth > 0
    ensures forall x :: x in MinimaxMovementBot.Reached(WithoutUnnecessary(ExpandedMoves(n))) ==>
      WeightedChildInRange(x, depth, maxDepth, !ExpandedRole(n, maximizing))
    decreases depth, 0
  {
    var rs := MinimaxMovementBot.Reached(WithoutUnnecessary(ExpandedMoves(n)));
    var role := ExpandedRole(n, maximizing);
    ReachedWellFormed(n, ExpandedMoves(n));
    forall x | x in rs
      ensures WeightedChildInRange(x, depth, maxDepth, !role)
    {
      ExpectimaxInRange(x.gameState, depth - 1, maxDepth, !role);
      ExpectimaxBot.WeightedDoubleInRange(Expectimax(x.gameState, depth - 1, maxDepth, !role).result.score, x.probability);
    }
  }

  lemma MaxMovesInRange(moves: seq<Move>, depth: nat, maxDepth: nat)
    requires depth > 0
    requires forall x :: x in MinimaxMovementBot.Reached(moves) ==> WeightedChildInRange(x, depth, maxDepth, false)
    ensures ExpectimaxBot.InRange(FoldMaxMoves(moves, depth, maxDepth, ExpectimaxBot.Searched(ExpectimaxBot.InitialMax, 0)).result.score)
  {
    var rs := MinimaxMovementBot.Reached(moves);
    FoldMaxMovesIsReached(moves, depth, maxDepth, ExpectimaxBot.Searched(ExpectimaxBot.InitialMax, 0));
    FoldMaxReachedInRange(rs, depth, maxDepth, ExpectimaxBot.Searched(ExpectimaxBot.InitialMax, 0));
  }

  lemma ExpectMovesInRange(moves: seq<Move>, depth: nat, maxDepth: nat)
    requires depth > 0
    requires forall x :: x in MinimaxMovementBot.Reached(moves) ==> WeightedChildInRange(x, depth, maxDepth, true)
    requires |MinimaxMovementBot.Reached(moves)| <= 2 * |moves|
    ensures NaNOrWithin(ExpectMoves(moves, depth, maxDepth).result.score, MIN_COST, MAX_COST)
  {
    var rs := MinimaxMovementBot.Reached(moves);
    FoldSumMovesIsReached(moves, depth, maxDepth, ExpectimaxBot.Sum(Finite(0.0), 0));
    FoldSumReachedInRange(rs, depth, maxDepth, ExpectimaxBot.Sum(Finite(0.0), 0), 0);
    var sum := FoldSumReached(rs, depth, maxDepth, ExpectimaxBot.Sum(Finite(0.0), 0));
    if AllApplied(moves) && moves != [] && sum.total.Finite? {
      Widen(sum.total.r, |rs|, 2 * |moves|);
      ExpectimaxBot.MeanInRange(sum.total.r, 2 * |moves|);
    }
  }

  /** A reached state's weighted score is NaN or within [MIN_COST, MAX_COST]. */
  predicate WeightedChildInRange(s: State, depth: nat, maxDepth: nat, maximizing: bool)
    requires depth > 0
  {
    NaNOrWithin(Mul(Expectimax(s.gameState, depth - 1, maxDepth, maximizing).result.score, s.probability), MIN_COST, MAX_COST)
  }

  lemma Widen(t: real, k: nat, l: nat)
    requires k <= l && k as real * MIN_COST <= t <= k as real * MAX_COST
    ensures l as real * MIN_COST <= t <= l as real * MAX_COST
  {
  }

  lemma {:induction false} FoldMaxReachedInRange(rs: seq<State>, depth: nat, maxDepth: nat, acc: Searched)
    requires depth > 0 && ExpectimaxBot.InRange(acc.result.score)
    requires forall x :: x in rs ==> WeightedChildInRange(x, depth, maxDepth, false)
    ensures ExpectimaxBot.InRange(FoldMaxReached(rs, depth, maxDepth, acc).result.score)
    decreases |rs|
  {
    if rs != [] {
      var s := rs[0];
      assert WeightedChildInRange(s, depth, maxDepth, false);
      assert forall x :: x in rs[1..] ==> x in rs;
      FoldMaxReachedInRange(rs[1..], depth, maxDepth, MaxStep(s, depth, maxDepth, acc));
    }
  }

  lemma {:induction false} FoldSumReachedInRange(rs: seq<State>, depth: nat, maxDepth: nat, acc: Sum, k: nat)
    requires depth > 0 && NaNOrWithin(acc.total, k as real * MIN_COST, k as real * MAX_COST)
    requires forall x :: x in rs ==> WeightedChildInRange(x, depth, maxDepth, true)
    ensures NaNOrWithin(FoldSumReached(rs, depth, maxDepth, acc).total, (k + |rs|) as real * MIN_COST, (k + |rs|) as real * MAX_COST)
    decreases |rs|
  {
    if rs != [] {
      var s := rs[0];
      assert WeightedChildInRange(s, depth, maxDepth, true);
      var w := Mul(Expectimax(s.gameState, depth - 1, maxDepth, true).result.score, s.probability);
      var next := SumStep(s, depth, maxDepth, acc);
      assert next.total == Add(acc.total, w);
      ExpectimaxBot.SumStepInRange(acc.total, w, k);
      assert forall x :: x in rs[1..] ==> x in rs;
      FoldSumReachedInRange(rs[1..], depth, maxDepth, next, k + 1);
    }
  }

  /**
   * Unlike movement_stage/ExpectimaxBot, which divides by the number of collected states, a
   * chance node with one move and one certain outcome scores half of that outcome.
   */
  lemma SingleOutcomeIsHalved(e: MakeMoveEvent)
    ensures var n := Node(false, 0.0, [Move(e, Applied([StateChance(Node(true, 500.0, [], []), 1.0)]))], []);
      Expectimax(n, 1, 2, false) == ExpectimaxBot.Searched(ExpectimaxBot.Scored(None, Finite(250.0)), 2) &&
      ExpectimaxBot.Expectimax(n, 1, 2, false) == ExpectimaxBot.Searched(ExpectimaxBot.Scored(None, Finite(500.0)), 2)
  {
    var leaf := Node(true, 500.0, [], []);
    var m := Move(e, Applied([StateChance(leaf, 1.0)]));
    SingleMoveKept(m);
    assert [StateChance(leaf, 1.0)][1..] == [];
    assert [StateChance(leaf, 1.0)][..0] == [];
    assert [m][1..] == [] && [m][..0] == [];
    assert AllApplied([m]);
    assert KeptOptions([StateChance(leaf, 1.0)], e) == [State(leaf, 1.0, e)];
    assert PossibleStates([m]) == Success([State(leaf, 1.0, e)]);
    assert [State(leaf, 1.0, e)][1..] == [];
    assert Expectimax(leaf, 0, 2, true) == ExpectimaxBot.Searched(ExpectimaxBot.Scored(None, Finite(500.0)), 1);
    assert FoldSumOutcomes([StateChance(leaf, 1.0)], e, 1, 2, ExpectimaxBot.Sum(Finite(0.0), 0)) == ExpectimaxBot.Sum(Finite(500.0), 1);
    assert FoldSumMoves([m], 1, 2, ExpectimaxBot.Sum(Finite(0.0), 0)) == ExpectimaxBot.Sum(Finite(500.0), 1);
    assert DivCount(Finite(500.0), 2) == Finite(250.0);
  }

  class ExpectimaxMovementBot {
    const maxDepth: nat
    const treeAnalyzer: Instrumentation.TreeAnalyzer

    constructor (maxDepth: nat)
      ensures this.maxDepth == maxDepth && fresh(treeAnalyzer)
      ensures treeAnalyzer.nodesCount == 0 && treeAnalyzer.moveStartTime == 0 && treeAnalyzer.moveEndTime == 0
    {
      this.maxDepth := maxDepth;
      treeAnalyzer := new Instrumentation.TreeAnalyzer();
    }

    /** `generateMakeMoveEvent`: the root is a max node. */
    method GenerateMakeMoveEvent(gameState: Node, startTime: int, endTime: int) returns (event: Option<MakeMoveEvent>)
      modifies treeAnalyzer
      ensures event == Expectimax(gameState, maxDepth, maxDepth, true).result.event
      ensures treeAnalyzer.nodesCount == old(treeAnalyzer.nodesCount) + Expectimax(gameState, maxDepth, maxDepth, true).nodes
      ensures treeAnalyzer.moveStartTime == startTime && treeAnalyzer.moveEndTime == endTime
    {
      treeAnalyzer.StartMoveStopWatch(startTime);
      var result := ExpectimaxSearch(gameState, maxDepth, true);
      treeAnalyzer.EndMoveStopWatch(endTime);
      event := result.event;
    }

    /** `expectimax`. */
    method ExpectimaxSearch(gameState: Node, depth: nat, maximizing: bool) returns (r: Scored)
      modifies treeAnalyzer`nodesCount
      ensures r == Expectimax(gameState, depth, maxDepth, maximizing).result
      ensures treeAnalyzer.nodesCount == old(treeAnalyzer.nodesCount) + Expectimax(gameState, depth, maxDepth, maximizing).nodes
      decreases depth, 3, 0
    {
      treeAnalyzer.IncrementNodesCount();
      if depth == 0 || gameState.ended {
        return ExpectimaxBot.Scored(None, Finite(gameState.value));
      }
      var possibleMoves := gameState.moves;
      var role := maximizing;
      if |possibleMoves| == 0 {
        if depth == maxDepth {
          return ExpectimaxBot.Scored(None, Finite(if maximizing then MIN_COST else MAX_COST));
        }
        possibleMoves := gameState.passMoves;
        role := !maximizing;
      }
      possibleMoves := RemoveUnnecessaryMoves(possibleMoves);
      if role {
        r := Maximize(possibleMoves, depth);
      } else {
        r := Expect(possibleMoves, depth);
      }
    }

    /** `maximize`. */
    method Maximize(possibleMoves: seq<Move>, depth: nat) returns (bestResult: Scored)
      requires depth > 0
      modifies treeAnalyzer`nodesCount
      ensures bestResult == FoldMaxMoves(possibleMoves, depth, maxDepth, ExpectimaxBot.Searched(ExpectimaxBot.InitialMax, 0)).result
      ensures treeAnalyzer.nodesCount == old(treeAnalyzer.nodesCount) + FoldMaxMoves(possibleMoves, depth, maxDepth, ExpectimaxBot.Searched(ExpectimaxBot.InitialMax, 0)).nodes
      decreases depth, 2, |possibleMoves| + 1
    {
      bestResult := ExpectimaxBot.InitialMax;
      ghost var start := treeAnalyzer.nodesCount;
      for i := 0 to |possibleMoves|
        invariant treeAnalyzer.nodesCount >= start
        invariant FoldMaxMoves(possibleMoves[i..], depth, maxDepth, ExpectimaxBot.Searched(bestResult, treeAnalyzer.nodesCount - start)) ==
          FoldMaxMoves(possibleMoves, depth, maxDepth, ExpectimaxBot.Searched(ExpectimaxBot.InitialMax, 0))
      {
        var move := possibleMoves[i];
        FoldMaxMovesUnfold(possibleMoves, i, depth, maxDepth, ExpectimaxBot.Searched(bestResult, treeAnalyzer.nodesCount - start));
        if move.outcomes.Rejected? {
          return;
        }
        bestResult := MaximizeOutcomes(move.outcomes.options, move.event, depth, bestResult, treeAnalyzer.nodesCount - start);
      }
    }

    /** The inner loop of `maximize`; `nodes` is the count the enclosing loop has already added. */
    method MaximizeOutcomes(possibleStates: seq<StateChance>, move: MakeMoveEvent, depth: nat, best: Scored, ghost nodes: nat)
      returns (bestResult: Scored)
      requires depth > 0
      modifies treeAnalyzer`nodesCount
      ensures treeAnalyzer.nodesCount >= old(treeAnalyzer.nodesCount)
      ensures FoldMaxOutcomes(possibleStates, move, depth, maxDepth, ExpectimaxBot.Searched(best, nodes)) ==
        ExpectimaxBot.Searched(bestResult, nodes + treeAnalyzer.nodesCount - old(treeAnalyzer.nodesCount))
      decreases depth, 2, 0
    {
      bestResult := best;
      for j := 0 to |possibleStates|
        invariant treeAnalyzer.nodesCount >= old(treeAnalyzer.nodesCount)
        invariant FoldMaxOutcomes(possibleStates[j..], move, depth, maxDepth,
            ExpectimaxBot.Searched(bestResult, nodes + treeAnalyzer.nodesCount - old(treeAnalyzer.nodesCount))) ==
          FoldMaxOutcomes(possibleStates, move, depth, maxDepth, ExpectimaxBot.Searched(best, nodes))
      {
        var stateChance := possibleStates[j];
        ghost var acc := ExpectimaxBot.Searched(bestResult, nodes + treeAnalyzer.nodesCount - old(treeAnalyzer.nodesCount));
        FoldMaxOutcomesUnfold(possibleStates, j, move, depth, maxDepth, acc);
        if stateChance.chance < BAD_BRANCH_PROBABILITY {
          continue;
        }
        var result := ExpectimaxSearch(stateChance.state, depth - 1, false);
        var score := Mul(result.score, stateChance.chance);
        if Gt(score, bestResult.score) {
          bestResult := ExpectimaxBot.Scored(Some(move), score);
        }
        assert ExpectimaxBot.Searched(bestResult, nodes + treeAnalyzer.nodesCount - old(treeAnalyzer.nodesCount)) ==
          MaxStep(State(stateChance.state, stateChance.chance, move), depth, maxDepth, acc);
      }
    }

    /** `expect`. */
    method Expect(possibleMoves: seq<Move>, depth: nat) returns (bestResult: Scored)
      requires depth > 0
      modifies treeAnalyzer`nodesCount
      ensures bestResult == ExpectMoves(possibleMoves, depth, maxDepth).result
      ensures treeAnalyzer.nodesCount == old(treeAnalyzer.nodesCount) + ExpectMoves(possibleMoves, depth, maxDepth).nodes
      decreases depth, 2, |possibleMoves| + 1
    {
      var expectedValue := Finite(0.0);
      bestResult := ExpectimaxBot.InitialExpect;
      ghost var start := treeAnalyzer.nodesCount;
      for i := 0 to |possibleMoves|
        invariant treeAnalyzer.nodesCount >= start
        invariant AllApplied(possibleMoves[..i])
        invariant FoldSumMoves(possibleMoves[i..], depth, maxDepth, ExpectimaxBot.Sum(expectedValue, treeAnalyzer.nodesCount - start)) ==
          FoldSumMoves(possibleMoves, depth, maxDepth, ExpectimaxBot.Sum(Finite(0.0), 0))
      {
        var move := possibleMoves[i];
        FoldSumMovesUnfold(possibleMoves, i, depth, maxDepth, ExpectimaxBot.Sum(expectedValue, treeAnalyzer.nodesCount - start));
        if move.outcomes.Rejected? {
          assert !AllApplied(possibleMoves) by { assert move in possibleMoves; }
          return;
        }
        AllAppliedPrefix(possibleMoves, i);
        expectedValue := SumOutcomes(move.outcomes.options, move.event, depth, expectedValue, treeAnalyzer.nodesCount - start);
      }
      assert possibleMoves[..|possibleMoves|] == possibleMoves;
      expectedValue := DivCount(expectedValue, |possibleMoves| * 2);
      bestResult := ExpectimaxBot.Scored(None, expectedValue);
    }

    /** The inner loop of `expect`; `nodes` is the count the enclosing loop has already added. */
    method SumOutcomes(possibleStates: seq<StateChance>, move: MakeMoveEvent, depth: nat, total: Double, ghost nodes: nat)
      returns (expectedValue: Double)
      requires depth > 0
      modifies treeAnalyzer`nodesCount
      ensures treeAnalyzer.nodesCount >= old(treeAnalyzer.nodesCount)
      ensures FoldSumOutcomes(possibleStates, move, depth, maxDepth, ExpectimaxBot.Sum(total, nodes)) ==
        ExpectimaxBot.Sum(expectedValue, nodes + treeAnalyzer.nodesCount - old(treeAnalyzer.nodesCount))
      decreases depth, 2, 0
    {
      expectedValue := total;
      for j := 0 to |possibleStates|
        invariant treeAnalyzer.nodesCount >= old(treeAnalyzer.nodesCount)
        invariant FoldSumOutcomes(possibleStates[j..], move, depth, maxDepth,
            ExpectimaxBot.Sum(expectedValue, nodes + treeAnalyzer.nodesCount - old(treeAnalyzer.nodesCount))) ==
          FoldSumOutcomes(possibleStates, move, depth, maxDepth, ExpectimaxBot.Sum(total, nodes))
      {
        var stateChance := possibleStates[j];
        ghost var acc := ExpectimaxBot.Sum(expectedValue, nodes + treeAnalyzer.nodesCount - old(treeAnalyzer.nodesCount));
        FoldSumOutcomesUnfold(possibleStates, j, move, depth, maxDepth, acc);
        if stateChance.chance < BAD_BRANCH_PROBABILITY {
          continue;
        }
        ghost var child := Expectimax(stateChance.state, depth - 1, maxDepth, true);
        ghost var before := treeAnalyzer.nodesCount;
        var result := ExpectimaxSearch(stateChance.state, depth - 1, true);
        assert result == child.result && treeAnalyzer.nodesCount == before + child.nodes;
        var score := Mul(result.score, stateChance.chance);
        expectedValue := Add(expectedValue, score);
        assert ExpectimaxBot.Sum(expectedValue, nodes + treeAnalyzer.nodesCount - old(treeAnalyzer.nodesCount)) ==
          SumStep(State(stateChance.state, stateChance.chance, move), depth, maxDepth, acc);
      }
    }
  }
}
