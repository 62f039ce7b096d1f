/**
 * minimax/MinimaxBot: minimax whose bounds are the infinities. Every outcome of every move is
 * searched (no deduplication, no probability filter), each child's score multiplied by its
 * probability as a Java `double`; a `GameException` out of `getPossibleState` is not caught and
 * ends the whole search (`Failure`).
 */
module UnboundedMinimaxBot {
  import opened Wrappers
  import opened Game
  import opened Search
  import opened Doubles
  import Instrumentation
  import ExpectimaxBot
  import MovementMinimaxBot = MinimaxBot

  type Scored = ExpectimaxBot.Scored
  type Weighed = ExpectimaxBot.Weighed

  /** A search's result (`Failure` when an exception propagates) and the `minimax` calls made. */
  datatype Outcome = Outcome(result: Result<Scored>, nodes: nat)

  /** The initial best of a max node (−∞) or a min node (+∞), also the root's no-move result. */
  function Start(maximizing: bool): Scored
  {
    ExpectimaxBot.Scored(None, if maximizing then NegInf else PosInf)
  }

  /** `x > y` in a max node, `x < y` in a min node. */
  predicate Improves(x: Double, y: Double, maximizing: bool)
  {
    if maximizing then Gt(x, y) else Lt(x, y)
  }

  /** Neither is NaN and `x` does not improve on `r`. */
  predicate NoWorse(r: Double, x: Double, maximizing: bool)
  {
    !r.NaN? && !x.NaN? && !Improves(x, r, maximizing)
  }

  /** `minimax(gameState, depth, maximizing)`. */
  function Minimax(n: Node, depth: nat, maxDepth: nat, maximizing: bool): Outcome
    decreases depth, 3, 0
  {
    if depth == 0 || n.ended then Outcome(Success(ExpectimaxBot.Scored(None, Finite(n.value))), 1)
    else if n.moves == [] && depth == maxDepth then Outcome(Success(Start(maximizing)), 1)
    else
      var role := ExpandedRole(n, maximizing);
      var o := FoldMoves(ExpandedMoves(n), depth, maxDepth, role, Start(role), 0);
      Outcome(o.result, o.nodes + 1)
  }

  /** The loop over the moves from the current best; `nodes` counts the calls made so far. */
  function FoldMoves(moves: seq<Move>, depth: nat, maxDepth: nat, maximizing: bool, best: Scored, nodes: nat): Outcome
    requires depth > 0
    decreases depth, 2, |moves|
  {
    if moves == [] then Outcome(Success(best), nodes)
    else match moves[0].outcomes
      case Rejected => Outcome(Failure, nodes)
      case Applied(options) =>
        var o := FoldOutcomes(options, moves[0].event, depth, maxDepth, maximizing, best, nodes);
        if o.result.Failure? then o else FoldMoves(moves[1..], depth, maxDepth, maximizing, o.result.value, o.nodes)
  }

  /** The loop over one move's outcomes: search, weight, keep a strictly better score. */
  function FoldOutcomes(options: seq<StateChance>, event: MakeMoveEvent, depth: nat, maxDepth: nat, maximizing: bool, best: Scored, nodes: nat): Outcome
    requires depth > 0
    decreases depth, 1, |options|
  {
    if options == [] then Outcome(Success(best), nodes)
    else
      var child := Minimax(options[0].state, depth - 1, maxDepth, maximizing);
      if child.result.Failure? then Outcome(Failure, nodes + child.nodes)
      else
        var next := Pick(best, event, Mul(child.result.value.score, options[0].chance), maximizing);
        FoldOutcomes(options[1..], event, depth, maxDepth, maximizing, next, nodes + child.nodes)
  }

  /** `if (score > best) best = (move, score)` (or `<`). */
  function Pick(best: Scored, event: MakeMoveEvent, score: Double, maximizing: bool): Scored
  {
    if Improves(score, best.score, maximizing) then ExpectimaxBot.Scored(Some(event), score) else best
  }

  lemma FoldMovesUnfold(moves: seq<Move>, i: nat, depth: nat, maxDepth: nat, maximizing: bool, best: Scored, nodes: nat)
    requires depth > 0 && i < |moves|
    ensures FoldMoves(moves[i..], depth, maxDepth, maximizing, best, nodes) ==
      match moves[i].outcomes
      case Rejected => Outcome(Failure, nodes)
      case Applied(options) =>
        var o := FoldOutcomes(options, moves[i].event, depth, maxDepth, maximizing, best, nodes);
        if o.result.Failure? then o else FoldMoves(moves[i + 1..], depth, maxDepth, maximizing, o.result.value, o.nodes)
  {
    assert moves[i..][0] == moves[i] && moves[i..][1..] == moves[i + 1..];
  }

  lemma FoldOutcomesUnfold(options: seq<StateChance>, j: nat, event: MakeMoveEvent, depth: nat, maxDepth: nat, maximizing: bool, best: Scored, nodes: nat)
    requires depth > 0 && j < |options|
    ensures FoldOutcomes(options[j..], event, depth, maxDepth, maximizing, best, nodes) ==
      var child := Minimax(options[j].state, depth - 1, maxDepth, maximizing);
      if child.result.Failure? then Outcome(Failure, nodes + child.nodes)
      else FoldOutcomes(options[j + 1..], event, depth, maxDepth, maximizing,
        Pick(best, event, Mul(child.result.value.score, options[j].chance), maximizing), nodes + child.nodes)
  {
    assert options[j..][0] == options[j] && options[j..][1..] == options[j + 1..];
  }

  // Every outcome is searched

  /** No move reachable from the node is rejected by `getPossibleState`. */
  predicate Total(n: Node)
    decreases n, 1
  {
    (forall i :: 0 <= i < |n.moves| ==> MoveTotal(n.moves[i])) &&
    (forall i :: 0 <= i < |n.passMoves| ==> MoveTotal(n.passMoves[i]))
  }

  predicate MoveTotal(m: Move)
    decreases m, 0
  {
    m.outcomes.Applied? && forall j :: 0 <= j < |m.outcomes.options| ==> Total(m.outcomes.options[j].state)
  }

  /** The size of the whole search tree: the node, then every outcome of every applied move. */
  function Size(n: Node, depth: nat, maxDepth: nat): nat
    decreases depth, 2, 0
  {
    if depth == 0 || n.ended || (n.moves == [] && depth == maxDepth) then 1
    else 1 + MovesSize(ExpandedMoves(n), depth, maxDepth)
  }

  function MovesSize(moves: seq<Move>, depth: nat, maxDepth: nat): nat
    requires depth > 0
    decreases depth, 1, |moves|
  {
    if moves == [] then 0
    else
      var here := if moves[0].outcomes.Applied? then OptionsSize(moves[0].outcomes.options, depth, maxDepth) else 0;
      here + MovesSize(moves[1..], depth, maxDepth)
  }

  function OptionsSize(options: seq<StateChance>, depth: nat, maxDepth: nat): nat
    requires depth > 0
    decreases depth, 0, |options|
  {
    if options == [] then 0 else Size(options[0].state, depth - 1, maxDepth) + OptionsSize(options[1..], depth, maxDepth)
  }

  /**
   * A search makes at most one call per node of the tree; when no move is rejected it succeeds
   * and makes exactly one call per node: nothing is pruned or filtered.
   */
  lemma {:induction false} MinimaxCount(n: Node, depth: nat, maxDepth: nat, maximizing: bool)
    ensures Minimax(n, depth, maxDepth, maximizing).nodes <= Size(n, depth, maxDepth)
    ensures Total(n) ==>
      Minimax(n, depth, maxDepth, maximizing).result.Success? && Minimax(n, depth, maxDepth, maximizing).nodes == Size(n, depth, maxDepth)
    decreases depth, 3, 0
  {
    if !(depth == 0 || n.ended) && !(n.moves == [] && depth == maxDepth) {
      var role := ExpandedRole(n, maximizing);
      FoldMovesCount(ExpandedMoves(n), depth, maxDepth, role, Start(role), 0);
    }
  }

  lemma {:induction false} FoldMovesCount(moves: seq<Move>, depth: nat, maxDepth: nat, maximizing: bool, best: Scored, nodes: nat)
    requires depth > 0
    ensures var o := FoldMoves(moves, depth, maxDepth, maximizing, best, nodes);
      nodes <= o.nodes <= nodes + MovesSize(moves, depth, maxDepth) &&
      ((forall i :: 0 <= i < |moves| ==> MoveTotal(moves[i])) ==> o.result.Success? && o.nodes == nodes + MovesSize(moves, depth, maxDepth))
    decreases depth, 2, |moves|
  {
    if moves != [] && moves[0].outcomes.Applied? {
      var options := moves[0].outcomes.options;
      var o := FoldOutcomes(options, moves[0].event, depth, maxDepth, maximizing, best, nodes);
      FoldOutcomesCount(options, moves[0].event, depth, maxDepth, maximizing, best, nodes);
      if o.result.Success? {
        FoldMovesCount(moves[1..], depth, maxDepth, maximizing, o.result.value, o.nodes);
      }
      if forall i :: 0 <= i < |moves| ==> MoveTotal(moves[i]) {
        assert MoveTotal(moves[0]);
        assert forall i :: 0 <= i < |moves[1..]| ==> MoveTotal(moves[1..][i]) by {
          forall i | 0 <= i < |moves[1..]| ensures MoveTotal(moves[1..][i]) {
            assert moves[1..][i] == moves[i + 1];
          }
        }
      }
    }
  }

  lemma {:induction false} FoldOutcomesCount(options: seq<StateChance>, event: MakeMoveEvent, depth: nat, maxDepth: nat, maximizing: bool, best: Scored, nodes: nat)
    requires depth > 0
    ensures var o := FoldOutcomes(options, event, depth, maxDepth, maximizing, best, nodes);
      nodes <= o.nodes <= nodes + OptionsSize(options, depth, maxDepth) &&
      ((forall j :: 0 <= j < |options| ==> Total(options[j].state)) ==> o.result.Success? && o.nodes == nodes + OptionsSize(options, depth, maxDepth))
    decreases depth, 1, |options|
  {
    if options != [] {
      var child := Minimax(options[0].state, depth - 1, maxDepth, maximizing);
      MinimaxCount(options[0].state, depth - 1, maxDepth, maximizing);
      if child.result.Success? {
        var next := Pick(best, event, Mul(child.result.value.score, options[0].chance), maximizing);
        FoldOutcomesCount(options[1..], event, depth, maxDepth, maximizing, next, nodes + child.nodes);
      }
      if forall j :: 0 <= j < |options| ==> Total(options[j].state) {
        assert Total(options[0].state);
        assert forall j :: 0 <= j < |options[1..]| ==> Total(options[1..][j].state) by {
          forall j | 0 <= j < |options[1..]| ensures Total(options[1..][j].state) {
            assert options[1..][j] == options[j + 1];
          }
        }
      }
    }
  }

  // The first strictly best candidate is chosen

  /** The loop `if (score > best) best = ...` (or `<`) over a list of candidates. */
  function FoldImproving(cands: seq<Weighed>, best: Scored, maximizing: bool): Scored
  {
    if cands == [] then best
    else FoldImproving(cands[1..], Pick(best, cands[0].event, cands[0].score, maximizing), maximizing)
  }

  lemma {:induction false} FoldImprovingConcat(a: seq<Weighed>, b: seq<Weighed>, best: Scored, maximizing: bool)
    ensures FoldImproving(a + b, best, maximizing) == FoldImproving(b, FoldImproving(a, best, maximizing), maximizing)
    decreases |a|
  {
    if a == [] {
      assert a + b == b;
    } else {
      assert (a + b)[0] == a[0] && (a + b)[1..] == a[1..] + b;
      FoldImprovingConcat(a[1..], b, Pick(best, a[0].event, a[0].score, maximizing), maximizing);
    }
  }

  /**
   * From a score that is not NaN, the fold returns one no worse than the initial score and than
   * every candidate that is not NaN; unless it is the initial best, it is the first candidate
   * that improves on the initial score and on every number before it. A NaN is never chosen.
   */
  lemma {:induction false} FoldImprovingIsFirstBest(cands: seq<Weighed>, init: Scored, maximizing: bool)
    requires !init.score.NaN?
    ensures var r := FoldImproving(cands, init, maximizing);
      NoWorse(r.score, init.score, maximizing) &&
      (forall i :: 0 <= i < |cands| && !cands[i].score.NaN? ==> NoWorse(r.score, cands[i].score, maximizing)) &&
      (r == init ||
       exists k :: 0 <= k < |cands| && r == ExpectimaxBot.Scored(Some(cands[k].event), cands[k].score) &&
         Improves(cands[k].score, init.score, maximizing) &&
         forall j :: 0 <= j < k && !cands[j].score.NaN? ==> Improves(cands[k].score, cands[j].score, maximizing))
    decreases |cands|
  {
    if cands != [] {
      var c := cands[0];
      var next := Pick(init, c.event, c.score, maximizing);
      var tail := cands[1..];
      var r := FoldImproving(cands, init, maximizing);
      assert r == FoldImproving(tail, next, maximizing);
      FoldImprovingIsFirstBest(tail, next, maximizing);
      forall i | 0 <= i < |cands| && !cands[i].score.NaN?
        ensures NoWorse(r.score, cands[i].score, maximizing)
      {
        if i > 0 { assert cands[i] == tail[i - 1]; }
      }
      if r != next {
        var k :| 0 <= k < |tail| && r == ExpectimaxBot.Scored(Some(tail[k].event), tail[k].score) &&
          Improves(tail[k].score, next.score, maximizing) &&
          forall j :: 0 <= j < k && !tail[j].score.NaN? ==> Improves(tail[k].score, tail[j].score, maximizing);
        assert cands[k + 1] == tail[k];
        forall j | 0 <= j < k + 1 && !cands[j].score.NaN?
          ensures Improves(cands[k + 1].score, cands[j].score, maximizing)
        {
          if j > 0 { assert cands[j] == tail[j - 1]; }
        }
      } else if next != init {
        assert r == ExpectimaxBot.Scored(Some(cands[0].event), cands[0].score);
      }
    }
  }

  /** A search's score, NaN standing in for a failed one. */
  function ScoreOf(o: Outcome): Double
  {
    if o.result.Success? then o.result.value.score else NaN
  }

  /** One move's candidates: its event with each outcome's weighted score. */
  function OptionCandidates(options: seq<StateChance>, event: MakeMoveEvent, depth: nat, maxDepth: nat, maximizing: bool): (cs: seq<Weighed>)
    requires depth > 0
    ensures |cs| == |options|
    ensures forall j :: 0 <= j < |options| ==>
      cs[j] == ExpectimaxBot.Weighed(event, Mul(ScoreOf(Minimax(options[j].state, depth - 1, maxDepth, maximizing)), options[j].chance))
  {
    seq(|options|, j requires 0 <= j < |options| =>
      ExpectimaxBot.Weighed(event, Mul(ScoreOf(Minimax(options[j].state, depth - 1, maxDepth, maximizing)), options[j].chance)))
  }

  /** The candidates of a node, move by move and outcome by outcome, up to the first rejected move. */
  function Candidates(moves: seq<Move>, depth: nat, maxDepth: nat, maximizing: bool): seq<Weighed>
    requires depth > 0
  {
    if moves == [] then []
    else match moves[0].outcomes
      case Rejected => []
      case Applied(options) =>
        OptionCandidates(options, moves[0].event, depth, maxDepth, maximizing) + Candidates(moves[1..], depth, maxDepth, maximizing)
  }

  lemma {:induction false} FoldOutcomesIsFoldImproving(options: seq<StateChance>, event: MakeMoveEvent, depth: nat, maxDepth: nat, maximizing: bool, best: Scored, nodes: nat)
    requires depth > 0 && forall j :: 0 <= j < |options| ==> Total(options[j].state)
    ensures FoldOutcomes(options, event, depth, maxDepth, maximizing, best, nodes).result ==
      Success(FoldImproving(OptionCandidates(options, event, depth, maxDepth, maximizing), best, maximizing))
    decreases |options|
  {
    if options != [] {
      var child := Minimax(options[0].state, depth - 1, maxDepth, maximizing);
      MinimaxCount(options[0].state, depth - 1, maxDepth, maximizing);
      var cs := OptionCandidates(options, event, depth, maxDepth, maximizing);
      var next := Pick(best, event, Mul(child.result.value.score, options[0].chance), maximizing);
      assert forall j :: 0 <= j < |options[1..]| ==> Total(options[1..][j].state) by {
        forall j | 0 <= j < |options[1..]| ensures Total(options[1..][j].state) {
          assert options[1..][j] == options[j + 1];
        }
      }
      FoldOutcomesIsFoldImproving(options[1..], event, depth, maxDepth, maximizing, next, nodes + child.nodes);
      assert cs[1..] == OptionCandidates(options[1..], event, depth, maxDepth, maximizing);
    }
  }

  lemma {:induction false} FoldMovesIsFoldImproving(moves: seq<Move>, depth: nat, maxDepth: nat, maximizing: bool, best: Scored, nodes: nat)
    requires depth > 0 && forall i :: 0 <= i < |moves| ==> MoveTotal(moves[i])
    ensures FoldMoves(moves, depth, maxDepth, maximizing, best, nodes).result ==
      Success(FoldImproving(Candidates(moves, depth, maxDepth, maximizing), best, maximizing))
    decreases |moves|
  {
    if moves != [] {
      assert MoveTotal(moves[0]);
      var options := moves[0].outcomes.options;
      var cs := OptionCandidates(options, moves[0].event, depth, maxDepth, maximizing);
      FoldOutcomesIsFoldImproving(options, moves[0].event, depth, maxDepth, maximizing, best, nodes);
      var o := FoldOutcomes(options, moves[0].event, depth, maxDepth, maximizing, best, nodes);
      assert forall i :: 0 <= i < |moves[1..]| ==> MoveTotal(moves[1..][i]) by {
        forall i | 0 <= i < |moves[1..]| ensures MoveTotal(moves[1..][i]) {
          assert moves[1..][i] == moves[i + 1];
        }
      }
      FoldMovesIsFoldImproving(moves[1..], depth, maxDepth, maximizing, o.result.value, o.nodes);
      FoldImprovingConcat(cs, Candidates(moves[1..], depth, maxDepth, maximizing), best, maximizing);
    }
  }

  /**
   * When no move is rejected, an expanded node returns the first candidate, in move order and then
   * outcome order, that strictly improves on ±∞ and on every number before it, and no candidate
   * that is not NaN is better; otherwise it returns ±∞ with no move.
   */
  lemma ChoosesFirstBest(n: Node, depth: nat, maxDepth: nat, maximizing: bool)
    requires Total(n) && depth > 0 && !n.ended && !(n.moves == [] && depth == maxDepth)
    ensures var role := ExpandedRole(n, maximizing);
      var cands := Candidates(ExpandedMoves(n), depth, maxDepth, role);
      var o := Minimax(n, depth, maxDepth, maximizing);
      o.result.Success? &&
      (forall i :: 0 <= i < |cands| && !cands[i].score.NaN? ==> NoWorse(o.result.value.score, cands[i].score, role)) &&
      (o.result.value == Start(role) ||
       exists k :: 0 <= k < |cands| && o.result.value == ExpectimaxBot.Scored(Some(cands[k].event), cands[k].score) &&
         Improves(cands[k].score, Start(role).score, role) &&
         forall j :: 0 <= j < k && !cands[j].score.NaN? ==> Improves(cands[k].score, cands[j].score, role))
  {
    var role := ExpandedRole(n, maximizing);
    var moves := ExpandedMoves(n);
    assert forall i :: 0 <= i < |moves| ==> MoveTotal(moves[i]);
    FoldMovesIsFoldImproving(moves, depth, maxDepth, role, Start(role), 0);
    FoldImprovingIsFirstBest(Candidates(moves, depth, maxDepth, role), Start(role), role);
  }

  // Range of the result

  /** An infinity, or a number in [MIN_COST, MAX_COST] of the `evaluate` package. */
  predicate InExtendedRange(x: Double)
  {
    x.NegInf? || x.PosInf? || (x.Finite? && MIN_COST <= x.r <= MAX_COST)
  }

  lemma MulInRange(x: Double, p: real)
    requires InExtendedRange(x) && 0.0 <= p <= 1.0
    ensures Mul(x, p).NaN? || InExtendedRange(Mul(x, p))
  {
    if x.Finite? {
      WeightedInRange(x.r, p);
    }
  }

  /**
   * With every evaluation in [MIN_COST, MAX_COST] and every chance in [0, 1], a successful
   * search's score is an infinity or a number in that range, never NaN (an infinity times a zero
   * chance is NaN, which no comparison ever selects).
   */
  lemma {:induction false} MinimaxInRange(n: Node, depth: nat, maxDepth: nat, maximizing: bool)
    requires Bounded(n)
    ensures var o := Minimax(n, depth, maxDepth, maximizing); o.result.Success? ==> InExtendedRange(o.result.value.score)
    decreases depth, 3, 0
  {
    if !(depth == 0 || n.ended) && !(n.moves == [] && depth == maxDepth) {
      var role := ExpandedRole(n, maximizing);
      BoundedMembers(n, ExpandedMoves(n));
      FoldMovesInRange(ExpandedMoves(n), depth, maxDepth, role, Start(role), 0);
    }
  }

  lemma {:induction false} FoldMovesInRange(moves: seq<Move>, depth: nat, maxDepth: nat, maximizing: bool, best: Scored, nodes: nat)
    requires depth > 0 && InExtendedRange(best.score)
    requires forall m, o :: m in moves && m.outcomes.Applied? && o in m.outcomes.options ==> 0.0 <= o.chance <= 1.0 && Bounded(o.state)
    ensures var o := FoldMoves(moves, depth, maxDepth, maximizing, best, nodes); o.result.Success? ==> InExtendedRange(o.result.value.score)
    decreases depth, 2, |moves|
  {
    if moves != [] && moves[0].outcomes.Applied? {
      assert moves[0] in moves;
      var options := moves[0].outcomes.options;
      FoldOutcomesInRange(options, moves[0].event, depth, maxDepth, maximizing, best, nodes);
      var o := FoldOutcomes(options, moves[0].event, depth, maxDepth, maximizing, best, nodes);
      if o.result.Success? {
        assert forall m :: m in moves[1..] ==> m in moves;
        FoldMovesInRange(moves[1..], depth, maxDepth, maximizing, o.result.value, o.nodes);
      }
    }
  }

  lemma {:induction false} FoldOutcomesInRange(options: seq<StateChance>, event: MakeMoveEvent, depth: nat, maxDepth: nat, maximizing: bool, best: Scored, nodes: nat)
    requires depth > 0 && InExtendedRange(best.score)
    requires forall o :: o in options ==> 0.0 <= o.chance <= 1.0 && Bounded(o.state)
    ensures var o := FoldOutcomes(options, event, depth, maxDepth, maximizing, best, nodes); o.result.Success? ==> InExtendedRange(o.result.value.score)
    decreases depth, 1, |options|
  {
    if options != [] {
      assert options[0] in options;
      var child := Minimax(options[0].state, depth - 1, maxDepth, maximizing);
      MinimaxInRange(options[0].state, depth - 1, maxDepth, maximizing);
      if child.result.Success? {
        MulInRange(child.result.value.score, options[0].chance);
        var next := Pick(best, event, Mul(child.result.value.score, options[0].chance), maximizing);
        assert forall o :: o in options[1..] ==> o in options;
        FoldOutcomesInRange(options[1..], event, depth, maxDepth, maximizing, next, nodes + child.nodes);
      }
    }
  }

  /**
   * A rejected first move ends the search with an exception, where movement_stage/MinimaxBot's
   * `catch` returns the initial best.
   */
  lemma RejectionPropagates(e: MakeMoveEvent)
    ensures var n := Node(false, 0.0, [Move(e, Rejected)], []);
      Minimax(n, 1, 1, true) == Outcome(Failure, 1) &&
      MovementMinimaxBot.Minimax(n, 1, 1, true) == Explored(Initial(true), 1)
  {
    var m := Move(e, Rejected);
    MovementBotUtil.SingleMoveKept(m);
    assert MovementBotUtil.PossibleStates([m]) == Failure by {
      assert [m][..0] == [];
    }
  }

  class MinimaxBot {
    const maxDepth: nat
    const treeAnalyzer: Instrumentation.TreeAnalyzer

    constructor (maxDepth: nat)
      ensures this.maxDepth == maxDepth && fresh(treeAnalyzer)
      ensures treeAnalyzer.nodesCount == 0 && treeAnalyzer.moveStartTime == 0 && treeAnalyzer.moveEndTime == 0
    {
      this.maxDepth := maxDepth;
      treeAnalyzer := new Instrumentation.TreeAnalyzer();
    }

    /**
     * `generateMakeMoveEvent`: search the root as the maximizing player; an exception ends the
     * call before the second clock reading.
     */
    method GenerateMakeMoveEvent(gameState: Node, startTime: int, endTime: int) returns (event: Result<Option<MakeMoveEvent>>)
      modifies treeAnalyzer
      ensures var o := Minimax(gameState, maxDepth, maxDepth, true);
        event == (if o.result.Success? then Success(o.result.value.event) else Failure) &&
        treeAnalyzer.nodesCount == old(treeAnalyzer.nodesCount) + o.nodes &&
        treeAnalyzer.moveStartTime == startTime &&
        treeAnalyzer.moveEndTime == (if o.result.Success? then endTime else old(treeAnalyzer.moveEndTime))
    {
      treeAnalyzer.StartMoveStopWatch(startTime);
      var result := MinimaxSearch(gameState, maxDepth, true);
      if result.Failure? {
        return Failure;
      }
      treeAnalyzer.EndMoveStopWatch(endTime);
      event := Success(result.value.event);
    }

    /** `minimax`. */
    method MinimaxSearch(gameState: Node, depth: nat, maximizing: bool) returns (r: Result<Scored>)
      modifies treeAnalyzer`nodesCount
      ensures r == Minimax(gameState, depth, maxDepth, maximizing).result
      ensures treeAnalyzer.nodesCount == old(treeAnalyzer.nodesCount) + Minimax(gameState, depth, maxDepth, maximizing).nodes
      decreases depth, 3, 0
    {
      treeAnalyzer.IncrementNodesCount();
      if depth == 0 || gameState.ended {
        return Success(ExpectimaxBot.Scored(None, Finite(gameState.value)));
      }
      var possibleMoves := gameState.moves;
      var role := maximizing;
      if |possibleMoves| == 0 {
        if depth == maxDepth {
          return Success(ExpectimaxBot.Scored(None, if maximizing then NegInf else PosInf));
        }
        possibleMoves := gameState.passMoves;
        role := !maximizing;
      }
      if role {
        r := Maximize(possibleMoves, depth);
      } else {
        r := Minimize(possibleMoves, depth);
      }
    }

    /** `maximize`. */
    method Maximize(possibleMoves: seq<Move>, depth: nat) returns (r: Result<Scored>)
      requires depth > 0
      modifies treeAnalyzer`nodesCount
      ensures r == FoldMoves(possibleMoves, depth, maxDepth, true, Start(true), 0).result
      ensures treeAnalyzer.nodesCount == old(treeAnalyzer.nodesCount) + FoldMoves(possibleMoves, depth, maxDepth, true, Start(true), 0).nodes
      decreases depth, 2, 1
    {
      r := SearchMoves(possibleMoves, depth, true);
    }

    /** `minimize`. */
    method Minimize(possibleMoves: seq<Move>, depth: nat) returns (r: Result<Scored>)
      requires depth > 0
      modifies treeAnalyzer`nodesCount
      ensures r == FoldMoves(possibleMoves, depth, maxDepth, false, Start(false), 0).result
      ensures treeAnalyzer.nodesCount == old(treeAnalyzer.nodesCount) + FoldMoves(possibleMoves, depth, maxDepth, false, Start(false), 0).nodes
      decreases depth, 2, 1
    {
      r := SearchMoves(possibleMoves, depth, false);
    }

    /** The loop over the moves shared by `maximize` and `minimize`. */
    method SearchMoves(possibleMoves: seq<Move>, depth: nat, maximizing: bool) returns (r: Result<Scored>)
      requires depth > 0
      modifies treeAnalyzer`nodesCount
      ensures r == FoldMoves(possibleMoves, depth, maxDepth, maximizing, Start(maximizing), 0).result
      ensures treeAnalyzer.nodesCount == old(treeAnalyzer.nodesCount) + FoldMoves(possibleMoves, depth, maxDepth, maximizing, Start(maximizing), 0).nodes
      decreases depth, 2, 0
    {
      var bestResult := ExpectimaxBot.Scored(None, if maximizing then NegInf else PosInf);
      ghost var start := treeAnalyzer.nodesCount;
      for i := 0 to |possibleMoves|
        invariant treeAnalyzer.nodesCount >= start
        invariant FoldMoves(possibleMoves[i..], depth, maxDepth, maximizing, bestResult, treeAnalyzer.nodesCount - start) ==
          FoldMoves(possibleMoves, depth, maxDepth, maximizing, Start(maximizing), 0)
      {
        var move := possibleMoves[i];
        FoldMovesUnfold(possibleMoves, i, depth, maxDepth, maximizing, bestResult, treeAnalyzer.nodesCount - start);
        if move.outcomes.Rejected? {
          return Failure;
        }
        var result := SearchOutcomes(move.outcomes.options, move.event, depth, maximizing, bestResult, treeAnalyzer.nodesCount - start);
        if result.Failure? {
          return Failure;
        }
        bestResult := result.value;
      }
      assert possibleMoves[|possibleMoves|..] == [];
      r := Success(bestResult);
    }

    /** The inner loop over one move's outcomes; `nodes` is the count the outer loop has added. */
    method SearchOutcomes(possibleStates: seq<StateChance>, move: MakeMoveEvent, depth: nat, maximizing: bool, best: Scored, ghost nodes: nat)
      returns (r: Result<Scored>)
      requires depth > 0
      modifies treeAnalyzer`nodesCount
      ensures treeAnalyzer.nodesCount >= old(treeAnalyzer.nodesCount)
      ensures FoldOutcomes(possibleStates, move, depth, maxDepth, maximizing, best, nodes) ==
        Outcome(r, nodes + treeAnalyzer.nodesCount - old(treeAnalyzer.nodesCount))
      decreases depth, 1, 0
    {
      var bestResult := best;
      for j := 0 to |possibleStates|
        invariant treeAnalyzer.nodesCount >= old(treeAnalyzer.nodesCount)
        invariant FoldOutcomes(possibleStates[j..], move, depth, maxDepth, maximizing, bestResult,
            nodes + treeAnalyzer.nodesCount - old(treeAnalyzer.nodesCount)) ==
          FoldOutcomes(possibleStates, move, depth, maxDepth, maximizing, best, nodes)
      {
        var stateChance := possibleStates[j];
        FoldOutcomesUnfold(possibleStates, j, move, depth, maxDepth, maximizing, bestResult, nodes + treeAnalyzer.nodesCount - old(treeAnalyzer.nodesCount));
        var result := MinimaxSearch(stateChance.state, depth - 1, maximizing);
        if result.Failure? {
          return Failure;
        }
        var score := Mul(result.value.score, stateChance.chance);
        if (maximizing && Gt(score, bestResult.score)) || (!maximizing && Lt(score, bestResult.score)) {
          bestResult := ExpectimaxBot.Scored(Some(move), score);
        }
      }
      assert possibleStates[|possibleStates|..] == [];
      r := Success(bestResult);
    }
  }
}
