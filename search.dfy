/**
 * What the search bots have in common: the (event, score) pair they return, the
 * "keep the first strictly better candidate" fold that every maximize/minimize loop
 * performs, and the well-formedness of a search tree whose scores and chances are in range.
 */
module Search {
  import opened Wrappers
  import opened Game
  import Evaluate
  import MovementBotUtil

  const MAX_COST: real := Evaluate.MAX_COST
  const MIN_COST: real := Evaluate.MIN_COST

  /** EventScore: the chosen move (`None` for Java's `null`) and its score. */
  datatype EventScore = EventScore(event: Option<MakeMoveEvent>, score: real)

  /** The result of a search together with the number of `incrementNodesCount` calls it made. */
  datatype Explored = Explored(result: EventScore, nodes: nat)

  /** A child's move and its probability-weighted score, in the order the loop meets them. */
  datatype Candidate = Candidate(event: MakeMoveEvent, score: real)

  /** The comparison of a max node (`>`) or of a min node (`<`). */
  predicate Better(x: real, y: real, maximizing: bool)
  {
    if maximizing then x > y else x < y
  }

  predicate AtLeastAsGood(x: real, y: real, maximizing: bool)
  {
    if maximizing then x >= y else x <= y
  }

  /** The starting best of a maximize (MIN_COST) or minimize (MAX_COST) loop. */
  function Initial(maximizing: bool): EventScore
  {
    EventScore(None, if maximizing then MIN_COST else MAX_COST)
  }

  /**
   * What a node is expanded with: its own moves, or, when it has none, the moves after
   * `changeCurrentPlayer`, in which case the role flips.
   */
  function ExpandedMoves(n: Node): seq<Move>
  {
    if n.moves == [] then n.passMoves else n.moves
  }

  function ExpandedRole(n: Node, maximizing: bool): bool
  {
    if n.moves == [] then !maximizing else maximizing
  }

  /** The loop `if (result.getScore() > bestResult.getScore()) bestResult = ...` over the candidates. */
  function FoldBest(cands: seq<Candidate>, maximizing: bool, best: EventScore): EventScore
  {
    if cands == [] then best
    else
      var c := cands[0];
      FoldBest(cands[1..], maximizing,
        if Better(c.score, best.score, maximizing) then EventScore(Some(c.event), c.score) else best)
  }

  /**
   * The fold returns the first strictly best candidate: no candidate and not the initial
   * value beats it, and unless nothing beat the initial value it is a candidate that beats
   * the initial value and every candidate before it.
   */
  lemma {:induction false} FoldBestIsFirstBest(cands: seq<Candidate>, maximizing: bool, init: EventScore)
    ensures AtLeastAsGood(FoldBest(cands, maximizing, init).score, init.score, maximizing)
    ensures forall i :: 0 <= i < |cands| ==>
      AtLeastAsGood(FoldBest(cands, maximizing, init).score, cands[i].score, maximizing)
    ensures FoldBest(cands, maximizing, init) == init ||
      exists k :: 0 <= k < |cands| && FoldBest(cands, maximizing, init) == EventScore(Some(cands[k].event), cands[k].score) &&
        Better(cands[k].score, init.score, maximizing) &&
        forall j :: 0 <= j < k ==> Better(cands[k].score, cands[j].score, maximizing)
    decreases |cands|
  {
    if cands != [] {
      var c := cands[0];
      var next := if Better(c.score, init.score, maximizing) then EventScore(Some(c.event), c.score) else init;
      var tail := cands[1..];
      var r := FoldBest(cands, maximizing, init);
      assert r == FoldBest(tail, maximizing, next);
      FoldBestIsFirstBest(tail, maximizing, next);
      forall i | 0 <= i < |cands|
        ensures AtLeastAsGood(r.score, cands[i].score, maximizing)
      {
        if i > 0 { assert cands[i] == tail[i - 1]; }
      }
      if r != next {
        var k :| 0 <= k < |tail| && r == EventScore(Some(tail[k].event), tail[k].score) &&
          Better(tail[k].score, next.score, maximizing) &&
          forall j :: 0 <= j < k ==> Better(tail[k].score, tail[j].score, maximizing);
        assert cands[k + 1] == tail[k];
        forall j | 0 <= j < k + 1
          ensures Better(cands[k + 1].score, cands[j].score, maximizing)
        {
          if j > 0 { assert cands[j] == tail[j - 1]; }
        }
      } else if next != init {
        assert r == EventScore(Some(cands[0].event), cands[0].score);
      }
    }
  }

  /** The fold's score stays in any interval holding the initial score and every candidate's. */
  lemma FoldBestInRange(cands: seq<Candidate>, maximizing: bool, init: EventScore, lo: real, hi: real)
    requires lo <= init.score <= hi
    requires forall i :: 0 <= i < |cands| ==> lo <= cands[i].score <= hi
    ensures lo <= FoldBest(cands, maximizing, init).score <= hi
  {
    FoldBestIsFirstBest(cands, maximizing, init);
  }

  /** Scores and chances of a whole tree are in range: values in [MIN_COST, MAX_COST], chances in [0, 1]. */
  predicate Bounded(n: Node)
    decreases n, 1
  {
    MIN_COST <= n.value <= MAX_COST &&
    (forall i :: 0 <= i < |n.moves| ==> MoveBounded(n.moves[i])) &&
    (forall i :: 0 <= i < |n.passMoves| ==> MoveBounded(n.passMoves[i]))
  }

  predicate MoveBounded(m: Move)
    decreases m, 0
  {
    m.outcomes.Applied? ==>
      forall j :: 0 <= j < |m.outcomes.options| ==>
        0.0 <= m.outcomes.options[j].chance <= 1.0 && Bounded(m.outcomes.options[j].state)
  }

  /** A bounded node's moves, pass moves and their outcomes are bounded, by membership. */
  lemma BoundedMembers(n: Node, moves: seq<Move>)
    requires Bounded(n) && (moves == n.moves || moves == n.passMoves)
    ensures forall m, o :: m in moves && m.outcomes.Applied? && o in m.outcomes.options ==>
      0.0 <= o.chance <= 1.0 && Bounded(o.state)
  {
    forall m, o | m in moves && m.outcomes.Applied? && o in m.outcomes.options
      ensures 0.0 <= o.chance <= 1.0 && Bounded(o.state)
    {
      var i :| 0 <= i < |moves| && moves[i] == m;
      assert MoveBounded(m);
      var j :| 0 <= j < |m.outcomes.options| && m.outcomes.options[j] == o;
    }
  }

  /** A score in range weighted by a probability in [0, 1] stays in range. */
  lemma WeightedInRange(v: real, p: real)
    requires MIN_COST <= v <= MAX_COST && 0.0 <= p <= 1.0
    ensures MIN_COST <= v * p <= MAX_COST
  {
    if v >= 0.0 {
      assert v * p <= v * 1.0;
    } else {
      assert v * p >= v * 1.0;
    }
  }

  /**
   * Every state collected from the deduplicated moves of a bounded node is bounded and
   * has a probability above BAD_BRANCH_PROBABILITY and at most 1.
   */
  lemma CollectedBounded(n: Node, moves: seq<Move>)
    requires Bounded(n) && (moves == n.moves || moves == n.passMoves)
    requires MovementBotUtil.PossibleStates(MovementBotUtil.WithoutUnnecessary(moves)).Success?
    ensures forall x :: x in MovementBotUtil.PossibleStates(MovementBotUtil.WithoutUnnecessary(moves)).value ==>
      MovementBotUtil.BAD_BRANCH_PROBABILITY < x.probability <= 1.0 && Bounded(x.gameState)
  {
    var kept := MovementBotUtil.WithoutUnnecessary(moves);
    MovementBotUtil.WithoutUnnecessaryProperties(moves);
    MovementBotUtil.SubsequenceMembers(kept, moves);
    MovementBotUtil.PossibleStatesExact(kept);
    BoundedMembers(n, moves);
  }
}
