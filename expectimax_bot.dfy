/**
 * movement_stage/ExpectimaxBot: the bot's own turns are max nodes that keep the first
 * strictly best probability-weighted child; the opponent's turns are chance nodes whose
 * value is the probability-weighted sum of the children divided by the number of collected
 * states. Scores are Java doubles, because an expectation over no states is 0 / 0 = NaN.
 */
module ExpectimaxBot {
  import opened Wrappers
  import opened Game
  import opened Search
  import opened MovementBotUtil
  import opened Doubles
  import Instrumentation

  /** EventScore with its `double` score. */
  datatype Scored = Scored(event: Option<MakeMoveEvent>, score: Double)

  /** A result and the number of `incrementNodesCount` calls that produced it. */
  datatype Searched = Searched(result: Scored, nodes: nat)

  /** The running `expectedValue` of an expectation loop and the calls made so far. */
  datatype Sum = Sum(total: Double, nodes: nat)

  /** The starting best of `maximize`: (null, MIN_COST). */
  const InitialMax: Scored := Scored(None, Finite(MIN_COST))

  /** What `expect` returns when collection fails: (null, 0). */
  const InitialExpect: Scored := Scored(None, Finite(0.0))

  /** `expectimax(gameState, depth, maximizing)`. */
  function Expectimax(n: Node, depth: nat, maxDepth: nat, maximizing: bool): Searched
    decreases depth, 3, 0
  {
    if depth == 0 || n.ended then Searched(Scored(None, Finite(n.value)), 1)
    else if n.moves == [] && depth == maxDepth then
      Searched(Scored(None, Finite(if maximizing then MIN_COST else 0.0)), 1)
    else
      var moves := WithoutUnnecessary(ExpandedMoves(n));
      var e := if ExpandedRole(n, maximizing) then MaxNode(moves, depth, maxDepth) else ExpectNode(moves, depth, maxDepth);
      Searched(e.result, e.nodes + 1)
  }

  /** `maximize`: a `GameException` while collecting leaves (null, MIN_COST). */
  function MaxNode(moves: seq<Move>, depth: nat, maxDepth: nat): Searched
    requires depth > 0
    decreases depth, 2, 0
  {
    match PossibleStates(moves)
    case Failure => Searched(InitialMax, 0)
    case Success(states) => FoldMax(states, depth, maxDepth, Searched(InitialMax, 0))
  }

  /** The loop of `maximize`: children are searched as max nodes again. */
  function FoldMax(states: seq<State>, depth: nat, maxDepth: nat, acc: Searched): Searched
    requires depth > 0
    decreases depth, 1, |states|
  {
    if states == [] then acc
    else FoldMax(states[1..], depth, maxDepth, MaxStep(states[0], depth, maxDepth, acc))
  }

  function MaxStep(s: State, depth: nat, maxDepth: nat, acc: Searched): Searched
    requires depth > 0
    decreases depth, 0, 0
  {
    var child := Expectimax(s.gameState, depth - 1, maxDepth, true);
    var w := Mul(child.result.score, s.probability);
    Searched(if Gt(w, acc.result.score) then Scored(Some(s.lastMove), w) else acc.result, acc.nodes + child.nodes)
  }

  /** `expect`: the weighted sum divided by the number of states; (null, 0) when collection fails. */
  function ExpectNode(moves: seq<Move>, depth: nat, maxDepth: nat): Searched
    requires depth > 0
    decreases depth, 2, 0
  {
    match PossibleStates(moves)
    case Failure => Searched(InitialExpect, 0)
    case Success(states) =>
      var sum := FoldExpect(states, depth, maxDepth, Sum(Finite(0.0), 0));
      Searched(Scored(None, DivCount(sum.total, |states|)), sum.nodes)
  }

  /** The loop of `expect`: children are searched as chance nodes again. */
  function FoldExpect(states: seq<State>, depth: nat, maxDepth: nat, acc: Sum): Sum
    requires depth > 0
    decreases depth, 1, |states|
  {
    if states == [] then acc
    else FoldExpect(states[1..], depth, maxDepth, ExpectStep(states[0], depth, maxDepth, acc))
  }

  function ExpectStep(s: State, depth: nat, maxDepth: nat, acc: Sum): Sum
    requires depth > 0
    decreases depth, 0, 0
  {
    var child := Expectimax(s.gameState, depth - 1, maxDepth, false);
    Sum(Add(acc.total, Mul(child.result.score, s.probability)), acc.nodes + child.nodes)
  }

  lemma FoldMaxUnfold(states: seq<State>, i: nat, depth: nat, maxDepth: nat, acc: Searched)
    requires depth > 0 && i < |states|
    ensures FoldMax(states[i..], depth, maxDepth, acc) == FoldMax(states[i + 1..], depth, maxDepth, MaxStep(states[i], depth, maxDepth, acc))
  {
    assert states[i..][1..] == states[i + 1..];
  }

  lemma FoldExpectUnfold(states: seq<State>, i: nat, depth: nat, maxDepth: nat, acc: Sum)
    requires depth > 0 && i < |states|
    ensures FoldExpect(states[i..], depth, maxDepth, acc) == FoldExpect(states[i + 1..], depth, maxDepth, ExpectStep(states[i], depth, maxDepth, acc))
  {
    assert states[i..][1..] == states[i + 1..];
  }

  /** A child's move and its probability-weighted `double` score, in the order the loop meets them. */
  datatype Weighed = Weighed(event: MakeMoveEvent, score: Double)

  /** The loop `if (result.getScore() > bestResult.getScore()) bestResult = ...` over doubles. */
  function FoldGreatest(cands: seq<Weighed>, best: Scored): Scored
  {
    if cands == [] then best
    else FoldGreatest(cands[1..], if Gt(cands[0].score, best.score) then Scored(Some(cands[0].event), cands[0].score) else best)
  }

  /**
   * Starting from a number, the fold returns a number at least the initial score and every
   * candidate that is not NaN; unless nothing beat the initial score, it is the first candidate
   * that beat the initial score and every number before it. A NaN candidate is never chosen.
   */
  lemma {:induction false} FoldGreatestIsFirstGreatest(cands: seq<Weighed>, init: Scored)
    requires !init.score.NaN?
    ensures var r := FoldGreatest(cands, init);
      Le(init.score, r.score) &&
      (forall i :: 0 <= i < |cands| && !cands[i].score.NaN? ==> Le(cands[i].score, r.score)) &&
      (r == init ||
       exists k :: 0 <= k < |cands| && r == Scored(Some(cands[k].event), cands[k].score) &&
         Gt(cands[k].score, init.score) &&
         forall j :: 0 <= j < k && !cands[j].score.NaN? ==> Lt(cands[j].score, cands[k].score))
    decreases |cands|
  {
    if cands != [] {
      var c := cands[0];
      var next := if Gt(c.score, init.score) then Scored(Some(c.event), c.score) else init;
      var tail := cands[1..];
      var r := FoldGreatest(cands, init);
      assert r == FoldGreatest(tail, next);
      FoldGreatestIsFirstGreatest(tail, next);
      forall i | 0 <= i < |cands| && !cands[i].score.NaN?
        ensures Le(cands[i].score, r.score)
      {
        if i > 0 { assert cands[i] == tail[i - 1]; }
      }
      if r != next {
        var k :| 0 <= k < |tail| && r == Scored(Some(tail[k].event), tail[k].score) &&
          Gt(tail[k].score, next.score) &&
          forall j :: 0 <= j < k && !tail[j].score.NaN? ==> Lt(tail[j].score, tail[k].score);
        assert cands[k + 1] == tail[k];
        forall j | 0 <= j < k + 1 && !cands[j].score.NaN?
          ensures Lt(cands[j].score, cands[k + 1].score)
        {
          if j > 0 { assert cands[j] == tail[j - 1]; }
        }
      } else if next != init {
        assert r == Scored(Some(cands[0].event), cands[0].score);
      }
    }
  }

  /** Each collected state's move and its weighted child score. */
  function Candidates(states: seq<State>, depth: nat, maxDepth: nat): (cs: seq<Weighed>)
    requires depth > 0
    ensures |cs| == |states|
    ensures forall i :: 0 <= i < |states| ==>
      cs[i] == Weighed(states[i].lastMove, Mul(Expectimax(states[i].gameState, depth - 1, maxDepth, true).result.score, states[i].probability))
  {
    seq(|states|, i requires 0 <= i < |states| =>
      Weighed(states[i].lastMove, Mul(Expectimax(states[i].gameState, depth - 1, maxDepth, true).result.score, states[i].probability)))
  }

  lemma {:induction false} FoldMaxIsFoldGreatest(states: seq<State>, depth: nat, maxDepth: nat, acc: Searched)
    requires depth > 0
    ensures FoldMax(states, depth, maxDepth, acc).result == FoldGreatest(Candidates(states, depth, maxDepth), acc.result)
    decreases |states|
  {
    if states != [] {
      var next := MaxStep(states[0], depth, maxDepth, acc);
      FoldMaxIsFoldGreatest(states[1..], depth, maxDepth, next);
      var cs := Candidates(states, depth, maxDepth);
      assert Candidates(states[1..], depth, maxDepth) == cs[1..];
      assert FoldGreatest(cs, acc.result) == FoldGreatest(cs[1..], next.result);
    }
  }

  /**
   * A max node's choice: the first collected state whose weighted score is strictly the greatest,
   * or (null, MIN_COST) when none exceeds MIN_COST or collection fails.
   */
  lemma MaxNodeChoosesFirstGreatest(moves: seq<Move>, depth: nat, maxDepth: nat)
    requires depth > 0
    ensures PossibleStates(moves).Failure? ==> MaxNode(moves, depth, maxDepth).result == InitialMax
    ensures PossibleStates(moves).Success? ==>
      MaxNode(moves, depth, maxDepth).result == FoldGreatest(Candidates(PossibleStates(moves).value, depth, maxDepth), InitialMax)
  {
    if PossibleStates(moves).Success? {
      FoldMaxIsFoldGreatest(PossibleStates(moves).value, depth, maxDepth, Searched(InitialMax, 0));
    }
  }

  /** A double that is a finite value in [MIN_COST, MAX_COST]. */
  predicate InRange(x: Double)
  {
    x.Finite? && MIN_COST <= x.r <= MAX_COST
  }

  /**
   * With in-range evaluations and chances, no search yields an infinity: the score is NaN
   * (an expectation over no collected states) or within [MIN_COST, MAX_COST].
   */
  lemma {:induction false} ExpectimaxInRange(n: Node, depth: nat, maxDepth: nat, maximizing: bool)
    requires Bounded(n)
    ensures NaNOrWithin(Expectimax(n, depth, maxDepth, maximizing).result.score, MIN_COST, MAX_COST)
    decreases depth, 1
  {
    if !(depth == 0 || n.ended) && !(n.moves == [] && depth == maxDepth) {
      var moves := WithoutUnnecessary(ExpandedMoves(n));
      var role := ExpandedRole(n, maximizing);
      if PossibleStates(moves).Success? {
        CollectedBounded(n, ExpandedMoves(n));
        ChildrenInRange(PossibleStates(moves).value, depth, maxDepth, role);
        if role {
          MaxNodeInRange(moves, depth, maxDepth);
        } else {
          ExpectNodeInRange(moves, depth, maxDepth);
        }
      }
      assert Expectimax(n, depth, maxDepth, maximizing).result ==
        (if role then MaxNode(moves, depth, maxDepth) else ExpectNode(moves, depth, maxDepth)).result;
    }
  }

  /** Every collected child in range is searched, in the node's role, to a weighted score in range. */
  lemma {:induction false} ChildrenInRange(states: seq<State>, depth: nat, maxDepth: nat, maximizing: bool)
    requires depth > 0
    requires forall x :: x in states ==> 0.0 <= x.probability <= 1.0 && Bounded(x.gameState)
    ensures forall x :: x in states ==> WeightedChildInRange(x, depth, maxDepth, maximizing)
    decreases depth, 0
  {
    forall x | x in states
      ensures WeightedChildInRange(x, depth, maxDepth, maximizing)
    {
      ExpectimaxInRange(x.gameState, depth - 1, maxDepth, maximizing);
      WeightedDoubleInRange(Expectimax(x.gameState, depth - 1, maxDepth, maximizing).result.score, x.probability);
    }
  }

  /** A child's weighted score is NaN or within [MIN_COST, MAX_COST]. */
  predicate WeightedChildInRange(s: State, depth: nat, maxDepth: nat, maximizing: bool)
    requires depth > 0
  {
    NaNOrWithin(Mul(Expectimax(s.gameState, depth - 1, maxDepth, maximizing).result.score, s.probability), MIN_COST, MAX_COST)
  }

  /** Weighting by a probability keeps a score NaN or in range. */
  lemma WeightedDoubleInRange(score: Double, p: real)
    requires NaNOrWithin(score, MIN_COST, MAX_COST) && 0.0 <= p <= 1.0
    ensures NaNOrWithin(Mul(score, p), MIN_COST, MAX_COST)
  {
    if score.Finite? {
      WeightedInRange(score.r, p);
    }
  }

  lemma MaxNodeInRange(moves: seq<Move>, depth: nat, maxDepth: nat)
    requires depth > 0 && PossibleStates(moves).Success?
    requires forall x :: x in PossibleStates(moves).value ==> WeightedChildInRange(x, depth, maxDepth, true)
    ensures InRange(MaxNode(moves, depth, maxDepth).result.score)
  {
    FoldMaxInRange(PossibleStates(moves).value, depth, maxDepth, Searched(InitialMax, 0));
  }

  lemma ExpectNodeInRange(moves: seq<Move>, depth: nat, maxDepth: nat)
    requires depth > 0 && PossibleStates(moves).Success?
    requires forall x :: x in PossibleStates(moves).value ==> WeightedChildInRange(x, depth, maxDepth, false)
    ensures NaNOrWithin(ExpectNode(moves, depth, maxDepth).result.score, MIN_COST, MAX_COST)
  {
    var states := PossibleStates(moves).value;
    FoldExpectInRange(states, depth, maxDepth, Sum(Finite(0.0), 0), 0);
    var sum := FoldExpect(states, depth, maxDepth, Sum(Finite(0.0), 0));
    if |states| > 0 && sum.total.Finite? {
      MeanInRange(sum.total.r, |states|);
    }
  }

  /** A max node's score is always a finite value in range: a NaN child never beats the best. */
  lemma {:induction false} FoldMaxInRange(states: seq<State>, depth: nat, maxDepth: nat, acc: Searched)
    requires depth > 0 && InRange(acc.result.score)
    requires forall x :: x in states ==> WeightedChildInRange(x, depth, maxDepth, true)
    ensures InRange(FoldMax(states, depth, maxDepth, acc).result.score)
    decreases |states|
  {
    if states != [] {
      var s := states[0];
      assert WeightedChildInRange(s, depth, maxDepth, true);
      assert forall x :: x in states[1..] ==> x in states;
      FoldMaxInRange(states[1..], depth, maxDepth, MaxStep(s, depth, maxDepth, acc));
    }
  }

  /** After `k` further children the running sum is NaN or within k * [MIN_COST, MAX_COST] more. */
  lemma {:induction false} FoldExpectInRange(states: seq<State>, depth: nat, maxDepth: nat, acc: Sum, k: nat)
    requires depth > 0 && NaNOrWithin(acc.total, k as real * MIN_COST, k as real * MAX_COST)
    requires forall x :: x in states ==> WeightedChildInRange(x, depth, maxDepth, false)
    ensures NaNOrWithin(FoldExpect(states, depth, maxDepth, acc).total,
      (k + |states|) as real * MIN_COST, (k + |states|) as real * MAX_COST)
    decreases |states|
  {
    if states != [] {
      var s := states[0];
      assert WeightedChildInRange(s, depth, maxDepth, false);
      var w := Mul(Expectimax(s.gameState, depth - 1, maxDepth, false).result.score, s.probability);
      var next := ExpectStep(s, depth, maxDepth, acc);
      assert next.total == Add(acc.total, w);
      SumStepInRange(acc.total, w, k);
      assert forall x :: x in states[1..] ==> x in states;
      FoldExpectInRange(states[1..], depth, maxDepth, next, k + 1);
    }
  }

  /** Adding one weighted child in range widens the running sum's interval by one range. */
  lemma SumStepInRange(total: Double, w: Double, k: nat)
    requires NaNOrWithin(total, k as real * MIN_COST, k as real * MAX_COST) && NaNOrWithin(w, MIN_COST, MAX_COST)
    ensures NaNOrWithin(Add(total, w), (k + 1) as real * MIN_COST, (k + 1) as real * MAX_COST)
  {
  }

  /** A sum of `k` values in range, divided by `k`, is in range. */
  lemma MeanInRange(t: real, k: nat)
    requires k > 0 && k as real * MIN_COST <= t <= k as real * MAX_COST
    ensures MIN_COST <= t / k as real <= MAX_COST
  {
    var q := t / k as real;
    assert q * k as real == t;
  }

  /** Every collected child's score is finite, so the expectation is a real mean. */
  predicate ChildrenFinite(states: seq<State>, depth: nat, maxDepth: nat)
    requires depth > 0
  {
    forall i :: 0 <= i < |states| ==> Expectimax(states[i].gameState, depth - 1, maxDepth, false).result.score.Finite?
  }

  /** Σ score · probability over the children, on reals. */
  function WeightedSum(states: seq<State>, depth: nat, maxDepth: nat): real
    requires depth > 0 && ChildrenFinite(states, depth, maxDepth)
  {
    if states == [] then 0.0
    else
      assert Expectimax(states[0].gameState, depth - 1, maxDepth, false).result.score.Finite?;
      Expectimax(states[0].gameState, depth - 1, maxDepth, false).result.score.r * states[0].probability
        + WeightedSum(states[1..], depth, maxDepth)
  }

  lemma {:induction false} FoldExpectIsSum(states: seq<State>, depth: nat, maxDepth: nat, t: real, nodes: nat)
    requires depth > 0 && ChildrenFinite(states, depth, maxDepth)
    ensures FoldExpect(states, depth, maxDepth, Sum(Finite(t), nodes)).total == Finite(t + WeightedSum(states, depth, maxDepth))
    decreases |states|
  {
    if states != [] {
      var s := states[0];
      var next := ExpectStep(s, depth, maxDepth, Sum(Finite(t), nodes));
      assert Expectimax(s.gameState, depth - 1, maxDepth, false).result.score.Finite?;
      assert ChildrenFinite(states[1..], depth, maxDepth) by {
        forall i | 0 <= i < |states[1..]|
          ensures Expectimax(states[1..][i].gameState, depth - 1, maxDepth, false).result.score.Finite?
        {
          assert states[1..][i] == states[i + 1];
        }
      }
      FoldExpectIsSum(states[1..], depth, maxDepth, next.total.r, next.nodes);
    }
  }

  /**
   * An expectation node over collected states whose scores are finite has no event and the
   * score Σ score · probability / (number of states); over no states it is NaN.
   */
  lemma ExpectIsMean(moves: seq<Move>, depth: nat, maxDepth: nat)
    requires depth > 0 && PossibleStates(moves).Success?
    requires ChildrenFinite(PossibleStates(moves).value, depth, maxDepth)
    ensures var states := PossibleStates(moves).value;
      ExpectNode(moves, depth, maxDepth).result ==
        if states == [] then Scored(None, NaN)
        else Scored(None, Finite(WeightedSum(states, depth, maxDepth) / |states| as real))
  {
    FoldExpectIsSum(PossibleStates(moves).value, depth, maxDepth, 0.0, 0);
  }

  /**
   * A root whose only move leads to a position where neither side can move: the chance node
   * there has no states, its NaN is never chosen, and the bot returns no move.
   */
  lemma DeadEndExpectationIsIgnored(e: MakeMoveEvent)
    ensures var n := Node(false, 0.0, [Move(e, Applied([StateChance(Node(false, 0.0, [], []), 1.0)]))], []);
      Expectimax(n, 2, 2, true) == Searched(InitialMax, 2) &&
      Expectimax(Node(false, 0.0, [], []), 1, 2, true) == Searched(Scored(None, NaN), 1)
  {
    var dead := Node(false, 0.0, [], []);
    var m := Move(e, Applied([StateChance(dead, 1.0)]));
    SingleMoveKept(m);
    assert [StateChance(dead, 1.0)][1..] == [];
    assert [StateChance(dead, 1.0)][..0] == [];
    assert [m][..0] == [];
    assert KeptOptions([StateChance(dead, 1.0)], e) == [State(dead, 1.0, e)];
    assert PossibleStates([m]) == Success([State(dead, 1.0, e)]);
    assert WithoutUnnecessary([]) == [];
    assert Expectimax(dead, 1, 2, true) == Searched(Scored(None, NaN), 1);
    assert [State(dead, 1.0, e)][1..] == [];
  }

  class ExpectimaxBot {
    const maxDepth: nat
    const treeAnalyzer: Instrumentation.TreeAnalyzer

    constructor (maxDepth: nat)
      ensures this.maxDepth == maxDepth && fresh(treeAnalyzer)
      ensures treeAnalyzer.nodesCount == 0 && treeAnalyzer.moveStartTime == 0 && treeAnalyzer.moveEndTime == 0
    {
      this.maxDepth := maxDepth;
      treeAnalyzer := new Instrumentation.TreeAnalyzer();
    }

    /** `generateMakeMoveEvent`: the root is a max node. */
    method GenerateMakeMoveEvent(gameState: Node, startTime: int, endTime: int) returns (event: Option<MakeMoveEvent>)
      modifies treeAnalyzer
      ensures event == Expectimax(gameState, maxDepth, maxDepth, true).result.event
      ensures treeAnalyzer.nodesCount == old(treeAnalyzer.nodesCount) + Expectimax(gameState, maxDepth, maxDepth, true).nodes
      ensures treeAnalyzer.moveStartTime == startTime && treeAnalyzer.moveEndTime == endTime
    {
      treeAnalyzer.StartMoveStopWatch(startTime);
      var result := ExpectimaxSearch(gameState, maxDepth, true);
      treeAnalyzer.EndMoveStopWatch(endTime);
      event := result.event;
    }

    /** `expectimax`. */
    method ExpectimaxSearch(gameState: Node, depth: nat, maximizing: bool) returns (r: Scored)
      modifies treeAnalyzer`nodesCount
      ensures r == Expectimax(gameState, depth, maxDepth, maximizing).result
      ensures treeAnalyzer.nodesCount == old(treeAnalyzer.nodesCount) + Expectimax(gameState, depth, maxDepth, maximizing).nodes
      decreases depth, 3, 0
    {
      treeAnalyzer.IncrementNodesCount();
      if depth == 0 || gameState.ended {
        return Scored(None, Finite(gameState.value));
      }
      var possibleMoves := gameState.moves;
      var role := maximizing;
      if |possibleMoves| == 0 {
        if depth == maxDepth {
          return Scored(None, Finite(if maximizing then MIN_COST else 0.0));
        }
        possibleMoves := gameState.passMoves;
        role := !maximizing;
      }
      possibleMoves := RemoveUnnecessaryMoves(possibleMoves);
      if role {
        r := Maximize(possibleMoves, depth);
      } else {
        r := Expect(possibleMoves, depth);
      }
    }

    /** `maximize`. */
    method Maximize(possibleMoves: seq<Move>, depth: nat) returns (bestResult: Scored)
      requires depth > 0
      modifies treeAnalyzer`nodesCount
      ensures bestResult == MaxNode(possibleMoves, depth, maxDepth).result
      ensures treeAnalyzer.nodesCount == old(treeAnalyzer.nodesCount) + MaxNode(possibleMoves, depth, maxDepth).nodes
      decreases depth, 2, 0
    {
      bestResult := InitialMax;
      var collected := CollectPossibleStates(possibleMoves);
      if collected.Failure? {
        return;
      }
      var possibleStates := collected.value;
      ghost var start := treeAnalyzer.nodesCount;
      for i := 0 to |possibleStates|
        invariant treeAnalyzer.nodesCount >= start
        invariant FoldMax(possibleStates[i..], depth, maxDepth, Searched(bestResult, treeAnalyzer.nodesCount - start)) ==
          FoldMax(possibleStates, depth, maxDepth, Searched(InitialMax, 0))
      {
        var possibleState := possibleStates[i];
        ghost var acc := Searched(bestResult, treeAnalyzer.nodesCount - start);
        FoldMaxUnfold(possibleStates, i, depth, maxDepth, acc);
        ghost var child := Expectimax(possibleState.gameState, depth - 1, maxDepth, true);
        ghost var before := treeAnalyzer.nodesCount;
        var result := ExpectimaxSearch(possibleState.gameState, depth - 1, true);
        assert result == child.result && treeAnalyzer.nodesCount == before + child.nodes;
        var score := Mul(result.score, possibleState.probability);
        if Gt(score, bestResult.score) {
          bestResult := Scored(Some(possibleState.lastMove), score);
        }
        assert Searched(bestResult, treeAnalyzer.nodesCount - start) == MaxStep(possibleState, depth, maxDepth, acc);
      }
    }

    /** `expect`. */
    method Expect(possibleMoves: seq<Move>, depth: nat) returns (bestResult: Scored)
      requires depth > 0
      modifies treeAnalyzer`nodesCount
      ensures bestResult == ExpectNode(possibleMoves, depth, maxDepth).result
      ensures treeAnalyzer.nodesCount == old(treeAnalyzer.nodesCount) + ExpectNode(possibleMoves, depth, maxDepth).nodes
      decreases depth, 2, 0
    {
      var expectedValue := Finite(0.0);
      bestResult := InitialExpect;
      var collected := CollectPossibleStates(possibleMoves);
      if collected.Failure? {
        return;
      }
      var possibleStates := collected.value;
      ghost var start := treeAnalyzer.nodesCount;
      for i := 0 to |possibleStates|
        invariant treeAnalyzer.nodesCount >= start
        invariant FoldExpect(possibleStates[i..], depth, maxDepth, Sum(expectedValue, treeAnalyzer.nodesCount - start)) ==
          FoldExpect(possibleStates, depth, maxDepth, Sum(Finite(0.0), 0))
      {
        var state := possibleStates[i];
        ghost var acc := Sum(expectedValue, treeAnalyzer.nodesCount - start);
        FoldExpectUnfold(possibleStates, i, depth, maxDepth, acc);
        ghost var child := Expectimax(state.gameState, depth - 1, maxDepth, false);
        ghost var before := treeAnalyzer.nodesCount;
        var result := ExpectimaxSearch(state.gameState, depth - 1, false);
        assert result == child.result && treeAnalyzer.nodesCount == before + child.nodes;
        expectedValue := Add(expectedValue, Mul(result.score, state.probability));
        assert expectedValue == ExpectStep(state, depth, maxDepth, acc).total;
        assert Sum(expectedValue, treeAnalyzer.nodesCount - start) == ExpectStep(state, depth, maxDepth, acc);
      }
      expectedValue := DivCount(expectedValue, |possibleStates|);
      bestResult := Scored(None, expectedValue);
    }
  }
}
