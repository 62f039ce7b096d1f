/**
 * movement_stage/MinimaxMovementBot: minimax whose maximize/minimize loops walk the moves and
 * each move's outcomes directly, skipping outcomes below BAD_BRANCH_PROBABILITY. A
 * `GameException` part-way through leaves the loops with the best found so far.
 */
module MinimaxMovementBot {
  import opened Wrappers
  import opened Game
  import opened Search
  import opened MovementBotUtil
  import Instrumentation
  import MinimaxBot

  /** `minimax(gameState, depth, maximizing)`: the result and the number of calls it makes. */
  function Minimax(n: Node, depth: nat, maxDepth: nat, maximizing: bool): Explored
    decreases depth, 3, 0
  {
    if depth == 0 || n.ended then Explored(EventScore(None, n.value), 1)
    else if n.moves == [] && depth == maxDepth then Explored(Initial(maximizing), 1)
    else
      var role := ExpandedRole(n, maximizing);
      var e := FoldMoves(WithoutUnnecessary(ExpandedMoves(n)), depth, maxDepth, role, Explored(Initial(role), 0));
      Explored(e.result, e.nodes + 1)
  }

  /** The outer loop over the moves; a rejected move ends both loops. */
  function FoldMoves(moves: seq<Move>, depth: nat, maxDepth: nat, maximizing: bool, acc: Explored): Explored
    requires depth > 0
    decreases depth, 2, |moves|
  {
    if moves == [] then acc
    else match moves[0].outcomes
      case Rejected => acc
      case Applied(options) =>
        FoldMoves(moves[1..], depth, maxDepth, maximizing, FoldOutcomes(options, moves[0].event, depth, maxDepth, maximizing, acc))
  }

  /** The inner loop over one move's outcomes, skipping those below BAD_BRANCH_PROBABILITY. */
  function FoldOutcomes(options: seq<StateChance>, event: MakeMoveEvent, depth: nat, maxDepth: nat, maximizing: bool, acc: Explored): Explored
    requires depth > 0
    decreases depth, 1, |options|
  {
    if options == [] then acc
    else if options[0].chance < BAD_BRANCH_PROBABILITY then FoldOutcomes(options[1..], event, depth, maxDepth, maximizing, acc)
    else FoldOutcomes(options[1..], event, depth, maxDepth, maximizing, Step(State(options[0].state, options[0].chance, event), depth, maxDepth, maximizing, acc))
  }

  /** One explored outcome: search it, weight its score, keep it if strictly better. */
  function Step(s: State, depth: nat, maxDepth: nat, maximizing: bool, acc: Explored): Explored
    requires depth > 0
    decreases depth, 0, 1
  {
    var w := Weighted(s, depth, maxDepth, maximizing);
    Explored(if Better(w, acc.result.score, maximizing) then EventScore(Some(s.lastMove), w) else acc.result,
      acc.nodes + Minimax(s.gameState, depth - 1, maxDepth, maximizing).nodes)
  }

  function Weighted(s: State, depth: nat, maxDepth: nat, maximizing: bool): real
    requires depth > 0
    decreases depth, 0, 0
  {
    Minimax(s.gameState, depth - 1, maxDepth, maximizing).result.score * s.probability
  }

  /** The outcomes the loops search, in order: those of chance at least BAD_BRANCH_PROBABILITY, up to the first rejected move. */
  function Reached(moves: seq<Move>): seq<State>
  {
    if moves == [] then []
    else match moves[0].outcomes
      case Rejected => []
      case Applied(options) => ReachedOptions(options, moves[0].event) + Reached(moves[1..])
  }

  function ReachedOptions(options: seq<StateChance>, event: MakeMoveEvent): seq<State>
  {
    if options == [] then []
    else
      var first := if options[0].chance < BAD_BRANCH_PROBABILITY then [] else [State(options[0].state, options[0].chance, event)];
      first + ReachedOptions(options[1..], event)
  }

  /** The searched outcomes one after another. */
  function FoldReached(rs: seq<State>, depth: nat, maxDepth: nat, maximizing: bool, acc: Explored): Explored
    requires depth > 0
    decreases |rs|
  {
    if rs == [] then acc else FoldReached(rs[1..], depth, maxDepth, maximizing, Step(rs[0], depth, maxDepth, maximizing, acc))
  }

  function Candidates(rs: seq<State>, depth: nat, maxDepth: nat, maximizing: bool): (cs: seq<Candidate>)
    requires depth > 0
    ensures |cs| == |rs|
    ensures forall i :: 0 <= i < |rs| ==> cs[i] == Candidate(rs[i].lastMove, Weighted(rs[i], depth, maxDepth, maximizing))
  {
    seq(|rs|, i requires 0 <= i < |rs| => Candidate(rs[i].lastMove, Weighted(rs[i], depth, maxDepth, maximizing)))
  }

  function ChildNodes(rs: seq<State>, depth: nat, maxDepth: nat, maximizing: bool): nat
    requires depth > 0
  {
    if rs == [] then 0
    else Minimax(rs[0].gameState, depth - 1, maxDepth, maximizing).nodes + ChildNodes(rs[1..], depth, maxDepth, maximizing)
  }

  lemma FoldMovesUnfold(moves: seq<Move>, i: nat, depth: nat, maxDepth: nat, maximizing: bool, acc: Explored)
    requires depth > 0 && i < |moves|
    ensures FoldMoves(moves[i..], depth, maxDepth, maximizing, acc) ==
      match moves[i].outcomes
      case Rejected => acc
      case Applied(options) =>
        FoldMoves(moves[i + 1..], depth, maxDepth, maximizing, FoldOutcomes(options, moves[i].event, depth, maxDepth, maximizing, acc))
  {
    assert moves[i..][0] == moves[i] && moves[i..][1..] == moves[i + 1..];
  }

  lemma FoldOutcomesUnfold(options: seq<StateChance>, j: nat, event: MakeMoveEvent, depth: nat, maxDepth: nat, maximizing: bool, acc: Explored)
    requires depth > 0 && j < |options|
    ensures FoldOutcomes(options[j..], event, depth, maxDepth, maximizing, acc) ==
      if options[j].chance < BAD_BRANCH_PROBABILITY then FoldOutcomes(options[j + 1..], event, depth, maxDepth, maximizing, acc)
      else FoldOutcomes(options[j + 1..], event, depth, maxDepth, maximizing, Step(State(options[j].state, options[j].chance, event), depth, maxDepth, maximizing, acc))
  {
    assert options[j..][0] == options[j] && options[j..][1..] == options[j + 1..];
  }

  lemma {:induction false} FoldReachedAppend(a: seq<State>, b: seq<State>, depth: nat, maxDepth: nat, maximizing: bool, acc: Explored)
    requires depth > 0
    ensures FoldReached(a + b, depth, maxDepth, maximizing, acc) ==
      FoldReached(b, depth, maxDepth, maximizing, FoldReached(a, depth, maxDepth, maximizing, acc))
    decreases |a|
  {
    if a == [] {
      assert a + b == b;
    } else {
      assert (a + b)[0] == a[0] && (a + b)[1..] == a[1..] + b;
      FoldReachedAppend(a[1..], b, depth, maxDepth, maximizing, Step(a[0], depth, maxDepth, maximizing, acc));
    }
  }

  lemma {:induction false} FoldOutcomesIsFoldReached(options: seq<StateChance>, event: MakeMoveEvent, depth: nat, maxDepth: nat, maximizing: bool, acc: Explored)
    requires depth > 0
    ensures FoldOutcomes(options, event, depth, maxDepth, maximizing, acc) ==
      FoldReached(ReachedOptions(options, event), depth, maxDepth, maximizing, acc)
    decreases |options|
  {
    if options != [] {
      var rest := ReachedOptions(options[1..], event);
      if options[0].chance < BAD_BRANCH_PROBABILITY {
        assert ReachedOptions(options, event) == [] + rest == rest;
        FoldOutcomesIsFoldReached(options[1..], event, depth, maxDepth, maximizing, acc);
      } else {
        var s := State(options[0].state, options[0].chance, event);
        assert ReachedOptions(options, event) == [s] + rest;
        assert ([s] + rest)[0] == s && ([s] + rest)[1..] == rest;
        FoldOutcomesIsFoldReached(options[1..], event, depth, maxDepth, maximizing, Step(s, depth, maxDepth, maximizing, acc));
      }
    }
  }

  /** The nested loops search exactly the reached outcomes, in order. */
  lemma {:induction false} FoldMovesIsFoldReached(moves: seq<Move>, depth: nat, maxDepth: nat, maximizing: bool, acc: Explored)
    requires depth > 0
    ensures FoldMoves(moves, depth, maxDepth, maximizing, acc) == FoldReached(Reached(moves), depth, maxDepth, maximizing, acc)
    decreases |moves|
  {
    if moves != [] && moves[0].outcomes.Applied? {
      var options := moves[0].outcomes.options;
      var inner := FoldOutcomes(options, moves[0].event, depth, maxDepth, maximizing, acc);
      FoldOutcomesIsFoldReached(options, moves[0].event, depth, maxDepth, maximizing, acc);
      FoldMovesIsFoldReached(moves[1..], depth, maxDepth, maximizing, inner);
      FoldReachedAppend(ReachedOptions(options, moves[0].event), Reached(moves[1..]), depth, maxDepth, maximizing, acc);
    }
  }

  lemma {:induction false} FoldReachedIsFoldBest(rs: seq<State>, depth: nat, maxDepth: nat, maximizing: bool, acc: Explored)
    requires depth > 0
    ensures FoldReached(rs, depth, maxDepth, maximizing, acc).result ==
      FoldBest(Candidates(rs, depth, maxDepth, maximizing), maximizing, acc.result)
    ensures FoldReached(rs, depth, maxDepth, maximizing, acc).nodes == acc.nodes + ChildNodes(rs, depth, maxDepth, maximizing)
    decreases |rs|
  {
    if rs != [] {
      var next := Step(rs[0], depth, maxDepth, maximizing, acc);
      FoldReachedIsFoldBest(rs[1..], depth, maxDepth, maximizing, next);
      var cs := Candidates(rs, depth, maxDepth, maximizing);
      var tail := Candidates(rs[1..], depth, maxDepth, maximizing);
      forall i | 0 <= i < |tail|
        ensures tail[i] == cs[i + 1]
      {
        assert rs[1..][i] == rs[i + 1];
      }
      assert tail == cs[1..];
      assert next.result == if Better(cs[0].score, acc.result.score, maximizing) then EventScore(Some(cs[0].event), cs[0].score) else acc.result;
      assert FoldBest(cs, maximizing, acc.result) == FoldBest(tail, maximizing, next.result);
    }
  }

  /**
   * A node's choice: the first reached outcome whose weighted score is strictly best, or the initial
   * (null, MIN_COST) / (null, MAX_COST) when no reached outcome beats it; the count is the children's counts.
   */
  lemma ExpandChoosesFirstBest(moves: seq<Move>, depth: nat, maxDepth: nat, maximizing: bool)
    requires depth > 0
    ensures FoldMoves(moves, depth, maxDepth, maximizing, Explored(Initial(maximizing), 0)).result ==
      FoldBest(Candidates(Reached(moves), depth, maxDepth, maximizing), maximizing, Initial(maximizing))
    ensures FoldMoves(moves, depth, maxDepth, maximizing, Explored(Initial(maximizing), 0)).nodes ==
      ChildNodes(Reached(moves), depth, maxDepth, maximizing)
  {
    FoldMovesIsFoldReached(moves, depth, maxDepth, maximizing, Explored(Initial(maximizing), 0));
    FoldReachedIsFoldBest(Reached(moves), depth, maxDepth, maximizing, Explored(Initial(maximizing), 0));
  }

  /** Every reached outcome is an outcome of chance at least BAD_BRANCH_PROBABILITY of an applied move, under that move. */
  lemma {:induction false} ReachedSound(moves: seq<Move>)
    ensures forall x :: x in Reached(moves) ==>
      x.probability >= BAD_BRANCH_PROBABILITY &&
      exists m :: m in moves && m.event == x.lastMove && m.outcomes.Applied? &&
        StateChance(x.gameState, x.probability) in m.outcomes.options
    decreases |moves|
  {
    if moves != [] && moves[0].outcomes.Applied? {
      ReachedSound(moves[1..]);
      ReachedOptionsSound(moves[0].outcomes.options, moves[0].event);
      forall x | x in Reached(moves)
        ensures x.probability >= BAD_BRANCH_PROBABILITY &&
          exists m :: m in moves && m.event == x.lastMove && m.outcomes.Applied? &&
            StateChance(x.gameState, x.probability) in m.outcomes.options
      {
        if x in Reached(moves[1..]) {
          var m :| m in moves[1..] && m.event == x.lastMove && m.outcomes.Applied? &&
            StateChance(x.gameState, x.probability) in m.outcomes.options;
          assert m in moves;
        } else {
          assert moves[0] in moves;
        }
      }
    }
  }

  lemma {:induction false} ReachedOptionsSound(options: seq<StateChance>, event: MakeMoveEvent)
    ensures forall x :: x in ReachedOptions(options, event) ==>
      x.probability >= BAD_BRANCH_PROBABILITY && x.lastMove == event && StateChance(x.gameState, x.probability) in options
    decreases |options|
  {
    if options != [] {
      ReachedOptionsSound(options[1..], event);
    }
  }

  /** When no move is rejected, every outcome of chance at least BAD_BRANCH_PROBABILITY is searched. */
  lemma {:induction false} ReachedComplete(moves: seq<Move>)
    requires forall m :: m in moves ==> m.outcomes.Applied?
    ensures forall m, o :: m in moves && o in m.outcomes.options && o.chance >= BAD_BRANCH_PROBABILITY ==>
      State(o.state, o.chance, m.event) in Reached(moves)
    decreases |moves|
  {
    if moves != [] {
      ReachedComplete(moves[1..]);
      ReachedOptionsComplete(moves[0].outcomes.options, moves[0].event);
      forall m, o | m in moves && o in m.outcomes.options && o.chance >= BAD_BRANCH_PROBABILITY
        ensures State(o.state, o.chance, m.event) in Reached(moves)
      {
        if m != moves[0] {
          assert m in moves[1..];
        }
      }
    }
  }

  lemma {:induction false} ReachedOptionsComplete(options: seq<StateChance>, event: MakeMoveEvent)
    ensures forall o :: o in options && o.chance >= BAD_BRANCH_PROBABILITY ==> State(o.state, o.chance, event) in ReachedOptions(options, event)
    decreases |options|
  {
    if options != [] {
      ReachedOptionsComplete(options[1..], event);
      forall o | o in options && o.chance >= BAD_BRANCH_PROBABILITY
        ensures State(o.state, o.chance, event) in ReachedOptions(options, event)
      {
        if o != options[0] {
          assert o in options[1..];
        }
      }
    }
  }

  /** Nothing from a rejected move on is searched. */
  lemma {:induction false} RejectedCutsOff(moves: seq<Move>, k: nat)
    requires k < |moves| && moves[k].outcomes.Rejected?
    ensures Reached(moves) == Reached(moves[..k])
    decreases k
  {
    if k > 0 {
      assert moves[..k][0] == moves[0] && moves[..k][1..] == moves[1..][..k - 1];
      if moves[0].outcomes.Applied? {
        RejectedCutsOff(moves[1..], k - 1);
      }
    }
  }

  /** The outcomes searched below a bounded node are bounded and have chances in [0, 1]. */
  lemma ReachedBounded(n: Node, moves: seq<Move>)
    requires Bounded(n) && (moves == n.moves || moves == n.passMoves)
    ensures forall x :: x in Reached(WithoutUnnecessary(moves)) ==> 0.0 <= x.probability <= 1.0 && Bounded(x.gameState)
  {
    var kept := WithoutUnnecessary(moves);
    WithoutUnnecessaryProperties(moves);
    SubsequenceMembers(kept, moves);
    ReachedSound(kept);
    BoundedMembers(n, moves);
  }

  /** With in-range evaluations and chances, every result lies in [MIN_COST, MAX_COST]. */
  lemma {:induction false} MinimaxInRange(n: Node, depth: nat, maxDepth: nat, maximizing: bool)
    requires Bounded(n)
    ensures MIN_COST <= Minimax(n, depth, maxDepth, maximizing).result.score <= MAX_COST
    decreases depth, 2
  {
    if !(depth == 0 || n.ended) && !(n.moves == [] && depth == maxDepth) {
      var moves := WithoutUnnecessary(ExpandedMoves(n));
      var role := ExpandedRole(n, maximizing);
      ExpandChoosesFirstBest(moves, depth, maxDepth, role);
      ReachedBounded(n, ExpandedMoves(n));
      CandidatesInRange(Reached(moves), depth, maxDepth, role);
      FoldBestInRange(Candidates(Reached(moves), depth, maxDepth, role), role, Initial(role), MIN_COST, MAX_COST);
    }
  }

  lemma {:induction false} CandidatesInRange(rs: seq<State>, depth: nat, maxDepth: nat, maximizing: bool)
    requires depth > 0
    requires forall x :: x in rs ==> 0.0 <= x.probability <= 1.0 && Bounded(x.gameState)
    ensures forall i :: 0 <= i < |rs| ==> MIN_COST <= Candidates(rs, depth, maxDepth, maximizing)[i].score <= MAX_COST
    decreases depth, 1
  {
    forall i | 0 <= i < |rs|
      ensures MIN_COST <= Weighted(rs[i], depth, maxDepth, maximizing) <= MAX_COST
    {
      assert rs[i] in rs;
      MinimaxInRange(rs[i].gameState, depth - 1, maxDepth, maximizing);
      WeightedInRange(Minimax(rs[i].gameState, depth - 1, maxDepth, maximizing).result.score, rs[i].probability);
    }
  }

  /**
   * Unlike movement_stage/MinimaxBot, which keeps only outcomes of chance strictly above
   * BAD_BRANCH_PROBABILITY, an outcome of chance exactly 0.1 is searched here.
   */
  lemma ThresholdOutcomeIsSearched(e: MakeMoveEvent)
    ensures var n := Node(false, 0.0, [Move(e, Applied([StateChance(Node(true, 500.0, [], []), 0.1)]))], []);
      Minimax(n, 1, 1, true) == Explored(EventScore(Some(e), 50.0), 2) &&
      MinimaxBot.Minimax(n, 1, 1, true) == Explored(EventScore(None, MIN_COST), 1)
  {
    var leaf := Node(true, 500.0, [], []);
    var m := Move(e, Applied([StateChance(leaf, 0.1)]));
    SingleMoveKept(m);
    assert [StateChance(leaf, 0.1)][1..] == [];
    assert [StateChance(leaf, 0.1)][..0] == [];
    assert [m][1..] == [] && [m][..0] == [];
    assert KeptOptions([StateChance(leaf, 0.1)], e) == [];
    assert PossibleStates([m]) == Success([]);
  }

  /**
   * Unlike movement_stage/MinimaxBot, where a rejected move discards the whole node, a move
   * rejected after another was searched keeps the best found so far.
   */
  lemma RejectionKeepsPartialBest(first: Unit, e2: MakeMoveEvent)
    requires first.unitType == Knight && e2.attacker.unitType == Knight && e2.to != Position(1, 1)
    ensures var e1 := MakeMoveEvent(Position(0, 0), Position(1, 1), first);
      var n := Node(false, 0.0, [Move(e1, Applied([StateChance(Node(true, 500.0, [], []), 1.0)])), Move(e2, Rejected)], []);
      Minimax(n, 1, 1, true) == Explored(EventScore(Some(e1), 500.0), 2) &&
      MinimaxBot.Minimax(n, 1, 1, true) == Explored(EventScore(None, MIN_COST), 1)
  {
    var e1 := MakeMoveEvent(Position(0, 0), Position(1, 1), first);
    var a := Move(e1, Applied([StateChance(Node(true, 500.0, [], []), 1.0)]));
    var b := Move(e2, Rejected);
    PairUnfold(a, b, Archer);
    PairUnfold(a, b, Knight);
    PairUnfold(a, b, Healer);
    assert WithoutUnnecessary([a, b]) == [a, b];
    PartialBestFolded(a, b);
    RejectedPairDiscarded(a, b);
  }

  /** Here: the applied move's one outcome is searched, then the rejected move ends the loop. */
  lemma PartialBestFolded(a: Move, b: Move)
    requires a.outcomes == Applied([StateChance(Node(true, 500.0, [], []), 1.0)]) && b.outcomes.Rejected?
    ensures FoldMoves([a, b], 1, 1, true, Explored(Initial(true), 0)) == Explored(EventScore(Some(a.event), 500.0), 1)
  {
    var options := [StateChance(Node(true, 500.0, [], []), 1.0)];
    assert options[1..] == [];
    assert [a, b][1..] == [b];
    assert FoldOutcomes(options, a.event, 1, 1, true, Explored(Initial(true), 0)) == Explored(EventScore(Some(a.event), 500.0), 1);
  }

  /** In movement_stage/MinimaxBot the rejected move discards the collected states. */
  lemma RejectedPairDiscarded(a: Move, b: Move)
    requires a.outcomes.Applied? && b.outcomes.Rejected?
    ensures MinimaxBot.Expand([a, b], 1, 1, true) == Explored(Initial(true), 0)
  {
    assert [a, b][1..] == [b] && [a, b][..1] == [a] && [a][..0] == [];
  }

  class MinimaxMovementBot {
    const maxDepth: nat
    const treeAnalyzer: Instrumentation.TreeAnalyzer

    constructor (maxDepth: nat)
      ensures this.maxDepth == maxDepth && fresh(treeAnalyzer)
      ensures treeAnalyzer.nodesCount == 0 && treeAnalyzer.moveStartTime == 0 && treeAnalyzer.moveEndTime == 0
    {
      this.maxDepth := maxDepth;
      treeAnalyzer := new Instrumentation.TreeAnalyzer();
    }

    /** `generateMakeMoveEvent`: search the root as the maximizing player between two clock readings. */
    method GenerateMakeMoveEvent(gameState: Node, startTime: int, endTime: int) returns (event: Option<MakeMoveEvent>)
      modifies treeAnalyzer
      ensures event == Minimax(gameState, maxDepth, maxDepth, true).result.event
      ensures treeAnalyzer.nodesCount == old(treeAnalyzer.nodesCount) + Minimax(gameState, maxDepth, maxDepth, true).nodes
      ensures treeAnalyzer.moveStartTime == startTime && treeAnalyzer.moveEndTime == endTime
    {
      treeAnalyzer.StartMoveStopWatch(startTime);
      var result := MinimaxSearch(gameState, maxDepth, true);
      treeAnalyzer.EndMoveStopWatch(endTime);
      event := result.event;
    }

    /** `minimax`. */
    method MinimaxSearch(gameState: Node, depth: nat, maximizing: bool) returns (r: EventScore)
      modifies treeAnalyzer`nodesCount
      ensures r == Minimax(gameState, depth, maxDepth, maximizing).result
      ensures treeAnalyzer.nodesCount == old(treeAnalyzer.nodesCount) + Minimax(gameState, depth, maxDepth, maximizing).nodes
      decreases depth, 3, 0
    {
      treeAnalyzer.IncrementNodesCount();
      if depth == 0 || gameState.ended {
        return EventScore(None, gameState.value);
      }
      var possibleMoves := gameState.moves;
      var role := maximizing;
      if |possibleMoves| == 0 {
        if depth == maxDepth {
          return EventScore(None, if maximizing then MIN_COST else MAX_COST);
        }
        possibleMoves := gameState.passMoves;
        role := !maximizing;
      }
      possibleMoves := RemoveUnnecessaryMoves(possibleMoves);
      if role {
        r := Maximize(possibleMoves, depth);
      } else {
        r := Minimize(possibleMoves, depth);
      }
    }

    /** `maximize`. */
    method Maximize(possibleMoves: seq<Move>, depth: nat) returns (bestResult: EventScore)
      requires depth > 0
      modifies treeAnalyzer`nodesCount
      ensures bestResult == FoldMoves(possibleMoves, depth, maxDepth, true, Explored(Initial(true), 0)).result
      ensures treeAnalyzer.nodesCount == old(treeAnalyzer.nodesCount) + FoldMoves(possibleMoves, depth, maxDepth, true, Explored(Initial(true), 0)).nodes
      decreases depth, 2, 1
    {
      bestResult := EventScore(None, MIN_COST);
      ghost var start := treeAnalyzer.nodesCount;
      for i := 0 to |possibleMoves|
        invariant treeAnalyzer.nodesCount >= start
        invariant FoldMoves(possibleMoves[i..], depth, maxDepth, true, Explored(bestResult, treeAnalyzer.nodesCount - start)) ==
          FoldMoves(possibleMoves, depth, maxDepth, true, Explored(Initial(true), 0))
      {
        var move := possibleMoves[i];
        FoldMovesUnfold(possibleMoves, i, depth, maxDepth, true, Explored(bestResult, treeAnalyzer.nodesCount - start));
        if move.outcomes.Rejected? {
          return;
        }
        bestResult := ExploreOutcomes(move.outcomes.options, move.event, depth, true, bestResult, treeAnalyzer.nodesCount - start);
      }
    }

    /** `minimize`. */
    method Minimize(possibleMoves: seq<Move>, depth: nat) returns (bestResult: EventScore)
      requires depth > 0
      modifies treeAnalyzer`nodesCount
      ensures bestResult == FoldMoves(possibleMoves, depth, maxDepth, false, Explored(Initial(false), 0)).result
      ensures treeAnalyzer.nodesCount == old(treeAnalyzer.nodesCount) + FoldMoves(possibleMoves, depth, maxDepth, false, Explored(Initial(false), 0)).nodes
      decreases depth, 2, 1
    {
      bestResult := EventScore(None, MAX_COST);
      ghost var start := treeAnalyzer.nodesCount;
      for i := 0 to |possibleMoves|
        invariant treeAnalyzer.nodesCount >= start
        invariant FoldMoves(possibleMoves[i..], depth, maxDepth, false, Explored(bestResult, treeAnalyzer.nodesCount - start)) ==
          FoldMoves(possibleMoves, depth, maxDepth, false, Explored(Initial(false), 0))
      {
        var move := possibleMoves[i];
        FoldMovesUnfold(possibleMoves, i, depth, maxDepth, false, Explored(bestResult, treeAnalyzer.nodesCount - start));
        if move.outcomes.Rejected? {
          return;
        }
        bestResult := ExploreOutcomes(move.outcomes.options, move.event, depth, false, bestResult, treeAnalyzer.nodesCount - start);
      }
    }

    /**
     * The inner loop of `maximize` (`>`) and `minimize` (`<`) over one move's outcomes; `nodes`
     * is the count the enclosing loop has already added.
     */
    method ExploreOutcomes(possibleStates: seq<StateChance>, move: MakeMoveEvent, depth: nat, maximizing: bool, best: EventScore, ghost nodes: nat)
      returns (bestResult: EventScore)
      requires depth > 0
      modifies treeAnalyzer`nodesCount
      ensures treeAnalyzer.nodesCount >= old(treeAnalyzer.nodesCount)
      ensures FoldOutcomes(possibleStates, move, depth, maxDepth, maximizing, Explored(best, nodes)) ==
        Explored(bestResult, nodes + treeAnalyzer.nodesCount - old(treeAnalyzer.nodesCount))
      decreases depth, 2, 0
    {
      bestResult := best;
      for j := 0 to |possibleStates|
        invariant treeAnalyzer.nodesCount >= old(treeAnalyzer.nodesCount)
        invariant FoldOutcomes(possibleStates[j..], move, depth, maxDepth, maximizing,
            Explored(bestResult, nodes + treeAnalyzer.nodesCount - old(treeAnalyzer.nodesCount))) ==
          FoldOutcomes(possibleStates, move, depth, maxDepth, maximizing, Explored(best, nodes))
      {
        var stateChance := possibleStates[j];
        ghost var acc := Explored(bestResult, nodes + treeAnalyzer.nodesCount - old(treeAnalyzer.nodesCount));
        FoldOutcomesUnfold(possibleStates, j, move, depth, maxDepth, maximizing, acc);
        if stateChance.chance < BAD_BRANCH_PROBABILITY {
          continue;
        }
        var result := MinimaxSearch(stateChance.state, depth - 1, maximizing);
        var score := result.score * stateChance.chance;
        if (maximizing && score > bestResult.score) || (!maximizing && score < bestResult.score) {
          bestResult := EventScore(Some(move), score);
        }
        assert Explored(bestResult, nodes + treeAnalyzer.nodesCount - old(treeAnalyzer.nodesCount)) ==
          Step(State(stateChance.state, stateChance.chance, move), depth, maxDepth, maximizing, acc);
      }
    }
  }
}
