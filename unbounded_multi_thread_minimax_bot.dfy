/**
 * minimax/MultiThreadMinimaxBot: each child task is forked and joined at once, so the search is
 * a sequential alpha-beta with the infinities as bounds: every outcome of every move in order (no
 * deduplication, no probability filter), the window tightened after each one and the rest of the
 * node skipped once beta <= alpha. A `GameException` ends the whole search (`Failure`).
 */
module UnboundedMultiThreadMinimaxBot {
  import opened Wrappers
  import opened Game
  import opened Search
  import opened Doubles
  import Instrumentation
  import ExpectimaxBot
  import Plain = UnboundedMinimaxBot

  type Scored = ExpectimaxBot.Scored

  /** `bestResult`, `alpha` and `beta` of a `maximize` / `minimize` loop. */
  datatype Window = Window(best: Scored, alpha: Double, beta: Double)

  /** A loop's final window (`Failure` when an exception propagates) and the calls it made. */
  datatype Pruned = Pruned(result: Result<Window>, nodes: nat)

  /** `beta <= alpha` on doubles: never true when either is NaN. */
  predicate Cutoff(w: Window) { Le(w.beta, w.alpha) }

  /** After one outcome: keep a strictly better score, then raise alpha (max) or lower beta (min). */
  function Tighten(w: Window, event: MakeMoveEvent, score: Double, maximizing: bool): Window
  {
    var best := Plain.Pick(w.best, event, score, maximizing);
    if maximizing then Window(best, MathMax(w.alpha, best.score), w.beta)
    else Window(best, w.alpha, MathMin(w.beta, best.score))
  }

  /** `MinimaxTask(gameState, depth, alpha, beta, maximizing).compute()`. */
  function Compute(n: Node, depth: nat, maxDepth: nat, alpha: Double, beta: Double, maximizing: bool): Plain.Outcome
    decreases depth, 3, 0
  {
    if depth == 0 || n.ended then Plain.Outcome(Success(ExpectimaxBot.Scored(None, Finite(n.value))), 1)
    else if n.moves == [] && depth == maxDepth then Plain.Outcome(Success(Plain.Start(maximizing)), 1)
    else
      var role := ExpandedRole(n, maximizing);
      var p := FoldMoves(ExpandedMoves(n), depth, maxDepth, role, Window(Plain.Start(role), alpha, beta), 0);
      Plain.Outcome(if p.result.Success? then Success(p.result.value.best) else Failure, p.nodes + 1)
  }

  /** The loop over the moves; a cutoff inside a move's outcomes also ends it. */
  function FoldMoves(moves: seq<Move>, depth: nat, maxDepth: nat, maximizing: bool, w: Window, nodes: nat): Pruned
    requires depth > 0
    decreases depth, 2, |moves|
  {
    if moves == [] then Pruned(Success(w), nodes)
    else match moves[0].outcomes
      case Rejected => Pruned(Failure, nodes)
      case Applied(options) =>
        var p := FoldOutcomes(options, moves[0].event, depth, maxDepth, maximizing, w, nodes);
        if p.result.Failure? || Cutoff(p.result.value) then p
        else FoldMoves(moves[1..], depth, maxDepth, maximizing, p.result.value, p.nodes)
  }

  /** The loop over one move's outcomes; each child task gets the current window and the same role. */
  function FoldOutcomes(options: seq<StateChance>, event: MakeMoveEvent, depth: nat, maxDepth: nat, maximizing: bool, w: Window, nodes: nat): Pruned
    requires depth > 0
    decreases depth, 1, |options|
  {
    if options == [] then Pruned(Success(w), nodes)
    else
      var child := Compute(options[0].state, depth - 1, maxDepth, w.alpha, w.beta, maximizing);
      if child.result.Failure? then Pruned(Failure, nodes + child.nodes)
      else
        var next := Tighten(w, event, Mul(child.result.value.score, options[0].chance), maximizing);
        if Cutoff(next) then Pruned(Success(next), nodes + child.nodes)
        else FoldOutcomes(options[1..], event, depth, maxDepth, maximizing, next, nodes + child.nodes)
  }

  lemma FoldMovesUnfold(moves: seq<Move>, i: nat, depth: nat, maxDepth: nat, maximizing: bool, w: Window, nodes: nat)
    requires depth > 0 && i < |moves|
    ensures FoldMoves(moves[i..], depth, maxDepth, maximizing, w, nodes) ==
      match moves[i].outcomes
      case Rejected => Pruned(Failure, nodes)
      case Applied(options) =>
        var p := FoldOutcomes(options, moves[i].event, depth, maxDepth, maximizing, w, nodes);
        if p.result.Failure? || Cutoff(p.result.value) then p
        else FoldMoves(moves[i + 1..], depth, maxDepth, maximizing, p.result.value, p.nodes)
  {
    assert moves[i..][0] == moves[i] && moves[i..][1..] == moves[i + 1..];
  }

  lemma FoldOutcomesUnfold(options: seq<StateChance>, j: nat, event: MakeMoveEvent, depth: nat, maxDepth: nat, maximizing: bool, w: Window, nodes: nat)
    requires depth > 0 && j < |options|
    ensures FoldOutcomes(options[j..], event, depth, maxDepth, maximizing, w, nodes) ==
      var child := Compute(options[j].state, depth - 1, maxDepth, w.alpha, w.beta, maximizing);
      if child.result.Failure? then Pruned(Failure, nodes + child.nodes)
      else
        var next := Tighten(w, event, Mul(child.result.value.score, options[j].chance), maximizing);
        if Cutoff(next) then Pruned(Success(next), nodes + child.nodes)
        else FoldOutcomes(options[j + 1..], event, depth, maxDepth, maximizing, next, nodes + child.nodes)
  {
    assert options[j..][0] == options[j] && options[j..][1..] == options[j + 1..];
  }

  // Pruning never costs calls

  /**
   * Whatever the window, the search makes at most one call per node of the tree, and it
   * succeeds when no move is rejected.
   */
  lemma {:induction false} ComputeCount(n: Node, depth: nat, maxDepth: nat, alpha: Double, beta: Double, maximizing: bool)
    ensures Compute(n, depth, maxDepth, alpha, beta, maximizing).nodes <= Plain.Size(n, depth, maxDepth)
    ensures Plain.Total(n) ==> Compute(n, depth, maxDepth, alpha, beta, maximizing).result.Success?
    decreases depth, 3, 0
  {
    if !(depth == 0 || n.ended) && !(n.moves == [] && depth == maxDepth) {
      var role := ExpandedRole(n, maximizing);
      FoldMovesCount(ExpandedMoves(n), depth, maxDepth, role, Window(Plain.Start(role), alpha, beta), 0);
    }
  }

  lemma {:induction false} FoldMovesCount(moves: seq<Move>, depth: nat, maxDepth: nat, maximizing: bool, w: Window, nodes: nat)
    requires depth > 0
    ensures var p := FoldMoves(moves, depth, maxDepth, maximizing, w, nodes);
      nodes <= p.nodes <= nodes + Plain.MovesSize(moves, depth, maxDepth) &&
      ((forall i :: 0 <= i < |moves| ==> Plain.MoveTotal(moves[i])) ==> p.result.Success?)
    decreases depth, 2, |moves|
  {
    if moves != [] && moves[0].outcomes.Applied? {
      var options := moves[0].outcomes.options;
      var p := FoldOutcomes(options, moves[0].event, depth, maxDepth, maximizing, w, nodes);
      FoldOutcomesCount(options, moves[0].event, depth, maxDepth, maximizing, w, nodes);
      if p.result.Success? && !Cutoff(p.result.value) {
        FoldMovesCount(moves[1..], depth, maxDepth, maximizing, p.result.value, p.nodes);
      }
      if forall i :: 0 <= i < |moves| ==> Plain.MoveTotal(moves[i]) {
        assert Plain.MoveTotal(moves[0]);
        assert forall i :: 0 <= i < |moves[1..]| ==> Plain.MoveTotal(moves[1..][i]) by {
          forall i | 0 <= i < |moves[1..]| ensures Plain.MoveTotal(moves[1..][i]) {
            assert moves[1..][i] == moves[i + 1];
          }
        }
      }
    }
  }

  lemma {:induction false} FoldOutcomesCount(options: seq<StateChance>, event: MakeMoveEvent, depth: nat, maxDepth: nat, maximizing: bool, w: Window, nodes: nat)
    requires depth > 0
    ensures var p := FoldOutcomes(options, event, depth, maxDepth, maximizing, w, nodes);
      nodes <= p.nodes <= nodes + Plain.OptionsSize(options, depth, maxDepth) &&
      ((forall j :: 0 <= j < |options| ==> Plain.Total(options[j].state)) ==> p.result.Success?)
    decreases depth, 1, |options|
  {
    if options != [] {
      var child := Compute(options[0].state, depth - 1, maxDepth, w.alpha, w.beta, maximizing);
      ComputeCount(options[0].state, depth - 1, maxDepth, w.alpha, w.beta, maximizing);
      if child.result.Success? {
        var next := Tighten(w, event, Mul(child.result.value.score, options[0].chance), maximizing);
        if !Cutoff(next) {
          FoldOutcomesCount(options[1..], event, depth, maxDepth, maximizing, next, nodes + child.nodes);
        }
      }
      if forall j :: 0 <= j < |options| ==> Plain.Total(options[j].state) {
        assert Plain.Total(options[0].state);
        assert forall j :: 0 <= j < |options[1..]| ==> Plain.Total(options[1..][j].state) by {
          forall j | 0 <= j < |options[1..]| ensures Plain.Total(options[1..][j].state) {
            assert options[1..][j] == options[j + 1];
          }
        }
      }
    }
  }

  /** When no move is rejected, this search makes no more calls than minimax/MinimaxBot's. */
  lemma VisitsNoMoreThanMinimax(n: Node, depth: nat, maxDepth: nat, maximizing: bool)
    requires Plain.Total(n)
    ensures Compute(n, depth, maxDepth, NegInf, PosInf, maximizing).result.Success?
    ensures Compute(n, depth, maxDepth, NegInf, PosInf, maximizing).nodes <= Plain.Minimax(n, depth, maxDepth, maximizing).nodes
  {
    ComputeCount(n, depth, maxDepth, NegInf, PosInf, maximizing);
    Plain.MinimaxCount(n, depth, maxDepth, maximizing);
  }

  // The window only narrows

  /**
   * In a max node alpha never falls and beta is untouched; in a min node beta never rises and
   * alpha is untouched (from a window and a best with no NaN).
   */
  lemma {:induction false} OutcomesNarrow(options: seq<StateChance>, event: MakeMoveEvent, depth: nat, maxDepth: nat, maximizing: bool, w: Window, nodes: nat)
    requires depth > 0 && !w.alpha.NaN? && !w.beta.NaN? && !w.best.score.NaN?
    ensures var p := FoldOutcomes(options, event, depth, maxDepth, maximizing, w, nodes);
      p.result.Success? ==>
        var v := p.result.value;
        !v.alpha.NaN? && !v.beta.NaN? && !v.best.score.NaN? &&
        (if maximizing then v.beta == w.beta && Le(w.alpha, v.alpha) else v.alpha == w.alpha && Le(v.beta, w.beta))
    decreases |options|
  {
    if options != [] {
      var child := Compute(options[0].state, depth - 1, maxDepth, w.alpha, w.beta, maximizing);
      if child.result.Success? {
        var next := Tighten(w, event, Mul(child.result.value.score, options[0].chance), maximizing);
        if !Cutoff(next) {
          OutcomesNarrow(options[1..], event, depth, maxDepth, maximizing, next, nodes + child.nodes);
        }
      }
    }
  }

  lemma {:induction false} MovesNarrow(moves: seq<Move>, depth: nat, maxDepth: nat, maximizing: bool, w: Window, nodes: nat)
    requires depth > 0 && !w.alpha.NaN? && !w.beta.NaN? && !w.best.score.NaN?
    ensures var p := FoldMoves(moves, depth, maxDepth, maximizing, w, nodes);
      p.result.Success? ==>
        var v := p.result.value;
        !v.alpha.NaN? && !v.beta.NaN? && !v.best.score.NaN? &&
        (if maximizing then v.beta == w.beta && Le(w.alpha, v.alpha) else v.alpha == w.alpha && Le(v.beta, w.beta))
    decreases |moves|
  {
    if moves != [] && moves[0].outcomes.Applied? {
      var options := moves[0].outcomes.options;
      var p := FoldOutcomes(options, moves[0].event, depth, maxDepth, maximizing, w, nodes);
      OutcomesNarrow(options, moves[0].event, depth, maxDepth, maximizing, w, nodes);
      if p.result.Success? && !Cutoff(p.result.value) {
        MovesNarrow(moves[1..], depth, maxDepth, maximizing, p.result.value, p.nodes);
      }
    }
  }

  // Range of the result

  /** With evaluations in [MIN_COST, MAX_COST] and chances in [0, 1], a result is an infinity or in that range. */
  lemma {:induction false} ComputeInRange(n: Node, depth: nat, maxDepth: nat, alpha: Double, beta: Double, maximizing: bool)
    requires Bounded(n)
    ensures var o := Compute(n, depth, maxDepth, alpha, beta, maximizing);
      o.result.Success? ==> Plain.InExtendedRange(o.result.value.score)
    decreases depth, 3, 0
  {
    if !(depth == 0 || n.ended) && !(n.moves == [] && depth == maxDepth) {
      var role := ExpandedRole(n, maximizing);
      BoundedMembers(n, ExpandedMoves(n));
      FoldMovesInRange(ExpandedMoves(n), depth, maxDepth, role, Window(Plain.Start(role), alpha, beta), 0);
    }
  }

  lemma {:induction false} FoldMovesInRange(moves: seq<Move>, depth: nat, maxDepth: nat, maximizing: bool, w: Window, nodes: nat)
    requires depth > 0 && Plain.InExtendedRange(w.best.score)
    requires forall m, o :: m in moves && m.outcomes.Applied? && o in m.outcomes.options ==> 0.0 <= o.chance <= 1.0 && Bounded(o.state)
    ensures var p := FoldMoves(moves, depth, maxDepth, maximizing, w, nodes);
      p.result.Success? ==> Plain.InExtendedRange(p.result.value.best.score)
    decreases depth, 2, |moves|
  {
    if moves != [] && moves[0].outcomes.Applied? {
      assert moves[0] in moves;
      var options := moves[0].outcomes.options;
      FoldOutcomesInRange(options, moves[0].event, depth, maxDepth, maximizing, w, nodes);
      var p := FoldOutcomes(options, moves[0].event, depth, maxDepth, maximizing, w, nodes);
      if p.result.Success? && !Cutoff(p.result.value) {
        assert forall m :: m in moves[1..] ==> m in moves;
        FoldMovesInRange(moves[1..], depth, maxDepth, maximizing, p.result.value, p.nodes);
      }
    }
  }

  lemma {:induction false} FoldOutcomesInRange(options: seq<StateChance>, event: MakeMoveEvent, depth: nat, maxDepth: nat, maximizing: bool, w: Window, nodes: nat)
    requires depth > 0 && Plain.InExtendedRange(w.best.score)
    requires forall o :: o in options ==> 0.0 <= o.chance <= 1.0 && Bounded(o.state)
    ensures var p := FoldOutcomes(options, event, depth, maxDepth, maximizing, w, nodes);
      p.result.Success? ==> Plain.InExtendedRange(p.result.value.best.score)
    decreases depth, 1, |options|
  {
    if options != [] {
      assert options[0] in options;
      var child := Compute(options[0].state, depth - 1, maxDepth, w.alpha, w.beta, maximizing);
      ComputeInRange(options[0].state, depth - 1, maxDepth, w.alpha, w.beta, maximizing);
      if child.result.Success? {
        Plain.MulInRange(child.result.value.score, options[0].chance);
        var next := Tighten(w, event, Mul(child.result.value.score, options[0].chance), maximizing);
        if !Cutoff(next) {
          assert forall o :: o in options[1..] ==> o in options;
          FoldOutcomesInRange(options[1..], event, depth, maxDepth, maximizing, next, nodes + child.nodes);
        }
      }
    }
  }

  /**
   * A first move whose child passes to an opponent with no moves scores +∞, which closes the
   * root window: the second move is never searched (2 calls), where minimax/MinimaxBot makes 3.
   */
  lemma CutoffSkipsRemainingMoves(e1: MakeMoveEvent, e2: MakeMoveEvent)
    ensures var n := Node(false, 0.0, [Move(e1, Applied([StateChance(Node(false, 0.0, [], []), 1.0)])),
                                       Move(e2, Applied([StateChance(Node(true, 5.0, [], []), 1.0)]))], []);
      Compute(n, 2, 2, NegInf, PosInf, true) == Plain.Outcome(Success(ExpectimaxBot.Scored(Some(e1), PosInf)), 2)
  {
    var dead := Node(false, 0.0, [], []);
    var m1 := Move(e1, Applied([StateChance(dead, 1.0)]));
    var m2 := Move(e2, Applied([StateChance(Node(true, 5.0, [], []), 1.0)]));
    var top := ExpectimaxBot.Scored(Some(e1), PosInf);
    assert [StateChance(dead, 1.0)][1..] == [];
    assert FoldMoves([], 1, 2, false, Window(Plain.Start(false), NegInf, PosInf), 0) == Pruned(Success(Window(Plain.Start(false), NegInf, PosInf)), 0);
    assert Compute(dead, 1, 2, NegInf, PosInf, true) == Plain.Outcome(Success(Plain.Start(false)), 1);
    var p := FoldOutcomes([StateChance(dead, 1.0)], e1, 2, 2, true, Window(Plain.Start(true), NegInf, PosInf), 0);
    assert p == Pruned(Success(Window(top, PosInf, PosInf)), 1);
    assert FoldMoves([m1, m2], 2, 2, true, Window(Plain.Start(true), NegInf, PosInf), 0) == p;
  }

  lemma MinimaxSearchesEveryMove(e1: MakeMoveEvent, e2: MakeMoveEvent)
    ensures var n := Node(false, 0.0, [Move(e1, Applied([StateChance(Node(false, 0.0, [], []), 1.0)])),
                                       Move(e2, Applied([StateChance(Node(true, 5.0, [], []), 1.0)]))], []);
      Plain.Minimax(n, 2, 2, true) == Plain.Outcome(Success(ExpectimaxBot.Scored(Some(e1), PosInf)), 3)
  {
    var dead := Node(false, 0.0, [], []);
    var leaf := Node(true, 5.0, [], []);
    var m1 := Move(e1, Applied([StateChance(dead, 1.0)]));
    var m2 := Move(e2, Applied([StateChance(leaf, 1.0)]));
    var top := ExpectimaxBot.Scored(Some(e1), PosInf);
    assert [m1, m2][1..] == [m2] && [m2][1..] == [];
    assert [StateChance(dead, 1.0)][1..] == [] && [StateChance(leaf, 1.0)][1..] == [];
    assert Plain.FoldMoves([], 1, 2, false, Plain.Start(false), 0) == Plain.Outcome(Success(Plain.Start(false)), 0);
    assert Plain.Minimax(dead, 1, 2, true) == Plain.Outcome(Success(Plain.Start(false)), 1);
    assert Plain.Minimax(leaf, 1, 2, true) == Plain.Outcome(Success(ExpectimaxBot.Scored(None, Finite(5.0))), 1);
    assert Plain.FoldOutcomes([StateChance(dead, 1.0)], e1, 2, 2, true, Plain.Start(true), 0) == Plain.Outcome(Success(top), 1);
    assert Plain.FoldOutcomes([StateChance(leaf, 1.0)], e2, 2, 2, true, top, 1) == Plain.Outcome(Success(top), 2);
    assert Plain.FoldMoves([m2], 2, 2, true, top, 1) == Plain.Outcome(Success(top), 2);
    assert Plain.FoldMoves([m1, m2], 2, 2, true, Plain.Start(true), 0) == Plain.Outcome(Success(top), 2);
  }

  class MultiThreadMinimaxBot {
    const maxDepth: nat
    const treeAnalyzer: Instrumentation.TreeAnalyzer

    constructor (maxDepth: nat)
      ensures this.maxDepth == maxDepth && fresh(treeAnalyzer)
      ensures treeAnalyzer.nodesCount == 0 && treeAnalyzer.moveStartTime == 0 && treeAnalyzer.moveEndTime == 0
    {
      this.maxDepth := maxDepth;
      treeAnalyzer := new Instrumentation.TreeAnalyzer();
    }

    /** `generateMakeMoveEvent`: the root task has the window (−∞, +∞) and maximizes. */
    method GenerateMakeMoveEvent(gameState: Node, startTime: int, endTime: int) returns (event: Result<Option<MakeMoveEvent>>)
      modifies treeAnalyzer
      ensures var o := Compute(gameState, maxDepth, maxDepth, NegInf, PosInf, true);
        event == (if o.result.Success? then Success(o.result.value.event) else Failure) &&
        treeAnalyzer.nodesCount == old(treeAnalyzer.nodesCount) + o.nodes &&
        treeAnalyzer.moveStartTime == startTime &&
        treeAnalyzer.moveEndTime == (if o.result.Success? then endTime else old(treeAnalyzer.moveEndTime))
    {
      treeAnalyzer.StartMoveStopWatch(startTime);
      var result := ComputeTask(gameState, maxDepth, NegInf, PosInf, true);
      if result.Failure? {
        return Failure;
      }
      treeAnalyzer.EndMoveStopWatch(endTime);
      event := Success(result.value.event);
    }

    /** `MinimaxTask.compute`. */
    method ComputeTask(gameState: Node, depth: nat, alpha: Double, beta: Double, maximizing: bool) returns (r: Result<Scored>)
      modifies treeAnalyzer`nodesCount
      ensures r == Compute(gameState, depth, maxDepth, alpha, beta, maximizing).result
      ensures treeAnalyzer.nodesCount == old(treeAnalyzer.nodesCount) + Compute(gameState, depth, maxDepth, alpha, beta, maximizing).nodes
      decreases depth, 3, 0
    {
      treeAnalyzer.IncrementNodesCount();
      if depth == 0 || gameState.ended {
        return Success(ExpectimaxBot.Scored(None, Finite(gameState.value)));
      }
      var possibleMoves := gameState.moves;
      var role := maximizing;
      if |possibleMoves| == 0 {
        if depth == maxDepth {
          return Success(ExpectimaxBot.Scored(None, if maximizing then NegInf else PosInf));
        }
        possibleMoves := gameState.passMoves;
        role := !maximizing;
      }
      if role {
        r := Maximize(depth, alpha, beta, possibleMoves);
      } else {
        r := Minimize(depth, alpha, beta, possibleMoves);
      }
    }

    /** `maximize`. */
    method Maximize(depth: nat, alpha: Double, beta: Double, possibleMoves: seq<Move>) returns (r: Result<Scored>)
      requires depth > 0
      modifies treeAnalyzer`nodesCount
      ensures var p := FoldMoves(possibleMoves, depth, maxDepth, true, Window(Plain.Start(true), alpha, beta), 0);
        r == (if p.result.Success? then Success(p.result.value.best) else Failure) &&
        treeAnalyzer.nodesCount == old(treeAnalyzer.nodesCount) + p.nodes
      decreases depth, 2, 1
    {
      r := SearchMoves(depth, alpha, beta, possibleMoves, true);
    }

    /** `minimize`. */
    method Minimize(depth: nat, alpha: Double, beta: Double, possibleMoves: seq<Move>) returns (r: Result<Scored>)
      requires depth > 0
      modifies treeAnalyzer`nodesCount
      ensures var p := FoldMoves(possibleMoves, depth, maxDepth, false, Window(Plain.Start(false), alpha, beta), 0);
        r == (if p.result.Success? then Success(p.result.value.best) else Failure) &&
        treeAnalyzer.nodesCount == old(treeAnalyzer.nodesCount) + p.nodes
      decreases depth, 2, 1
    {
      r := SearchMoves(depth, alpha, beta, possibleMoves, false);
    }

    /** The move loop of `maximize` and `minimize`, with its `break` on a cutoff. */
    method SearchMoves(depth: nat, alpha: Double, beta: Double, possibleMoves: seq<Move>, maximizing: bool) returns (r: Result<Scored>)
      requires depth > 0
      modifies treeAnalyzer`nodesCount
      ensures var p := FoldMoves(possibleMoves, depth, maxDepth, maximizing, Window(Plain.Start(maximizing), alpha, beta), 0);
        r == (if p.result.Success? then Success(p.result.value.best) else Failure) &&
        treeAnalyzer.nodesCount == old(treeAnalyzer.nodesCount) + p.nodes
      decreases depth, 2, 0
    {
      var w := Window(ExpectimaxBot.Scored(None, if maximizing then NegInf else PosInf), alpha, beta);
      ghost var start := treeAnalyzer.nodesCount;
      for i := 0 to |possibleMoves|
        invariant treeAnalyzer.nodesCount >= start
        invariant FoldMoves(possibleMoves[i..], depth, maxDepth, maximizing, w, treeAnalyzer.nodesCount - start) ==
          FoldMoves(possibleMoves, depth, maxDepth, maximizing, Window(Plain.Start(maximizing), alpha, beta), 0)
      {
        var move := possibleMoves[i];
        FoldMovesUnfold(possibleMoves, i, depth, maxDepth, maximizing, w, treeAnalyzer.nodesCount - start);
        if move.outcomes.Rejected? {
          return Failure;
        }
        var result := SearchOutcomes(move.outcomes.options, move.event, depth, maximizing, w, treeAnalyzer.nodesCount - start);
        if result.Failure? {
          return Failure;
        }
        w := result.value;
        if Le(w.beta, w.alpha) {
          return Success(w.best);
        }
      }
      assert possibleMoves[|possibleMoves|..] == [];
      r := Success(w.best);
    }

    /** The outcome loop: fork a child task, join it, weight, compare, tighten, and `break` on a cutoff. */
    method SearchOutcomes(possibleStates: seq<StateChance>, move: MakeMoveEvent, depth: nat, maximizing: bool, w0: Window, ghost nodes: nat)
      returns (r: Result<Window>)
      requires depth > 0
      modifies treeAnalyzer`nodesCount
      ensures treeAnalyzer.nodesCount >= old(treeAnalyzer.nodesCount)
      ensures FoldOutcomes(possibleStates, move, depth, maxDepth, maximizing, w0, nodes) ==
        Pruned(r, nodes + treeAnalyzer.nodesCount - old(treeAnalyzer.nodesCount))
      decreases depth, 1, 0
    {
      var w := w0;
      for j := 0 to |possibleStates|
        invariant treeAnalyzer.nodesCount >= old(treeAnalyzer.nodesCount)
        invariant FoldOutcomes(possibleStates[j..], move, depth, maxDepth, maximizing, w,
            nodes + treeAnalyzer.nodesCount - old(treeAnalyzer.nodesCount)) ==
          FoldOutcomes(possibleStates, move, depth, maxDepth, maximizing, w0, nodes)
      {
        var stateChance := possibleStates[j];
        FoldOutcomesUnfold(possibleStates, j, move, depth, maxDepth, maximizing, w, nodes + treeAnalyzer.nodesCount - old(treeAnalyzer.nodesCount));
        var result := ComputeTask(stateChance.state, depth - 1, w.alpha, w.beta, maximizing);
        if result.Failure? {
          return Failure;
        }
        var score := Mul(result.value.score, stateChance.chance);
        var best := w.best;
        if (maximizing && Gt(score, best.score)) || (!maximizing && Lt(score, best.score)) {
          best := ExpectimaxBot.Scored(Some(move), score);
        }
        if maximizing {
          w := Window(best, MathMax(w.alpha, best.score), w.beta);
        } else {
          w := Window(best, w.alpha, MathMin(w.beta, best.score));
        }
        if Le(w.beta, w.alpha) {
          return Success(w);
        }
      }
      assert possibleStates[|possibleStates|..] == [];
      r := Success(w);
    }
  }
}
