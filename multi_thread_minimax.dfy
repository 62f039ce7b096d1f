/**
 * movement_stage/MultiThreadMinimax: fork/join minimax with an (alpha, beta) window. A node
 * forks one task for every outcome of every move (no deduplication, no probability filter, no
 * weighting), each with the node's incoming window, and only then joins them in fork order,
 * tightening the window and stopping at a cutoff. The i-th joined result is credited to move
 * `possibleMoves.get(i / 2)`; an index past the end throws IndexOutOfBoundsException, which is
 * not caught and ends the whole search (`Failure`). Forking is modelled as computing the task
 * on the spot; joining reads that result.
 */
module MultiThreadMinimax {
  import opened Wrappers
  import opened Game
  import opened Search
  import Instrumentation
  import AlphaBetaMinimaxBot
  import ExpectimaxMovementBot
  import MovementBotUtil

  /** A task's result (`Failure` for an exception that escapes `compute`) and its calls. */
  datatype Computed = Computed(result: Result<EventScore>, nodes: nat)

  /** `MinimaxTask.compute` for (gameState, depth, alpha, beta, maximizing). */
  function Compute(n: Node, depth: nat, maxDepth: nat, alpha: real, beta: real, maximizing: bool): Computed
    decreases depth, 2
  {
    if depth == 0 || n.ended then Computed(Success(EventScore(None, n.value)), 1)
    else if n.moves == [] && depth == maxDepth then Computed(Success(Initial(maximizing)), 1)
    else
      var e := ForkJoin(ExpandedMoves(n), depth, maxDepth, alpha, beta, ExpandedRole(n, maximizing));
      Computed(e.result, e.nodes + 1)
  }

  /**
   * `maximize` / `minimize`: fork every outcome's task; a `GameException` while forking leaves
   * the initial best (the tasks already forked still run); otherwise join and fold.
   */
  function ForkJoin(moves: seq<Move>, depth: nat, maxDepth: nat, alpha: real, beta: real, maximizing: bool): Computed
    requires depth > 0
    decreases depth, 1
  {
    var forked := Forked(Children(moves), depth, maxDepth, alpha, beta, maximizing);
    if !ExpectimaxMovementBot.AllApplied(moves) then Computed(Success(Initial(maximizing)), TotalNodes(forked))
    else Computed(JoinFold(Results(forked), 0, moves, maximizing, Initial(maximizing), alpha, beta), TotalNodes(forked))
  }

  /** The states of the outcomes forked, move by move, up to the first rejected move. */
  function Children(moves: seq<Move>): seq<Node>
  {
    if moves == [] then []
    else match moves[0].outcomes
      case Rejected => []
      case Applied(options) => States(options) + Children(moves[1..])
  }

  function States(options: seq<StateChance>): (ns: seq<Node>)
    ensures |ns| == |options|
    ensures forall j :: 0 <= j < |options| ==> ns[j] == options[j].state
  {
    seq(|options|, j requires 0 <= j < |options| => options[j].state)
  }

  /** Every child task, computed with the node's incoming window and its role. */
  function Forked(children: seq<Node>, depth: nat, maxDepth: nat, alpha: real, beta: real, maximizing: bool): (rs: seq<Computed>)
    requires depth > 0
    ensures |rs| == |children|
    ensures forall i :: 0 <= i < |children| ==> rs[i] == Compute(children[i], depth - 1, maxDepth, alpha, beta, maximizing)
    decreases depth, 0
  {
    seq(|children|, i requires 0 <= i < |children| => Compute(children[i], depth - 1, maxDepth, alpha, beta, maximizing))
  }

  function Results(rs: seq<Computed>): (es: seq<Result<EventScore>>)
    ensures |es| == |rs|
    ensures forall i :: 0 <= i < |rs| ==> es[i] == rs[i].result
  {
    seq(|rs|, i requires 0 <= i < |rs| => rs[i].result)
  }

  function TotalNodes(rs: seq<Computed>): nat
  {
    if rs == [] then 0 else rs[0].nodes + TotalNodes(rs[1..])
  }

  /**
   * The join loop from task `i` on, as written: a strictly better score is credited to
   * `moves[i / 2]`, failing when there is no such move; after each task the window is tightened
   * and a cutoff ends the loop. A task whose `compute` failed fails the join.
   */
  function JoinFold(results: seq<Result<EventScore>>, i: nat, moves: seq<Move>, maximizing: bool, best: EventScore, alpha: real, beta: real): Result<EventScore>
    decreases |results| - i
  {
    if i >= |results| then Success(best)
    else match results[i]
      case Failure => Failure
      case Success(r) =>
        if Better(r.score, best.score, maximizing) && i / 2 >= |moves| then Failure
        else
          var next := if Better(r.score, best.score, maximizing) then EventScore(Some(moves[i / 2].event), r.score) else best;
          var a := if maximizing then AlphaBetaMinimaxBot.Max(alpha, next.score) else alpha;
          var b := if maximizing then beta else AlphaBetaMinimaxBot.Min(beta, next.score);
          if b <= a then Success(next) else JoinFold(results, i + 1, moves, maximizing, next, a, b)
  }

  // The evidently intended attribution: each joined result is credited to the move that produced it.

  /** The move that produced each forked child, in fork order. */
  function Owners(moves: seq<Move>): (es: seq<MakeMoveEvent>)
    ensures |es| == |Children(moves)|
  {
    if moves == [] then []
    else match moves[0].outcomes
      case Rejected => []
      case Applied(options) => seq(|options|, j => moves[0].event) + Owners(moves[1..])
  }

  function CorrectedJoinFold(results: seq<Result<EventScore>>, i: nat, owners: seq<MakeMoveEvent>, maximizing: bool, best: EventScore, alpha: real, beta: real): Result<EventScore>
    requires |owners| == |results|
    decreases |results| - i
  {
    if i >= |results| then Success(best)
    else match results[i]
      case Failure => Failure
      case Success(r) =>
        var next := if Better(r.score, best.score, maximizing) then EventScore(Some(owners[i]), r.score) else best;
        var a := if maximizing then AlphaBetaMinimaxBot.Max(alpha, next.score) else alpha;
        var b := if maximizing then beta else AlphaBetaMinimaxBot.Min(beta, next.score);
        if b <= a then Success(next) else CorrectedJoinFold(results, i + 1, owners, maximizing, next, a, b)
  }

  function CorrectedCompute(n: Node, depth: nat, maxDepth: nat, alpha: real, beta: real, maximizing: bool): Computed
    decreases depth, 2
  {
    if depth == 0 || n.ended then Computed(Success(EventScore(None, n.value)), 1)
    else if n.moves == [] && depth == maxDepth then Computed(Success(Initial(maximizing)), 1)
    else
      var e := CorrectedForkJoin(ExpandedMoves(n), depth, maxDepth, alpha, beta, ExpandedRole(n, maximizing));
      Computed(e.result, e.nodes + 1)
  }

  function CorrectedForkJoin(moves: seq<Move>, depth: nat, maxDepth: nat, alpha: real, beta: real, maximizing: bool): Computed
    requires depth > 0
    decreases depth, 1
  {
    var forked := CorrectedForked(Children(moves), depth, maxDepth, alpha, beta, maximizing);
    if !ExpectimaxMovementBot.AllApplied(moves) then Computed(Success(Initial(maximizing)), TotalNodes(forked))
    else Computed(CorrectedJoinFold(Results(forked), 0, Owners(moves), maximizing, Initial(maximizing), alpha, beta), TotalNodes(forked))
  }

  function CorrectedForked(children: seq<Node>, depth: nat, maxDepth: nat, alpha: real, beta: real, maximizing: bool): (rs: seq<Computed>)
    requires depth > 0
    ensures |rs| == |children|
    ensures forall i :: 0 <= i < |children| ==> rs[i] == CorrectedCompute(children[i], depth - 1, maxDepth, alpha, beta, maximizing)
    decreases depth, 0
  {
    seq(|children|, i requires 0 <= i < |children| => CorrectedCompute(children[i], depth - 1, maxDepth, alpha, beta, maximizing))
  }

  /**
   * With the intended attribution the join never fails on its own, and its result is the
   * initial best or a joined score credited to the move that produced it.
   */
  lemma {:induction false} CorrectedJoinFoldSound(results: seq<Result<EventScore>>, i: nat, owners: seq<MakeMoveEvent>, maximizing: bool, best: EventScore, alpha: real, beta: real)
    requires |owners| == |results|
    requires forall k :: 0 <= k < |results| ==> results[k].Success?
    ensures CorrectedJoinFold(results, i, owners, maximizing, best, alpha, beta).Success?
    ensures var r := CorrectedJoinFold(results, i, owners, maximizing, best, alpha, beta).value;
      r == best || exists k :: i <= k < |results| && r == EventScore(Some(owners[k]), results[k].value.score)
    decreases |results| - i
  {
    if i < |results| {
      var s := results[i].value;
      var next := if Better(s.score, best.score, maximizing) then EventScore(Some(owners[i]), s.score) else best;
      var a := if maximizing then AlphaBetaMinimaxBot.Max(alpha, next.score) else alpha;
      var b := if maximizing then beta else AlphaBetaMinimaxBot.Min(beta, next.score);
      if !(b <= a) {
        CorrectedJoinFoldSound(results, i + 1, owners, maximizing, next, a, b);
      }
    }
  }

  /** Every move of a whole tree that applies has exactly two outcomes. */
  predicate Paired(n: Node)
    decreases n, 1
  {
    (forall i :: 0 <= i < |n.moves| ==> MovePaired(n.moves[i])) &&
    (forall i :: 0 <= i < |n.passMoves| ==> MovePaired(n.passMoves[i]))
  }

  predicate MovePaired(m: Move)
    decreases m, 0
  {
    m.outcomes.Applied? ==>
      |m.outcomes.options| == 2 && forall j :: 0 <= j < 2 ==> Paired(m.outcomes.options[j].state)
  }

  /** When every move has two outcomes, `possibleMoves.get(i / 2)` is the move of the i-th child. */
  lemma {:induction false} OwnersOfPairs(moves: seq<Move>)
    requires ExpectimaxMovementBot.AllApplied(moves)
    requires forall m :: m in moves ==> |m.outcomes.options| == 2
    ensures |Owners(moves)| == 2 * |moves|
    ensures forall i :: 0 <= i < |Owners(moves)| ==> i / 2 < |moves| && Owners(moves)[i] == moves[i / 2].event
    decreases |moves|
  {
    if moves != [] {
      assert moves[0] in moves;
      assert forall m :: m in moves[1..] ==> m in moves;
      OwnersOfPairs(moves[1..]);
      var head := seq(|moves[0].outcomes.options|, j => moves[0].event);
      assert Owners(moves) == head + Owners(moves[1..]);
      forall i | 0 <= i < |Owners(moves)|
        ensures i / 2 < |moves| && Owners(moves)[i] == moves[i / 2].event
      {
        if i >= 2 {
          assert Owners(moves)[i] == Owners(moves[1..])[i - 2];
          assert (i - 2) / 2 + 1 == i / 2;
        }
      }
    }
  }

  lemma {:induction false} JoinFoldAgrees(results: seq<Result<EventScore>>, i: nat, moves: seq<Move>, owners: seq<MakeMoveEvent>, maximizing: bool, best: EventScore, alpha: real, beta: real)
    requires |owners| == |results|
    requires forall k :: 0 <= k < |results| ==> k / 2 < |moves| && owners[k] == moves[k / 2].event
    ensures JoinFold(results, i, moves, maximizing, best, alpha, beta) == CorrectedJoinFold(results, i, owners, maximizing, best, alpha, beta)
    decreases |results| - i
  {
    if i < |results| && results[i].Success? {
      var r := results[i].value;
      var next := if Better(r.score, best.score, maximizing) then EventScore(Some(owners[i]), r.score) else best;
      var a := if maximizing then AlphaBetaMinimaxBot.Max(alpha, next.score) else alpha;
      var b := if maximizing then beta else AlphaBetaMinimaxBot.Min(beta, next.score);
      JoinFoldAgrees(results, i + 1, moves, owners, maximizing, next, a, b);
    }
  }

  /** Every forked child is an outcome state of one of the moves. */
  lemma {:induction false} ChildrenMembers(moves: seq<Move>)
    ensures forall x :: x in Children(moves) ==>
      exists m, j :: m in moves && m.outcomes.Applied? && 0 <= j < |m.outcomes.options| && x == m.outcomes.options[j].state
    decreases |moves|
  {
    if moves != [] && moves[0].outcomes.Applied? {
      ChildrenMembers(moves[1..]);
      var options := moves[0].outcomes.options;
      forall x | x in Children(moves)
        ensures exists m, j :: m in moves && m.outcomes.Applied? && 0 <= j < |m.outcomes.options| && x == m.outcomes.options[j].state
      {
        if x in States(options) {
          var j :| 0 <= j < |options| && States(options)[j] == x;
          assert moves[0] in moves;
        } else {
          assert x in Children(moves[1..]);
          var m, j :| m in moves[1..] && m.outcomes.Applied? && 0 <= j < |m.outcomes.options| && x == m.outcomes.options[j].state;
          assert m in moves;
        }
      }
    }
  }

  /**
   * On a tree whose every applied move has exactly two outcomes, the search as written returns
   * what the intended attribution returns, at every node.
   */
  lemma {:induction false} PairedTreesAgree(n: Node, depth: nat, maxDepth: nat, alpha: real, beta: real, maximizing: bool)
    requires Paired(n)
    ensures Compute(n, depth, maxDepth, alpha, beta, maximizing) == CorrectedCompute(n, depth, maxDepth, alpha, beta, maximizing)
    decreases depth, 2
  {
    if !(depth == 0 || n.ended) && !(n.moves == [] && depth == maxDepth) {
      var moves := ExpandedMoves(n);
      forall m | m in moves
        ensures MovePaired(m)
      {
        var i :| 0 <= i < |moves| && moves[i] == m;
      }
      PairedForkJoinAgrees(moves, depth, maxDepth, alpha, beta, ExpandedRole(n, maximizing));
    }
  }

  lemma {:induction false} PairedForkJoinAgrees(moves: seq<Move>, depth: nat, maxDepth: nat, alpha: real, beta: real, maximizing: bool)
    requires depth > 0 && forall m :: m in moves ==> MovePaired(m)
    ensures ForkJoin(moves, depth, maxDepth, alpha, beta, maximizing) == CorrectedForkJoin(moves, depth, maxDepth, alpha, beta, maximizing)
    decreases depth, 1
  {
    var children := Children(moves);
    ChildrenMembers(moves);
    forall x | x in children
      ensures Paired(x)
    {
      var m, j :| m in moves && m.outcomes.Applied? && 0 <= j < |m.outcomes.options| && x == m.outcomes.options[j].state;
      assert MovePaired(m);
    }
    PairedChildrenAgree(children, depth, maxDepth, alpha, beta, maximizing);
    var forked := Forked(children, depth, maxDepth, alpha, beta, maximizing);
    assert forked == CorrectedForked(children, depth, maxDepth, alpha, beta, maximizing);
    if ExpectimaxMovementBot.AllApplied(moves) {
      OwnersOfPairs(moves);
      JoinFoldAgrees(Results(forked), 0, moves, Owners(moves), maximizing, Initial(maximizing), alpha, beta);
    }
  }

  lemma {:induction false} PairedChildrenAgree(children: seq<Node>, depth: nat, maxDepth: nat, alpha: real, beta: real, maximizing: bool)
    requires depth > 0 && forall x :: x in children ==> Paired(x)
    ensures forall i :: 0 <= i < |children| ==>
      Compute(children[i], depth - 1, maxDepth, alpha, beta, maximizing) == CorrectedCompute(children[i], depth - 1, maxDepth, alpha, beta, maximizing)
    decreases depth, 0
  {
    forall i | 0 <= i < |children|
      ensures Compute(children[i], depth - 1, maxDepth, alpha, beta, maximizing) == CorrectedCompute(children[i], depth - 1, maxDepth, alpha, beta, maximizing)
    {
      assert children[i] in children;
      PairedTreesAgree(children[i], depth - 1, maxDepth, alpha, beta, maximizing);
    }
  }

  /**
   * Two moves with one outcome each, the second one better: as written, the second child's
   * score is credited to the first move (`get(1 / 2)`); the intended attribution credits the second.
   */
  lemma MisattributedChild(e1: MakeMoveEvent, e2: MakeMoveEvent)
    ensures var n := Node(false, 0.0, [Move(e1, Applied([StateChance(Node(true, 100.0, [], []), 1.0)])),
                                       Move(e2, Applied([StateChance(Node(true, 500.0, [], []), 1.0)]))], []);
      Compute(n, 1, 1, MIN_COST, MAX_COST, true).result == Success(EventScore(Some(e1), 500.0)) &&
      CorrectedCompute(n, 1, 1, MIN_COST, MAX_COST, true).result == Success(EventScore(Some(e2), 500.0))
  {
    var a := Node(true, 100.0, [], []);
    var b := Node(true, 500.0, [], []);
    var m1 := Move(e1, Applied([StateChance(a, 1.0)]));
    var m2 := Move(e2, Applied([StateChance(b, 1.0)]));
    var moves := [m1, m2];
    assert moves[1..] == [m2] && [m2][1..] == [];
    assert ExpectimaxMovementBot.AllApplied(moves);
    assert States([StateChance(b, 1.0)]) == [b];
    assert States([StateChance(a, 1.0)]) == [a];
    assert Children([m2]) == [b];
    assert Children(moves) == [a, b];
    assert Owners([m2]) == [e2];
    assert Owners(moves) == [e1, e2];
    var forked := Forked([a, b], 1, 1, MIN_COST, MAX_COST, true);
    assert forked == CorrectedForked([a, b], 1, 1, MIN_COST, MAX_COST, true);
    var rs := Results(forked);
    assert rs == [Success(EventScore(None, 100.0)), Success(EventScore(None, 500.0))];
    var first := EventScore(Some(e1), 100.0);
    assert JoinFold(rs, 2, moves, true, EventScore(Some(e1), 500.0), 500.0, MAX_COST) == Success(EventScore(Some(e1), 500.0));
    assert JoinFold(rs, 1, moves, true, first, 100.0, MAX_COST) == Success(EventScore(Some(e1), 500.0));
    assert JoinFold(rs, 0, moves, true, Initial(true), MIN_COST, MAX_COST) == Success(EventScore(Some(e1), 500.0));
    assert CorrectedJoinFold(rs, 2, [e1, e2], true, EventScore(Some(e2), 500.0), 500.0, MAX_COST) == Success(EventScore(Some(e2), 500.0));
    assert CorrectedJoinFold(rs, 1, [e1, e2], true, first, 100.0, MAX_COST) == Success(EventScore(Some(e2), 500.0));
    assert CorrectedJoinFold(rs, 0, [e1, e2], true, Initial(true), MIN_COST, MAX_COST) == Success(EventScore(Some(e2), 500.0));
  }

  /**
   * One move with three outcomes, the third one best: as written, `get(2 / 2)` is past the end
   * of the one-move list and the search fails; the intended attribution credits the move.
   */
  lemma ChildIndexOutOfRange(e: MakeMoveEvent)
    ensures var n := Node(false, 0.0, [Move(e, Applied([StateChance(Node(true, 100.0, [], []), 1.0),
                                                        StateChance(Node(true, 100.0, [], []), 1.0),
                                                        StateChance(Node(true, 500.0, [], []), 1.0)]))], []);
      Compute(n, 1, 1, MIN_COST, MAX_COST, true).result == Failure &&
      CorrectedCompute(n, 1, 1, MIN_COST, MAX_COST, true).result == Success(EventScore(Some(e), 500.0))
  {
    var a := Node(true, 100.0, [], []);
    var b := Node(true, 500.0, [], []);
    var options := [StateChance(a, 1.0), StateChance(a, 1.0), StateChance(b, 1.0)];
    var m := Move(e, Applied(options));
    assert [m][1..] == [];
    assert ExpectimaxMovementBot.AllApplied([m]);
    assert States(options) == [a, a, b];
    assert Children([m]) == [a, a, b];
    assert Owners([m]) == [e, e, e];
    var forked := Forked([a, a, b], 1, 1, MIN_COST, MAX_COST, true);
    assert forked == CorrectedForked([a, a, b], 1, 1, MIN_COST, MAX_COST, true);
    var rs := Results(forked);
    assert rs == [Success(EventScore(None, 100.0)), Success(EventScore(None, 100.0)), Success(EventScore(None, 500.0))];
    var first := EventScore(Some(e), 100.0);
    assert JoinFold(rs, 2, [m], true, first, 100.0, MAX_COST) == Failure;
    assert JoinFold(rs, 1, [m], true, first, 100.0, MAX_COST) == Failure;
    assert JoinFold(rs, 0, [m], true, Initial(true), MIN_COST, MAX_COST) == Failure;
    assert CorrectedJoinFold(rs, 3, [e, e, e], true, EventScore(Some(e), 500.0), 500.0, MAX_COST) == Success(EventScore(Some(e), 500.0));
    assert CorrectedJoinFold(rs, 2, [e, e, e], true, first, 100.0, MAX_COST) == Success(EventScore(Some(e), 500.0));
    assert CorrectedJoinFold(rs, 1, [e, e, e], true, first, 100.0, MAX_COST) == Success(EventScore(Some(e), 500.0));
    assert CorrectedJoinFold(rs, 0, [e, e, e], true, Initial(true), MIN_COST, MAX_COST) == Success(EventScore(Some(e), 500.0));
  }

  /**
   * A cutoff saves no work here: a first outcome of MAX_COST closes the window, yet the second
   * outcome's task was already forked and computed (3 calls in all).
   */
  lemma CutoffAfterForking(e: MakeMoveEvent)
    ensures var n := Node(false, 0.0, [Move(e, Applied([StateChance(Node(true, MAX_COST, [], []), 1.0),
                                                        StateChance(Node(false, 0.0, [], []), 1.0)]))], []);
      Compute(n, 2, 2, MIN_COST, MAX_COST, true) == Computed(Success(EventScore(Some(e), MAX_COST)), 3)
  {
    var top := Node(true, MAX_COST, [], []);
    var dead := Node(false, 0.0, [], []);
    var options := [StateChance(top, 1.0), StateChance(dead, 1.0)];
    var m := Move(e, Applied(options));
    assert [m][1..] == [];
    assert ExpectimaxMovementBot.AllApplied([m]);
    assert States(options) == [top, dead];
    assert Children([m]) == [top, dead];
    assert Children([]) == [];
    assert Forked([], 1, 2, MIN_COST, MAX_COST, false) == [];
    assert ForkJoin([], 1, 2, MIN_COST, MAX_COST, false) == Computed(Success(Initial(false)), 0);
    assert Compute(dead, 1, 2, MIN_COST, MAX_COST, true) == Computed(Success(Initial(false)), 1);
    var forked := Forked([top, dead], 2, 2, MIN_COST, MAX_COST, true);
    assert forked == [Computed(Success(EventScore(None, MAX_COST)), 1), Computed(Success(Initial(false)), 1)];
    assert forked[1..][1..] == [];
    assert TotalNodes(forked) == 2;
    assert JoinFold(Results(forked), 0, [m], true, Initial(true), MIN_COST, MAX_COST) == Success(EventScore(Some(e), MAX_COST));
  }

  /** The same tree under movement_stage/AlphaBetaMinimaxBot: the cutoff spares the second outcome (2 calls). */
  lemma AlphaBetaSkipsAfterCutoff(e: MakeMoveEvent)
    ensures var n := Node(false, 0.0, [Move(e, Applied([StateChance(Node(true, MAX_COST, [], []), 1.0),
                                                        StateChance(Node(false, 0.0, [], []), 1.0)]))], []);
      AlphaBetaMinimaxBot.AlphaBeta(n, 2, 2, MIN_COST, MAX_COST, true) == Explored(EventScore(Some(e), MAX_COST), 2)
  {
    var top := Node(true, MAX_COST, [], []);
    var dead := Node(false, 0.0, [], []);
    var options := [StateChance(top, 1.0), StateChance(dead, 1.0)];
    var m := Move(e, Applied(options));
    MovementBotUtil.SingleMoveKept(m);
    var w0 := AlphaBetaMinimaxBot.Window(Initial(true), MIN_COST, MAX_COST, 0);
    var w1 := AlphaBetaMinimaxBot.Window(EventScore(Some(e), MAX_COST), MAX_COST, MAX_COST, 1);
    assert AlphaBetaMinimaxBot.Step(MovementBotUtil.State(top, 1.0, e), 2, 2, true, w0) == w1;
    assert AlphaBetaMinimaxBot.FoldOutcomes(options, e, 2, 2, true, w0) == w1;
    assert AlphaBetaMinimaxBot.FoldMoves([m], 2, 2, true, w0) == w1;
  }

  lemma ChildrenAppend(prefix: seq<Move>, m: Move)
    requires ExpectimaxMovementBot.AllApplied(prefix) && m.outcomes.Applied?
    ensures Children(prefix + [m]) == Children(prefix) + States(m.outcomes.options)
    decreases |prefix|
  {
    if prefix == [] {
      assert [m][1..] == [];
    } else {
      assert (prefix + [m])[0] == prefix[0] && (prefix + [m])[1..] == prefix[1..] + [m];
      assert prefix[0] in prefix;
      ChildrenAppend(prefix[1..], m);
    }
  }

  /** Nothing is forked from a rejected move on. */
  lemma ChildrenRejected(prefix: seq<Move>, moves: seq<Move>)
    requires ExpectimaxMovementBot.AllApplied(prefix) && moves != [] && moves[0].outcomes.Rejected?
    ensures Children(prefix + moves) == Children(prefix)
    decreases |prefix|
  {
    if prefix == [] {
      assert [] + moves == moves;
    } else {
      assert (prefix + moves)[0] == prefix[0] && (prefix + moves)[1..] == prefix[1..] + moves;
      assert prefix[0] in prefix;
      ChildrenRejected(prefix[1..], moves);
    }
  }

  lemma TotalNodesAppend(rs: seq<Computed>, r: Computed)
    ensures TotalNodes(rs + [r]) == TotalNodes(rs) + r.nodes
    decreases |rs|
  {
    if rs != [] {
      assert (rs + [r])[1..] == rs[1..] + [r];
      TotalNodesAppend(rs[1..], r);
    }
  }

  lemma TotalNodesConcat(rs: seq<Computed>, ts: seq<Computed>)
    ensures TotalNodes(rs + ts) == TotalNodes(rs) + TotalNodes(ts)
    decreases |rs|
  {
    if rs == [] {
      assert rs + ts == ts;
    } else {
      assert (rs + ts)[1..] == rs[1..] + ts;
      TotalNodesConcat(rs[1..], ts);
    }
  }

  /** Forking one more applied move adds its outcomes' tasks after the others. */
  lemma ForkedAppend(prefix: seq<Move>, m: Move, depth: nat, maxDepth: nat, alpha: real, beta: real, maximizing: bool)
    requires depth > 0
    requires ExpectimaxMovementBot.AllApplied(prefix) && m.outcomes.Applied?
    ensures var before := Forked(Children(prefix), depth, maxDepth, alpha, beta, maximizing);
      var added := Forked(States(m.outcomes.options), depth, maxDepth, alpha, beta, maximizing);
      var after := Forked(Children(prefix + [m]), depth, maxDepth, alpha, beta, maximizing);
      Results(after) == Results(before) + Results(added) && TotalNodes(after) == TotalNodes(before) + TotalNodes(added)
  {
    var before := Forked(Children(prefix), depth, maxDepth, alpha, beta, maximizing);
    var added := Forked(States(m.outcomes.options), depth, maxDepth, alpha, beta, maximizing);
    ChildrenAppend(prefix, m);
    assert Forked(Children(prefix + [m]), depth, maxDepth, alpha, beta, maximizing) == before + added;
    TotalNodesConcat(before, added);
    assert Results(before + added) == Results(before) + Results(added);
  }

  class MultiThreadMinimax {
    const maxDepth: nat
    const treeAnalyzer: Instrumentation.TreeAnalyzer

    constructor (maxDepth: nat)
      ensures this.maxDepth == maxDepth && fresh(treeAnalyzer)
      ensures treeAnalyzer.nodesCount == 0 && treeAnalyzer.moveStartTime == 0 && treeAnalyzer.moveEndTime == 0
    {
      this.maxDepth := maxDepth;
      treeAnalyzer := new Instrumentation.TreeAnalyzer();
    }

    /**
     * `generateMakeMoveEvent`: invoke the root task with the window (MIN_COST, MAX_COST) as the
     * maximizing player; an exception out of the task ends the call before the second clock reading.
     */
    method GenerateMakeMoveEvent(gameState: Node, startTime: int, endTime: int) returns (event: Result<Option<MakeMoveEvent>>)
      modifies treeAnalyzer
      ensures var c := Compute(gameState, maxDepth, maxDepth, MIN_COST, MAX_COST, true);
        event == (if c.result.Success? then Success(c.result.value.event) else Failure) &&
        treeAnalyzer.nodesCount == old(treeAnalyzer.nodesCount) + c.nodes &&
        treeAnalyzer.moveStartTime == startTime &&
        treeAnalyzer.moveEndTime == (if c.result.Success? then endTime else old(treeAnalyzer.moveEndTime))
    {
      treeAnalyzer.StartMoveStopWatch(startTime);
      var result := ComputeTask(gameState, maxDepth, MIN_COST, MAX_COST, true);
      if result.Failure? {
        return Failure;
      }
      treeAnalyzer.EndMoveStopWatch(endTime);
      event := Success(result.value.event);
    }

    /** `MinimaxTask.compute`. */
    method ComputeTask(gameState: Node, depth: nat, alpha: real, beta: real, maximizing: bool) returns (r: Result<EventScore>)
      modifies treeAnalyzer`nodesCount
      ensures r == Compute(gameState, depth, maxDepth, alpha, beta, maximizing).result
      ensures treeAnalyzer.nodesCount == old(treeAnalyzer.nodesCount) + Compute(gameState, depth, maxDepth, alpha, beta, maximizing).nodes
      decreases depth, 2, 0
    {
      treeAnalyzer.IncrementNodesCount();
      if depth == 0 || gameState.ended {
        return Success(EventScore(None, gameState.value));
      }
      var possibleMoves := gameState.moves;
      var role := maximizing;
      if |possibleMoves| == 0 {
        if depth == maxDepth {
          return Success(EventScore(None, if maximizing then MIN_COST else MAX_COST));
        }
        possibleMoves := gameState.passMoves;
        role := !maximizing;
      }
      if role {
        r := Maximize(depth, alpha, beta, possibleMoves);
      } else {
        r := Minimize(depth, alpha, beta, possibleMoves);
      }
    }

    /** `maximize`. */
    method Maximize(depth: nat, alpha: real, beta: real, possibleMoves: seq<Move>) returns (bestResult: Result<EventScore>)
      requires depth > 0
      modifies treeAnalyzer`nodesCount
      ensures bestResult == ForkJoin(possibleMoves, depth, maxDepth, alpha, beta, true).result
      ensures treeAnalyzer.nodesCount == old(treeAnalyzer.nodesCount) + ForkJoin(possibleMoves, depth, maxDepth, alpha, beta, true).nodes
      decreases depth, 1, 2
    {
      bestResult := Success(EventScore(None, MIN_COST));
      var results, applied := ForkTasks(possibleMoves, depth, alpha, beta, true);
      if !applied {
        return;
      }
      bestResult := JoinTasks(results, possibleMoves, true, alpha, beta);
    }

    /** `minimize`. */
    method Minimize(depth: nat, alpha: real, beta: real, possibleMoves: seq<Move>) returns (bestResult: Result<EventScore>)
      requires depth > 0
      modifies treeAnalyzer`nodesCount
      ensures bestResult == ForkJoin(possibleMoves, depth, maxDepth, alpha, beta, false).result
      ensures treeAnalyzer.nodesCount == old(treeAnalyzer.nodesCount) + ForkJoin(possibleMoves, depth, maxDepth, alpha, beta, false).nodes
      decreases depth, 1, 2
    {
      bestResult := Success(EventScore(None, MAX_COST));
      var results, applied := ForkTasks(possibleMoves, depth, alpha, beta, false);
      if !applied {
        return;
      }
      bestResult := JoinTasks(results, possibleMoves, false, alpha, beta);
    }

    /** The fork loops: one task per outcome of each move, until `getPossibleState` rejects a move. */
    method ForkTasks(possibleMoves: seq<Move>, depth: nat, alpha: real, beta: real, maximizing: bool)
      returns (results: seq<Result<EventScore>>, applied: bool)
      requires depth > 0
      modifies treeAnalyzer`nodesCount
      ensures applied == ExpectimaxMovementBot.AllApplied(possibleMoves)
      ensures results == Results(Forked(Children(possibleMoves), depth, maxDepth, alpha, beta, maximizing))
      ensures treeAnalyzer.nodesCount == old(treeAnalyzer.nodesCount) + TotalNodes(Forked(Children(possibleMoves), depth, maxDepth, alpha, beta, maximizing))
      decreases depth, 1, 1
    {
      results := [];
      for i := 0 to |possibleMoves|
        invariant ExpectimaxMovementBot.AllApplied(possibleMoves[..i])
        invariant results == Results(Forked(Children(possibleMoves[..i]), depth, maxDepth, alpha, beta, maximizing))
        invariant treeAnalyzer.nodesCount == old(treeAnalyzer.nodesCount) + TotalNodes(Forked(Children(possibleMoves[..i]), depth, maxDepth, alpha, beta, maximizing))
      {
        var move := possibleMoves[i];
        assert possibleMoves == possibleMoves[..i] + possibleMoves[i..];
        if move.outcomes.Rejected? {
          ChildrenRejected(possibleMoves[..i], possibleMoves[i..]);
          assert move in possibleMoves;
          return results, false;
        }
        var forked := ForkOutcomes(move.outcomes.options, depth, alpha, beta, maximizing);
        assert possibleMoves[..i + 1] == possibleMoves[..i] + [move];
        ForkedAppend(possibleMoves[..i], move, depth, maxDepth, alpha, beta, maximizing);
        results := results + forked;
      }
      assert possibleMoves[..|possibleMoves|] == possibleMoves;
      applied := true;
    }

    /** The inner fork loop over one move's outcomes. */
    method ForkOutcomes(possibleStates: seq<StateChance>, depth: nat, alpha: real, beta: real, maximizing: bool)
      returns (results: seq<Result<EventScore>>)
      requires depth > 0
      modifies treeAnalyzer`nodesCount
      ensures results == Results(Forked(States(possibleStates), depth, maxDepth, alpha, beta, maximizing))
      ensures treeAnalyzer.nodesCount == old(treeAnalyzer.nodesCount) + TotalNodes(Forked(States(possibleStates), depth, maxDepth, alpha, beta, maximizing))
      decreases depth, 1, 0
    {
      ghost var forked := Forked(States(possibleStates), depth, maxDepth, alpha, beta, maximizing);
      results := [];
      for j := 0 to |possibleStates|
        invariant |results| == j
        invariant forall k :: 0 <= k < j ==> results[k] == forked[k].result
        invariant treeAnalyzer.nodesCount == old(treeAnalyzer.nodesCount) + TotalNodes(forked[..j])
      {
        var result := ComputeTask(possibleStates[j].state, depth - 1, alpha, beta, maximizing);
        results := results + [result];
        assert forked[..j + 1] == forked[..j] + [forked[j]];
        TotalNodesAppend(forked[..j], forked[j]);
      }
      assert forked[..|possibleStates|] == forked;
      assert results == Results(forked);
    }
  }

  /** The join loop of `maximize` (`>`, raising alpha) or `minimize` (`<`, lowering beta). */
  method JoinTasks(results: seq<Result<EventScore>>, possibleMoves: seq<Move>, maximizing: bool, alpha: real, beta: real)
    returns (bestResult: Result<EventScore>)
    ensures bestResult == JoinFold(results, 0, possibleMoves, maximizing, Initial(maximizing), alpha, beta)
  {
    var best := EventScore(None, if maximizing then MIN_COST else MAX_COST);
    var a, b := alpha, beta;
    var i := 0;
    while i < |results|
      invariant i <= |results|
      invariant JoinFold(results, i, possibleMoves, maximizing, best, a, b) == JoinFold(results, 0, possibleMoves, maximizing, Initial(maximizing), alpha, beta)
      decreases |results| - i
    {
      var result := results[i];
      if result.Failure? {
        return Failure;
      }
      var score := result.value.score;
      if (maximizing && score > best.score) || (!maximizing && score < best.score) {
        if i / 2 >= |possibleMoves| {
          return Failure;
        }
        best := EventScore(Some(possibleMoves[i / 2].event), score);
      }
      if maximizing {
        a := AlphaBetaMinimaxBot.Max(a, best.score);
      } else {
        b := AlphaBetaMinimaxBot.Min(b, best.score);
      }
      if b <= a {
        return Success(best);
      }
      i := i + 1;
    }
    bestResult := Success(best);
  }
}
