/**
 * movement_stage/MultiThreadExpectimaxBot: movement_stage/ExpectimaxBot with its max nodes
 * split into tasks. A max node forks one `ExpectimaxTask` per collected state, then joins them
 * in fork order; a chance node computes its tasks one after another. Forking is modelled as
 * computing the task on the spot; joining reads that result.
 */
module MultiThreadExpectimaxBot {
  import opened Wrappers
  import opened Game
  import opened Search
  import opened MovementBotUtil
  import opened Doubles
  import Instrumentation
  import ExpectimaxBot

  type Scored = ExpectimaxBot.Scored
  type Searched = ExpectimaxBot.Searched
  type Sum = ExpectimaxBot.Sum

  /** An `ExpectimaxTask`: the state it searches (with how it was reached), the depth left and its role. */
  datatype ExpectimaxTask = ExpectimaxTask(state: State, depth: nat, maximizing: bool)

  /** `ExpectimaxTask.compute`. */
  function Compute(n: Node, depth: nat, maxDepth: nat, maximizing: bool): Searched
    decreases depth, 3, 0
  {
    if depth == 0 || n.ended then ExpectimaxBot.Searched(ExpectimaxBot.Scored(None, Finite(n.value)), 1)
    else if n.moves == [] && depth == maxDepth then
      ExpectimaxBot.Searched(ExpectimaxBot.Scored(None, Finite(if maximizing then MIN_COST else 0.0)), 1)
    else
      var moves := WithoutUnnecessary(ExpandedMoves(n));
      var e := if ExpandedRole(n, maximizing) then ForkJoin(moves, depth, maxDepth) else Expect(moves, depth, maxDepth);
      ExpectimaxBot.Searched(e.result, e.nodes + 1)
  }

  /** `maximize`: fork a task per collected state, then fold the joined results. */
  function ForkJoin(moves: seq<Move>, depth: nat, maxDepth: nat): Searched
    requires depth > 0
    decreases depth, 2, 0
  {
    match PossibleStates(moves)
    case Failure => ExpectimaxBot.Searched(ExpectimaxBot.InitialMax, 0)
    case Success(states) =>
      var forked := Forked(states, depth, maxDepth);
      ExpectimaxBot.Searched(JoinFold(Tasks(states, depth - 1, true), Results(forked), ExpectimaxBot.InitialMax), TotalNodes(forked))
  }

  /** The tasks forked for the collected states, in order. */
  function Tasks(states: seq<State>, depth: nat, maximizing: bool): (ts: seq<ExpectimaxTask>)
    ensures |ts| == |states|
    ensures forall i :: 0 <= i < |states| ==> ts[i] == ExpectimaxTask(states[i], depth, maximizing)
  {
    seq(|states|, i requires 0 <= i < |states| => ExpectimaxTask(states[i], depth, maximizing))
  }

  /** The results of the forked max tasks, one per collected state, in fork order. */
  function Forked(states: seq<State>, depth: nat, maxDepth: nat): (rs: seq<Searched>)
    requires depth > 0
    ensures |rs| == |states|
    ensures forall i :: 0 <= i < |states| ==> rs[i] == Compute(states[i].gameState, depth - 1, maxDepth, true)
    decreases depth, 1, 0
  {
    seq(|states|, i requires 0 <= i < |states| => Compute(states[i].gameState, depth - 1, maxDepth, true))
  }

  /** What joining each task returns. */
  function Results(rs: seq<Searched>): (es: seq<Scored>)
    ensures |es| == |rs|
    ensures forall i :: 0 <= i < |rs| ==> es[i] == rs[i].result
  {
    seq(|rs|, i requires 0 <= i < |rs| => rs[i].result)
  }

  /** The join loop: weight each joined score by its task's probability and keep the strictly greater. */
  function JoinFold(tasks: seq<ExpectimaxTask>, joined: seq<Scored>, best: Scored): Scored
    requires |joined| == |tasks|
  {
    if tasks == [] then best
    else JoinFold(tasks[1..], joined[1..], JoinStep(tasks[0], joined[0], best))
  }

  function JoinStep(task: ExpectimaxTask, joined: Scored, best: Scored): Scored
  {
    var w := Mul(joined.score, task.state.probability);
    if Gt(w, best.score) then ExpectimaxBot.Scored(Some(task.state.lastMove), w) else best
  }

  function TotalNodes(rs: seq<Searched>): nat
  {
    if rs == [] then 0 else rs[0].nodes + TotalNodes(rs[1..])
  }

  /** `expect`: the tasks are computed in turn; the weighted sum is divided by the number of states. */
  function Expect(moves: seq<Move>, depth: nat, maxDepth: nat): Searched
    requires depth > 0
    decreases depth, 2, 0
  {
    match PossibleStates(moves)
    case Failure => ExpectimaxBot.Searched(ExpectimaxBot.InitialExpect, 0)
    case Success(states) =>
      var sum := FoldCompute(states, depth, maxDepth, ExpectimaxBot.Sum(Finite(0.0), 0));
      ExpectimaxBot.Searched(ExpectimaxBot.Scored(None, DivCount(sum.total, |states|)), sum.nodes)
  }

  function FoldCompute(states: seq<State>, depth: nat, maxDepth: nat, acc: Sum): Sum
    requires depth > 0
    decreases depth, 1, |states|
  {
    if states == [] then acc
    else FoldCompute(states[1..], depth, maxDepth, ComputeStep(states[0], depth, maxDepth, acc))
  }

  function ComputeStep(s: State, depth: nat, maxDepth: nat, acc: Sum): Sum
    requires depth > 0
    decreases depth, 0, 0
  {
    var child := Compute(s.gameState, depth - 1, maxDepth, false);
    ExpectimaxBot.Sum(Add(acc.total, Mul(child.result.score, s.probability)), acc.nodes + child.nodes)
  }

  lemma JoinFoldUnfold(tasks: seq<ExpectimaxTask>, joined: seq<Scored>, i: nat, best: Scored)
    requires |joined| == |tasks| && i < |tasks|
    ensures JoinFold(tasks[i..], joined[i..], best) == JoinFold(tasks[i + 1..], joined[i + 1..], JoinStep(tasks[i], joined[i], best))
  {
    assert tasks[i..][1..] == tasks[i + 1..] && joined[i..][1..] == joined[i + 1..];
  }

  lemma FoldComputeUnfold(states: seq<State>, i: nat, depth: nat, maxDepth: nat, acc: Sum)
    requires depth > 0 && i < |states|
    ensures FoldCompute(states[i..], depth, maxDepth, acc) == FoldCompute(states[i + 1..], depth, maxDepth, ComputeStep(states[i], depth, maxDepth, acc))
  {
    assert states[i..][1..] == states[i + 1..];
  }

  /** Forking one more state adds its task, its result and its nodes after the others. */
  lemma ForkedPrefixStep(states: seq<State>, i: nat, depth: nat, maxDepth: nat)
    requires depth > 0 && i < |states|
    ensures Tasks(states[..i + 1], depth - 1, true) == Tasks(states[..i], depth - 1, true) + [ExpectimaxTask(states[i], depth - 1, true)]
    ensures var c := Compute(states[i].gameState, depth - 1, maxDepth, true);
      Results(Forked(states[..i + 1], depth, maxDepth)) == Results(Forked(states[..i], depth, maxDepth)) + [c.result] &&
      TotalNodes(Forked(states[..i + 1], depth, maxDepth)) == TotalNodes(Forked(states[..i], depth, maxDepth)) + c.nodes
  {
    var c := Compute(states[i].gameState, depth - 1, maxDepth, true);
    assert Forked(states[..i + 1], depth, maxDepth) == Forked(states[..i], depth, maxDepth) + [c];
    TotalNodesAppend(Forked(states[..i], depth, maxDepth), c);
  }

  lemma TotalNodesAppend(rs: seq<Searched>, r: Searched)
    ensures TotalNodes(rs + [r]) == TotalNodes(rs) + r.nodes
    decreases |rs|
  {
    if rs != [] {
      assert (rs + [r])[1..] == rs[1..] + [r];
      TotalNodesAppend(rs[1..], r);
    }
  }

  /** Children that the two searches agree on, for the role each kind of node gives them. */
  predicate ChildrenAgree(states: seq<State>, depth: nat, maxDepth: nat, maximizing: bool)
    requires depth > 0
  {
    forall i :: 0 <= i < |states| ==>
      Compute(states[i].gameState, depth - 1, maxDepth, maximizing) ==
      ExpectimaxBot.Expectimax(states[i].gameState, depth - 1, maxDepth, maximizing)
  }

  lemma ChildrenAgreeTail(states: seq<State>, depth: nat, maxDepth: nat, maximizing: bool)
    requires depth > 0 && states != [] && ChildrenAgree(states, depth, maxDepth, maximizing)
    ensures ChildrenAgree(states[1..], depth, maxDepth, maximizing)
  {
    forall i | 0 <= i < |states| - 1
      ensures Compute(states[1..][i].gameState, depth - 1, maxDepth, maximizing) ==
        ExpectimaxBot.Expectimax(states[1..][i].gameState, depth - 1, maxDepth, maximizing)
    {
      assert states[1..][i] == states[i + 1];
    }
  }

  /** Joining the forked tasks in order is the sequential max loop, with the same node total. */
  lemma {:induction false} JoinIsFoldMax(states: seq<State>, depth: nat, maxDepth: nat, acc: Searched)
    requires depth > 0 && ChildrenAgree(states, depth, maxDepth, true)
    ensures JoinFold(Tasks(states, depth - 1, true), Results(Forked(states, depth, maxDepth)), acc.result) ==
      ExpectimaxBot.FoldMax(states, depth, maxDepth, acc).result
    ensures acc.nodes + TotalNodes(Forked(states, depth, maxDepth)) == ExpectimaxBot.FoldMax(states, depth, maxDepth, acc).nodes
    decreases |states|
  {
    if states != [] {
      var forked := Forked(states, depth, maxDepth);
      var tasks := Tasks(states, depth - 1, true);
      var joined := Results(forked);
      var next := ExpectimaxBot.MaxStep(states[0], depth, maxDepth, acc);
      assert forked[0] == ExpectimaxBot.Expectimax(states[0].gameState, depth - 1, maxDepth, true);
      assert JoinStep(tasks[0], joined[0], acc.result) == next.result;
      assert Forked(states[1..], depth, maxDepth) == forked[1..];
      assert Tasks(states[1..], depth - 1, true) == tasks[1..];
      assert Results(forked[1..]) == joined[1..];
      ChildrenAgreeTail(states, depth, maxDepth, true);
      JoinIsFoldMax(states[1..], depth, maxDepth, next);
    }
  }

  /** Computing a chance node's tasks in order is the sequential expectation loop. */
  lemma {:induction false} FoldComputeIsFoldExpect(states: seq<State>, depth: nat, maxDepth: nat, acc: Sum)
    requires depth > 0 && ChildrenAgree(states, depth, maxDepth, false)
    ensures FoldCompute(states, depth, maxDepth, acc) == ExpectimaxBot.FoldExpect(states, depth, maxDepth, acc)
    decreases |states|
  {
    if states != [] {
      assert ComputeStep(states[0], depth, maxDepth, acc) == ExpectimaxBot.ExpectStep(states[0], depth, maxDepth, acc);
      ChildrenAgreeTail(states, depth, maxDepth, false);
      FoldComputeIsFoldExpect(states[1..], depth, maxDepth, ComputeStep(states[0], depth, maxDepth, acc));
    }
  }

  /**
   * On every tree the fork/join search returns the same (event, score) as
   * movement_stage/ExpectimaxBot and visits the same number of nodes.
   */
  lemma {:induction false} ComputeIsExpectimax(n: Node, depth: nat, maxDepth: nat, maximizing: bool)
    ensures Compute(n, depth, maxDepth, maximizing) == ExpectimaxBot.Expectimax(n, depth, maxDepth, maximizing)
    decreases depth, 3
  {
    if !(depth == 0 || n.ended) && !(n.moves == [] && depth == maxDepth) {
      var moves := WithoutUnnecessary(ExpandedMoves(n));
      if PossibleStates(moves).Success? {
        var states := PossibleStates(moves).value;
        if ExpandedRole(n, maximizing) {
          ChildrenComputeAsExpectimax(states, depth, maxDepth, true);
          JoinIsFoldMax(states, depth, maxDepth, ExpectimaxBot.Searched(ExpectimaxBot.InitialMax, 0));
        } else {
          ChildrenComputeAsExpectimax(states, depth, maxDepth, false);
          FoldComputeIsFoldExpect(states, depth, maxDepth, ExpectimaxBot.Sum(Finite(0.0), 0));
        }
      }
    }
  }

  lemma {:induction false} ChildrenComputeAsExpectimax(states: seq<State>, depth: nat, maxDepth: nat, maximizing: bool)
    requires depth > 0
    ensures ChildrenAgree(states, depth, maxDepth, maximizing)
    decreases depth, 2
  {
    forall i | 0 <= i < |states|
      ensures Compute(states[i].gameState, depth - 1, maxDepth, maximizing) ==
        ExpectimaxBot.Expectimax(states[i].gameState, depth - 1, maxDepth, maximizing)
    {
      ComputeIsExpectimax(states[i].gameState, depth - 1, maxDepth, maximizing);
    }
  }

  class MultiThreadExpectimaxBot {
    const maxDepth: nat
    const treeAnalyzer: Instrumentation.TreeAnalyzer

    constructor (maxDepth: nat)
      ensures this.maxDepth == maxDepth && fresh(treeAnalyzer)
      ensures treeAnalyzer.nodesCount == 0 && treeAnalyzer.moveStartTime == 0 && treeAnalyzer.moveEndTime == 0
    {
      this.maxDepth := maxDepth;
      treeAnalyzer := new Instrumentation.TreeAnalyzer();
    }

    /** `generateMakeMoveEvent`: invoke the root task, reached with probability 1 and no move, as a max node. */
    method GenerateMakeMoveEvent(gameState: Node, startTime: int, endTime: int) returns (event: Option<MakeMoveEvent>)
      modifies treeAnalyzer
      ensures event == Compute(gameState, maxDepth, maxDepth, true).result.event
      ensures treeAnalyzer.nodesCount == old(treeAnalyzer.nodesCount) + Compute(gameState, maxDepth, maxDepth, true).nodes
      ensures treeAnalyzer.moveStartTime == startTime && treeAnalyzer.moveEndTime == endTime
    {
      treeAnalyzer.StartMoveStopWatch(startTime);
      var result := ComputeTask(gameState, maxDepth, true);
      treeAnalyzer.EndMoveStopWatch(endTime);
      event := result.event;
    }

    /** `ExpectimaxTask.compute` for a task on `gameState` with `depth` left. */
    method ComputeTask(gameState: Node, depth: nat, maximizing: bool) returns (r: Scored)
      modifies treeAnalyzer`nodesCount
      ensures r == Compute(gameState, depth, maxDepth, maximizing).result
      ensures treeAnalyzer.nodesCount == old(treeAnalyzer.nodesCount) + Compute(gameState, depth, maxDepth, maximizing).nodes
      decreases depth, 3, 0
    {
      treeAnalyzer.IncrementNodesCount();
      if depth == 0 || gameState.ended {
        return ExpectimaxBot.Scored(None, Finite(gameState.value));
      }
      var possibleMoves := gameState.moves;
      var role := maximizing;
      if |possibleMoves| == 0 {
        if depth == maxDepth {
          return ExpectimaxBot.Scored(None, Finite(if maximizing then MIN_COST else 0.0));
        }
        possibleMoves := gameState.passMoves;
        role := !maximizing;
      }
      possibleMoves := RemoveUnnecessaryMoves(possibleMoves);
      if role {
        r := Maximize(possibleMoves, depth);
      } else {
        r := ExpectTasks(possibleMoves, depth);
      }
    }

    /** The fork loop of `maximize`: one max task per collected state, computed in order. */
    method ForkTasks(possibleStates: seq<State>, depth: nat) returns (tasks: seq<ExpectimaxTask>, joined: seq<Scored>)
      requires depth > 0
      modifies treeAnalyzer`nodesCount
      ensures tasks == Tasks(possibleStates, depth - 1, true)
      ensures joined == Results(Forked(possibleStates, depth, maxDepth))
      ensures treeAnalyzer.nodesCount == old(treeAnalyzer.nodesCount) + TotalNodes(Forked(possibleStates, depth, maxDepth))
      decreases depth, 1, 0
    {
      tasks := [];
      joined := [];
      for i := 0 to |possibleStates|
        invariant tasks == Tasks(possibleStates[..i], depth - 1, true)
        invariant joined == Results(Forked(possibleStates[..i], depth, maxDepth))
        invariant treeAnalyzer.nodesCount == old(treeAnalyzer.nodesCount) + TotalNodes(Forked(possibleStates[..i], depth, maxDepth))
      {
        var task := ExpectimaxTask(possibleStates[i], depth - 1, true);
        ghost var child := Compute(possibleStates[i].gameState, depth - 1, maxDepth, true);
        ghost var before := treeAnalyzer.nodesCount;
        var result := ComputeTask(task.state.gameState, task.depth, task.maximizing);
        assert result == child.result && treeAnalyzer.nodesCount == before + child.nodes;
        ForkedPrefixStep(possibleStates, i, depth, maxDepth);
        tasks := tasks + [task];
        joined := joined + [result];
      }
      assert possibleStates[..|possibleStates|] == possibleStates;
    }

    /** `maximize`: fork every task, then join them in order keeping the strictly greater weighted score. */
    method Maximize(possibleMoves: seq<Move>, depth: nat) returns (bestResult: Scored)
      requires depth > 0
      modifies treeAnalyzer`nodesCount
      ensures bestResult == ForkJoin(possibleMoves, depth, maxDepth).result
      ensures treeAnalyzer.nodesCount == old(treeAnalyzer.nodesCount) + ForkJoin(possibleMoves, depth, maxDepth).nodes
      decreases depth, 2, 0
    {
      bestResult := ExpectimaxBot.InitialMax;
      var collected := CollectPossibleStates(possibleMoves);
      if collected.Failure? {
        return;
      }
      var tasks, joined := ForkTasks(collected.value, depth);
      bestResult := JoinTasks(tasks, joined);
    }

    /** `expect`: compute each chance task in turn and average the weighted scores. */
    method ExpectTasks(possibleMoves: seq<Move>, depth: nat) returns (bestResult: Scored)
      requires depth > 0
      modifies treeAnalyzer`nodesCount
      ensures bestResult == Expect(possibleMoves, depth, maxDepth).result
      ensures treeAnalyzer.nodesCount == old(treeAnalyzer.nodesCount) + Expect(possibleMoves, depth, maxDepth).nodes
      decreases depth, 2, 0
    {
      var expectedValue := Finite(0.0);
      bestResult := ExpectimaxBot.InitialExpect;
      var collected := CollectPossibleStates(possibleMoves);
      if collected.Failure? {
        return;
      }
      var possibleStates := collected.value;
      ghost var start := treeAnalyzer.nodesCount;
      for i := 0 to |possibleStates|
        invariant treeAnalyzer.nodesCount >= start
        invariant FoldCompute(possibleStates[i..], depth, maxDepth, ExpectimaxBot.Sum(expectedValue, treeAnalyzer.nodesCount - start)) ==
          FoldCompute(possibleStates, depth, maxDepth, ExpectimaxBot.Sum(Finite(0.0), 0))
      {
        var state := possibleStates[i];
        ghost var acc := ExpectimaxBot.Sum(expectedValue, treeAnalyzer.nodesCount - start);
        FoldComputeUnfold(possibleStates, i, depth, maxDepth, acc);
        var task := ExpectimaxTask(state, depth - 1, false);
        var result := ComputeTask(task.state.gameState, task.depth, task.maximizing);
        ghost var child := Compute(state.gameState, depth - 1, maxDepth, false);
        assert result == child.result;
        expectedValue := Add(expectedValue, Mul(result.score, state.probability));
        assert expectedValue == ComputeStep(state, depth, maxDepth, acc).total;
        assert ExpectimaxBot.Sum(expectedValue, treeAnalyzer.nodesCount - start) == ComputeStep(state, depth, maxDepth, acc);
      }
      expectedValue := DivCount(expectedValue, |possibleStates|);
      bestResult := ExpectimaxBot.Scored(None, expectedValue);
    }
  }

  /** The join loop of `maximize`, starting from (null, MIN_COST). */
  method JoinTasks(tasks: seq<ExpectimaxTask>, joined: seq<Scored>) returns (bestResult: Scored)
    requires |joined| == |tasks|
    ensures bestResult == JoinFold(tasks, joined, ExpectimaxBot.InitialMax)
  {
    bestResult := ExpectimaxBot.Scored(None, Finite(MIN_COST));
    for i := 0 to |tasks|
      invariant JoinFold(tasks[i..], joined[i..], bestResult) == JoinFold(tasks, joined, ExpectimaxBot.InitialMax)
    {
      JoinFoldUnfold(tasks, joined, i, bestResult);
      var task := tasks[i];
      var score := Mul(joined[i].score, task.state.probability);
      if Gt(score, bestResult.score) {
        bestResult := ExpectimaxBot.Scored(Some(task.state.lastMove), score);
      }
    }
  }
}
