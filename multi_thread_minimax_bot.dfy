/**
 * movement_stage/MultiThreadMinimaxBot: the same search as movement_stage/MinimaxBot, but each
 * node first forks one task per collected state and then joins and folds their results in
 * fork order. Forking is modelled as computing the task on the spot; joining reads that result.
 */
module MultiThreadMinimaxBot {
  import opened Wrappers
  import opened Game
  import opened Search
  import opened MovementBotUtil
  import Instrumentation
  import MinimaxBot

  /** A `MinimaxTask`: the state it searches, how it was reached, the depth left and its role. */
  datatype MinimaxTask = MinimaxTask(moveStateProbability: State, depth: nat, maximizing: bool)

  /** `MinimaxTask.compute`. */
  function Compute(n: Node, depth: nat, maxDepth: nat, maximizing: bool): Explored
    decreases depth, 2
  {
    if depth == 0 || n.ended then Explored(EventScore(None, n.value), 1)
    else if n.moves == [] && depth == maxDepth then Explored(Initial(maximizing), 1)
    else
      var e := ForkJoin(WithoutUnnecessary(ExpandedMoves(n)), depth, maxDepth, ExpandedRole(n, maximizing));
      Explored(e.result, e.nodes + 1)
  }

  /** `maximize` / `minimize`: fork a task per collected state, then fold the joined results. */
  function ForkJoin(moves: seq<Move>, depth: nat, maxDepth: nat, maximizing: bool): Explored
    requires depth > 0
    decreases depth, 1
  {
    match PossibleStates(moves)
    case Failure => Explored(Initial(maximizing), 0)
    case Success(states) =>
      var forked := Forked(states, depth, maxDepth, maximizing);
      Explored(JoinFold(Tasks(states, depth - 1, maximizing), Results(forked), maximizing, Initial(maximizing)), TotalNodes(forked))
  }

  /** The tasks forked for the collected states, in order. */
  function Tasks(states: seq<State>, depth: nat, maximizing: bool): (ts: seq<MinimaxTask>)
    ensures |ts| == |states|
    ensures forall i :: 0 <= i < |states| ==> ts[i] == MinimaxTask(states[i], depth, maximizing)
  {
    seq(|states|, i requires 0 <= i < |states| => MinimaxTask(states[i], depth, maximizing))
  }

  /** What joining each task returns. */
  function Results(rs: seq<Explored>): (es: seq<EventScore>)
    ensures |es| == |rs|
    ensures forall i :: 0 <= i < |rs| ==> es[i] == rs[i].result
  {
    seq(|rs|, i requires 0 <= i < |rs| => rs[i].result)
  }

  /** The results of the forked tasks, one per collected state, in fork order. */
  function Forked(states: seq<State>, depth: nat, maxDepth: nat, maximizing: bool): (rs: seq<Explored>)
    requires depth > 0
    ensures |rs| == |states|
    ensures forall i :: 0 <= i < |states| ==> rs[i] == Compute(states[i].gameState, depth - 1, maxDepth, maximizing)
    decreases depth, 0
  {
    seq(|states|, i requires 0 <= i < |states| => Compute(states[i].gameState, depth - 1, maxDepth, maximizing))
  }

  /** The join loop: weight each joined score by its task's probability and keep the strictly better. */
  function JoinFold(tasks: seq<MinimaxTask>, joined: seq<EventScore>, maximizing: bool, best: EventScore): EventScore
    requires |joined| == |tasks|
  {
    if tasks == [] then best
    else JoinFold(tasks[1..], joined[1..], maximizing, JoinStep(tasks[0], joined[0], maximizing, best))
  }

  function JoinStep(task: MinimaxTask, joined: EventScore, maximizing: bool, best: EventScore): EventScore
  {
    var w := joined.score * task.moveStateProbability.probability;
    if Better(w, best.score, maximizing) then EventScore(Some(task.moveStateProbability.lastMove), w) else best
  }

  function TotalNodes(rs: seq<Explored>): nat
  {
    if rs == [] then 0 else TotalNodes(rs[..|rs| - 1]) + rs[|rs| - 1].nodes
  }

  /** Forking one more state adds its task, its result and its nodes after the others. */
  lemma ForkedPrefixStep(states: seq<State>, i: nat, depth: nat, maxDepth: nat, maximizing: bool)
    requires depth > 0 && i < |states|
    ensures Tasks(states[..i + 1], depth - 1, maximizing) == Tasks(states[..i], depth - 1, maximizing) + [MinimaxTask(states[i], depth - 1, maximizing)]
    ensures var c := Compute(states[i].gameState, depth - 1, maxDepth, maximizing);
      Results(Forked(states[..i + 1], depth, maxDepth, maximizing)) == Results(Forked(states[..i], depth, maxDepth, maximizing)) + [c.result] &&
      TotalNodes(Forked(states[..i + 1], depth, maxDepth, maximizing)) == TotalNodes(Forked(states[..i], depth, maxDepth, maximizing)) + c.nodes
  {
    var after := Forked(states[..i + 1], depth, maxDepth, maximizing);
    assert after[..i] == Forked(states[..i], depth, maxDepth, maximizing);
  }

  lemma {:induction false} TotalNodesFront(rs: seq<Explored>)
    requires rs != []
    ensures TotalNodes(rs) == rs[0].nodes + TotalNodes(rs[1..])
    decreases |rs|
  {
    if |rs| > 1 {
      var init := rs[..|rs| - 1];
      TotalNodesFront(init);
      assert init[1..] == rs[1..][..|rs[1..]| - 1];
      assert init[0] == rs[0];
    } else {
      assert rs[..0] == [] && rs[1..] == [];
    }
  }

  /** Joining in fork order is the sequential fold over the same candidates. */
  lemma {:induction false} JoinFoldIsFoldBest(tasks: seq<MinimaxTask>, joined: seq<EventScore>, cands: seq<Candidate>, maximizing: bool, best: EventScore)
    requires |joined| == |tasks| == |cands|
    requires forall i :: 0 <= i < |tasks| ==>
      cands[i] == Candidate(tasks[i].moveStateProbability.lastMove, joined[i].score * tasks[i].moveStateProbability.probability)
    ensures JoinFold(tasks, joined, maximizing, best) == FoldBest(cands, maximizing, best)
    decreases |tasks|
  {
    if tasks != [] {
      var next := JoinStep(tasks[0], joined[0], maximizing, best);
      assert FoldBest(cands, maximizing, best) == FoldBest(cands[1..], maximizing, next);
      forall i | 0 <= i < |tasks| - 1
        ensures cands[1..][i] == Candidate(tasks[1..][i].moveStateProbability.lastMove, joined[1..][i].score * tasks[1..][i].moveStateProbability.probability)
      {
        assert cands[1..][i] == cands[i + 1];
      }
      JoinFoldIsFoldBest(tasks[1..], joined[1..], cands[1..], maximizing, next);
    }
  }

  lemma JoinFoldUnfold(tasks: seq<MinimaxTask>, joined: seq<EventScore>, i: nat, maximizing: bool, best: EventScore)
    requires |joined| == |tasks| && i < |tasks|
    ensures JoinFold(tasks[i..], joined[i..], maximizing, best) ==
      JoinFold(tasks[i + 1..], joined[i + 1..], maximizing, JoinStep(tasks[i], joined[i], maximizing, best))
  {
    assert tasks[i..][1..] == tasks[i + 1..] && joined[i..][1..] == joined[i + 1..];
  }

  lemma {:induction false} TotalIsChildNodes(states: seq<State>, depth: nat, maxDepth: nat, maximizing: bool)
    requires depth > 0
    requires forall i :: 0 <= i < |states| ==>
      Compute(states[i].gameState, depth - 1, maxDepth, maximizing) == MinimaxBot.Minimax(states[i].gameState, depth - 1, maxDepth, maximizing)
    ensures TotalNodes(Forked(states, depth, maxDepth, maximizing)) == MinimaxBot.ChildNodes(states, depth, maxDepth, maximizing)
    decreases |states|
  {
    if states != [] {
      var rs := Forked(states, depth, maxDepth, maximizing);
      TotalNodesFront(rs);
      assert Forked(states[1..], depth, maxDepth, maximizing) == rs[1..];
      forall i | 0 <= i < |states| - 1
        ensures Compute(states[1..][i].gameState, depth - 1, maxDepth, maximizing) == MinimaxBot.Minimax(states[1..][i].gameState, depth - 1, maxDepth, maximizing)
      {
        assert states[1..][i] == states[i + 1];
      }
      TotalIsChildNodes(states[1..], depth, maxDepth, maximizing);
    }
  }

  /**
   * On every tree the fork/join search returns the same (event, score) as movement_stage/MinimaxBot
   * and visits the same number of nodes.
   */
  lemma {:induction false} ComputeIsMinimax(n: Node, depth: nat, maxDepth: nat, maximizing: bool)
    ensures Compute(n, depth, maxDepth, maximizing) == MinimaxBot.Minimax(n, depth, maxDepth, maximizing)
    decreases depth, 2
  {
    if !(depth == 0 || n.ended) && !(n.moves == [] && depth == maxDepth) {
      ForkJoinIsExpand(WithoutUnnecessary(ExpandedMoves(n)), depth, maxDepth, ExpandedRole(n, maximizing));
    }
  }

  /** A node's fork/join expansion equals the sequential expansion of the same moves. */
  lemma {:induction false} ForkJoinIsExpand(moves: seq<Move>, depth: nat, maxDepth: nat, maximizing: bool)
    requires depth > 0
    ensures ForkJoin(moves, depth, maxDepth, maximizing) == MinimaxBot.Expand(moves, depth, maxDepth, maximizing)
    decreases depth, 1
  {
    MinimaxBot.ExpandChoosesFirstBest(moves, depth, maxDepth, maximizing);
    if PossibleStates(moves).Success? {
      var states := PossibleStates(moves).value;
      ChildrenAgree(states, depth, maxDepth, maximizing);
      var forked := Forked(states, depth, maxDepth, maximizing);
      var cands := MinimaxBot.Candidates(states, depth, maxDepth, maximizing);
      JoinFoldIsFoldBest(Tasks(states, depth - 1, maximizing), Results(forked), cands, maximizing, Initial(maximizing));
      TotalIsChildNodes(states, depth, maxDepth, maximizing);
    }
  }

  lemma {:induction false} ChildrenAgree(states: seq<State>, depth: nat, maxDepth: nat, maximizing: bool)
    requires depth > 0
    ensures forall i :: 0 <= i < |states| ==>
      Compute(states[i].gameState, depth - 1, maxDepth, maximizing) == MinimaxBot.Minimax(states[i].gameState, depth - 1, maxDepth, maximizing)
    ensures forall i :: 0 <= i < |states| ==>
      MinimaxBot.Candidates(states, depth, maxDepth, maximizing)[i] ==
      Candidate(states[i].lastMove, Forked(states, depth, maxDepth, maximizing)[i].result.score * states[i].probability)
    decreases depth, 0
  {
    forall i | 0 <= i < |states|
      ensures Compute(states[i].gameState, depth - 1, maxDepth, maximizing) == MinimaxBot.Minimax(states[i].gameState, depth - 1, maxDepth, maximizing)
    {
      ComputeIsMinimax(states[i].gameState, depth - 1, maxDepth, maximizing);
    }
  }

  class MultiThreadMinimaxBot {
    const maxDepth: nat
    const treeAnalyzer: Instrumentation.TreeAnalyzer

    constructor (maxDepth: nat)
      ensures this.maxDepth == maxDepth && fresh(treeAnalyzer)
      ensures treeAnalyzer.nodesCount == 0 && treeAnalyzer.moveStartTime == 0 && treeAnalyzer.moveEndTime == 0
    {
      this.maxDepth := maxDepth;
      treeAnalyzer := new Instrumentation.TreeAnalyzer();
    }

    /** `generateMakeMoveEvent`: invoke the root task, reached with probability 1 and no move. */
    method GenerateMakeMoveEvent(gameState: Node, startTime: int, endTime: int) returns (event: Option<MakeMoveEvent>)
      modifies treeAnalyzer
      ensures event == Compute(gameState, maxDepth, maxDepth, true).result.event
      ensures treeAnalyzer.nodesCount == old(treeAnalyzer.nodesCount) + Compute(gameState, maxDepth, maxDepth, true).nodes
      ensures treeAnalyzer.moveStartTime == startTime && treeAnalyzer.moveEndTime == endTime
    {
      treeAnalyzer.StartMoveStopWatch(startTime);
      var result := ComputeTask(gameState, maxDepth, true);
      treeAnalyzer.EndMoveStopWatch(endTime);
      event := result.event;
    }

    /** `MinimaxTask.compute` for a task on `gameState` with `depth` left. */
    method ComputeTask(gameState: Node, depth: nat, maximizing: bool) returns (r: EventScore)
      modifies treeAnalyzer`nodesCount
      ensures r == Compute(gameState, depth, maxDepth, maximizing).result
      ensures treeAnalyzer.nodesCount == old(treeAnalyzer.nodesCount) + Compute(gameState, depth, maxDepth, maximizing).nodes
      decreases depth, 2
    {
      treeAnalyzer.IncrementNodesCount();
      if depth == 0 || gameState.ended {
        return EventScore(None, gameState.value);
      }
      var possibleMoves := gameState.moves;
      var role := maximizing;
      if |possibleMoves| == 0 {
        if depth == maxDepth {
          return EventScore(None, if maximizing then MIN_COST else MAX_COST);
        }
        possibleMoves := gameState.passMoves;
        role := !maximizing;
      }
      possibleMoves := RemoveUnnecessaryMoves(possibleMoves);
      if role {
        r := Maximize(possibleMoves, depth);
      } else {
        r := Minimize(possibleMoves, depth);
      }
    }

    /** The fork loop: one task per collected state, computed in order. */
    method ForkTasks(possibleStates: seq<State>, depth: nat, maximizing: bool) returns (tasks: seq<MinimaxTask>, joined: seq<EventScore>)
      requires depth > 0
      modifies treeAnalyzer`nodesCount
      ensures tasks == Tasks(possibleStates, depth - 1, maximizing)
      ensures joined == Results(Forked(possibleStates, depth, maxDepth, maximizing))
      ensures treeAnalyzer.nodesCount == old(treeAnalyzer.nodesCount) + TotalNodes(Forked(possibleStates, depth, maxDepth, maximizing))
      decreases depth, 0, 1
    {
      tasks := [];
      joined := [];
      for i := 0 to |possibleStates|
        invariant tasks == Tasks(possibleStates[..i], depth - 1, maximizing)
        invariant joined == Results(Forked(possibleStates[..i], depth, maxDepth, maximizing))
        invariant treeAnalyzer.nodesCount == old(treeAnalyzer.nodesCount) + TotalNodes(Forked(possibleStates[..i], depth, maxDepth, maximizing))
      {
        var task, result := ForkTask(possibleStates[i], depth, maximizing);
        ForkedPrefixStep(possibleStates, i, depth, maxDepth, maximizing);
        tasks := tasks + [task];
        joined := joined + [result];
      }
      assert possibleStates[..|possibleStates|] == possibleStates;
    }

    /** Fork one task for a collected state and compute it. */
    method ForkTask(possibleState: State, depth: nat, maximizing: bool) returns (task: MinimaxTask, result: EventScore)
      requires depth > 0
      modifies treeAnalyzer`nodesCount
      ensures task == MinimaxTask(possibleState, depth - 1, maximizing)
      ensures result == Compute(possibleState.gameState, depth - 1, maxDepth, maximizing).result
      ensures treeAnalyzer.nodesCount == old(treeAnalyzer.nodesCount) + Compute(possibleState.gameState, depth - 1, maxDepth, maximizing).nodes
      decreases depth, 0, 0
    {
      task := MinimaxTask(possibleState, depth - 1, maximizing);
      result := ComputeTask(task.moveStateProbability.gameState, task.depth, task.maximizing);
    }

    /** `maximize`: fork every task, then join them in order keeping the strictly greater weighted score. */
    method Maximize(possibleMoves: seq<Move>, depth: nat) returns (bestResult: EventScore)
      requires depth > 0
      modifies treeAnalyzer`nodesCount
      ensures bestResult == ForkJoin(possibleMoves, depth, maxDepth, true).result
      ensures treeAnalyzer.nodesCount == old(treeAnalyzer.nodesCount) + ForkJoin(possibleMoves, depth, maxDepth, true).nodes
      decreases depth, 1
    {
      bestResult := EventScore(None, MIN_COST);
      var collected := CollectPossibleStates(possibleMoves);
      if collected.Failure? {
        return;
      }
      var tasks, joined := ForkTasks(collected.value, depth, true);
      bestResult := JoinTasks(tasks, joined, true);
    }

    /** `minimize`: as `maximize`, with the strictly smaller weighted score. */
    method Minimize(possibleMoves: seq<Move>, depth: nat) returns (bestResult: EventScore)
      requires depth > 0
      modifies treeAnalyzer`nodesCount
      ensures bestResult == ForkJoin(possibleMoves, depth, maxDepth, false).result
      ensures treeAnalyzer.nodesCount == old(treeAnalyzer.nodesCount) + ForkJoin(possibleMoves, depth, maxDepth, false).nodes
      decreases depth, 1
    {
      bestResult := EventScore(None, MAX_COST);
      var collected := CollectPossibleStates(possibleMoves);
      if collected.Failure? {
        return;
      }
      var tasks, joined := ForkTasks(collected.value, depth, false);
      bestResult := JoinTasks(tasks, joined, false);
    }
  }

  /** The join loop of `maximize` (`>`) or `minimize` (`<`), starting from MIN_COST or MAX_COST. */
  method JoinTasks(tasks: seq<MinimaxTask>, joined: seq<EventScore>, maximizing: bool) returns (bestResult: EventScore)
    requires |joined| == |tasks|
    ensures bestResult == JoinFold(tasks, joined, maximizing, Initial(maximizing))
  {
    bestResult := EventScore(None, if maximizing then MIN_COST else MAX_COST);
    for i := 0 to |tasks|
      invariant JoinFold(tasks[i..], joined[i..], maximizing, bestResult) == JoinFold(tasks, joined, maximizing, Initial(maximizing))
    {
      JoinFoldUnfold(tasks, joined, i, maximizing, bestResult);
      var task := tasks[i];
      var score := joined[i].score * task.moveStateProbability.probability;
      ghost var picked := if Better(score, bestResult.score, maximizing) then EventScore(Some(task.moveStateProbability.lastMove), score) else bestResult;
      assert JoinStep(task, joined[i], maximizing, bestResult) == picked;
      if (maximizing && score > bestResult.score) || (!maximizing && score < bestResult.score) {
        bestResult := EventScore(Some(task.moveStateProbability.lastMove), score);
      }
      assert bestResult == picked;
    }
  }
}
