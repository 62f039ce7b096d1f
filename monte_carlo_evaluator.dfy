/**
 * evaluate/MonteCarloEvaluator: with four or more living units on the maximizing player's
 * half the static evaluator decides; with fewer, random playouts from copies of the state
 * are counted as wins and the share of wins is scaled to [0, MAX_COST].
 */
module MonteCarloEvaluator {
  import opened Wrappers
  import opened Game
  import opened Doubles
  import Base = Evaluate

  /** The rows of a player's half: [0, ROWS / 2) for the first player, [ROWS / 2, ROWS) for the second. */
  function StartRow(p: PlayerType): nat { if p == FirstPlayer then 0 else ROWS / 2 }

  function EndRow(p: PlayerType): nat { if p == FirstPlayer then ROWS / 2 else ROWS }

  predicate InHalf(p: PlayerType, row: int)
  {
    StartRow(p) <= row < EndRow(p)
  }

  /** The living units of one column in rows [lo, hi). */
  function AliveInRows(column: seq<Unit>, lo: nat, hi: nat): nat
    requires hi <= |column|
  {
    if hi <= lo then 0 else AliveInRows(column, lo, hi - 1) + (if column[hi - 1].IsAlive() then 1 else 0)
  }

  /** The living units of columns [0, cols) on the half of `p`. */
  function AliveInColumns(board: seq<seq<Unit>>, p: PlayerType, cols: nat): nat
    requires IsBoard(board) && cols <= COLUMNS
  {
    if cols == 0 then 0 else AliveInColumns(board, p, cols - 1) + AliveInRows(board[cols - 1], StartRow(p), EndRow(p))
  }

  /** What `getAliveUnitsSizeOfPlayer` counts. */
  function AliveUnits(board: seq<seq<Unit>>, p: PlayerType): nat
    requires IsBoard(board)
  {
    AliveInColumns(board, p, COLUMNS)
  }

  lemma {:induction false} AliveInRowsBounds(column: seq<Unit>, lo: nat, hi: nat)
    requires lo <= hi <= |column|
    ensures AliveInRows(column, lo, hi) <= hi - lo
    ensures AliveInRows(column, lo, hi) == 0 <==> forall r :: lo <= r < hi ==> !column[r].IsAlive()
    decreases hi
  {
    if lo < hi {
      AliveInRowsBounds(column, lo, hi - 1);
    }
  }

  lemma {:induction false} AliveInColumnsBounds(board: seq<seq<Unit>>, p: PlayerType, cols: nat)
    requires IsBoard(board) && cols <= COLUMNS
    ensures AliveInColumns(board, p, cols) <= cols * (ROWS / 2)
    ensures AliveInColumns(board, p, cols) == 0 <==>
      forall c, r :: 0 <= c < cols && InHalf(p, r) ==> !board[c][r].IsAlive()
    decreases cols
  {
    if cols > 0 {
      var column := board[cols - 1];
      AliveInColumnsBounds(board, p, cols - 1);
      AliveInRowsBounds(column, StartRow(p), EndRow(p));
      if forall r :: StartRow(p) <= r < EndRow(p) ==> !column[r].IsAlive() {
        assert forall r :: InHalf(p, r) ==> !board[cols - 1][r].IsAlive();
      } else {
        var r :| StartRow(p) <= r < EndRow(p) && column[r].IsAlive();
        assert InHalf(p, r);
      }
    }
  }

  /**
   * A player has between 0 and COLUMNS * ROWS / 2 living units on their half, and none
   * exactly when no unit there is alive.
   */
  lemma AliveUnitsBounds(board: seq<seq<Unit>>, p: PlayerType)
    requires IsBoard(board)
    ensures 0 <= AliveUnits(board, p) <= COLUMNS * (ROWS / 2)
    ensures AliveUnits(board, p) == 0 <==> forall c, r :: 0 <= c < COLUMNS && InHalf(p, r) ==> !board[c][r].IsAlive()
  {
    AliveInColumnsBounds(board, p, COLUMNS);
  }

  lemma {:induction false} AliveInRowsLocal(a: seq<Unit>, b: seq<Unit>, lo: nat, hi: nat)
    requires hi <= |a| && hi <= |b|
    requires forall r :: lo <= r < hi ==> a[r].IsAlive() == b[r].IsAlive()
    ensures AliveInRows(a, lo, hi) == AliveInRows(b, lo, hi)
    decreases hi
  {
    if lo < hi {
      AliveInRowsLocal(a, b, lo, hi - 1);
    }
  }

  lemma {:induction false} AliveInColumnsLocal(a: seq<seq<Unit>>, b: seq<seq<Unit>>, p: PlayerType, cols: nat)
    requires IsBoard(a) && IsBoard(b) && cols <= COLUMNS
    requires forall c, r :: 0 <= c < COLUMNS && InHalf(p, r) ==> a[c][r].IsAlive() == b[c][r].IsAlive()
    ensures AliveInColumns(a, p, cols) == AliveInColumns(b, p, cols)
    decreases cols
  {
    if cols > 0 {
      AliveInColumnsLocal(a, b, p, cols - 1);
      var x, y := a[cols - 1], b[cols - 1];
      forall r | StartRow(p) <= r < EndRow(p)
        ensures x[r].IsAlive() == y[r].IsAlive()
      {
        assert InHalf(p, r);
      }
      AliveInRowsLocal(x, y, StartRow(p), EndRow(p));
    }
  }

  /** Only the player's own half is consulted: the opponent's units do not change the count. */
  lemma AliveUnitsLocal(a: seq<seq<Unit>>, b: seq<seq<Unit>>, p: PlayerType)
    requires IsBoard(a) && IsBoard(b)
    requires forall c, r :: 0 <= c < COLUMNS && InHalf(p, r) ==> a[c][r].IsAlive() == b[c][r].IsAlive()
    ensures AliveUnits(a, p) == AliveUnits(b, p)
  {
    AliveInColumnsLocal(a, b, p, COLUMNS);
  }

  /** `(botWinCount * MAX_COST) / gamesCount` in `double`: 0 / 0 is NaN. */
  function WinShare(wins: nat, games: int): Double
  {
    if games == 0 then DivCount(Finite(wins as real * Base.MAX_COST), 0)
    else Finite(wins as real * Base.MAX_COST / games as real)
  }

  /** With at most as many wins as games, the share lies in [0, MAX_COST]. */
  lemma WinShareBounds(wins: nat, games: int)
    requires 0 < games && wins <= games
    ensures WinShare(wins, games).Finite?
    ensures 0.0 <= WinShare(wins, games).r <= Base.MAX_COST
    ensures WinShare(wins, games).r == 0.0 <==> wins == 0
    ensures WinShare(wins, games).r == Base.MAX_COST <==> wins == games
  {
    var g := games as real;
    var w := wins as real;
    assert w * Base.MAX_COST / g == Base.MAX_COST * (w / g);
    assert w / g <= 1.0;
    if wins < games {
      assert w / g < 1.0;
    }
  }

  /**
   * The wins `monteCarloEvaluate` counts as written: each of the `games` iterations tests
   * the winner of the state it was given, not of the playout's copy.
   */
  function AsWrittenWins(winner: Option<PlayerType>, p: PlayerType, games: int): nat
  {
    if games > 0 && winner == Some(p) then games else 0
  }

  /** As written, the Monte-Carlo value is 0 or exactly MAX_COST whenever some game is played. */
  lemma AsWrittenAllOrNothing(winner: Option<PlayerType>, p: PlayerType, games: int)
    requires games > 0
    ensures WinShare(AsWrittenWins(winner, p, games), games) == Finite(if winner == Some(p) then Base.MAX_COST else 0.0)
  {
    WinShareBounds(AsWrittenWins(winner, p, games), games);
  }

  /** The playouts won by `p`, given the winner of each playout. */
  function PlayoutWins(winners: seq<Option<PlayerType>>, p: PlayerType): (n: nat)
    ensures n <= |winners|
  {
    if winners == [] then 0
    else PlayoutWins(winners[..|winners| - 1], p) + (if winners[|winners| - 1] == Some(p) then 1 else 0)
  }

  /** Counting the playouts' winners: in [0, MAX_COST], 0 when none is won and MAX_COST when all are. */
  lemma {:induction false} PlayoutShareBounds(winners: seq<Option<PlayerType>>, p: PlayerType)
    requires winners != []
    ensures WinShare(PlayoutWins(winners, p), |winners|).Finite?
    ensures 0.0 <= WinShare(PlayoutWins(winners, p), |winners|).r <= Base.MAX_COST
    ensures (forall i :: 0 <= i < |winners| ==> winners[i] == Some(p)) ==> WinShare(PlayoutWins(winners, p), |winners|).r == Base.MAX_COST
    ensures (forall i :: 0 <= i < |winners| ==> winners[i] != Some(p)) ==> WinShare(PlayoutWins(winners, p), |winners|).r == 0.0
  {
    WinShareBounds(PlayoutWins(winners, p), |winners|);
    PlayoutWinsExtremes(winners, p);
  }

  lemma {:induction false} PlayoutWinsExtremes(winners: seq<Option<PlayerType>>, p: PlayerType)
    ensures (forall i :: 0 <= i < |winners| ==> winners[i] == Some(p)) ==> PlayoutWins(winners, p) == |winners|
    ensures (forall i :: 0 <= i < |winners| ==> winners[i] != Some(p)) ==> PlayoutWins(winners, p) == 0
    decreases |winners|
  {
    if winners != [] {
      PlayoutWinsExtremes(winners[..|winners| - 1], p);
    }
  }

  /** When every playout ends as the given state did, counting the playouts agrees with the code as written. */
  lemma PlayoutsMatchingOriginalAgree(winners: seq<Option<PlayerType>>, winner: Option<PlayerType>, p: PlayerType)
    requires forall i :: 0 <= i < |winners| ==> winners[i] == winner
    ensures WinShare(PlayoutWins(winners, p), |winners|) == WinShare(AsWrittenWins(winner, p, |winners|), |winners|)
  {
    PlayoutWinsExtremes(winners, p);
  }

  /** One playout won and one lost: counting the playouts gives 500, the code as written 0 or 1000. */
  lemma MixedPlayoutsDiffer(winner: Option<PlayerType>, p: PlayerType)
    ensures WinShare(PlayoutWins([Some(p), Some(Opponent(p))], p), 2) == Finite(500.0)
    ensures WinShare(AsWrittenWins(winner, p, 2), 2) != Finite(500.0)
  {
    assert [Some(p), Some(Opponent(p))][..1] == [Some(p)];
    assert [Some(p)][..0] == [];
  }

  class MonteCarloEvaluator {
    const evaluator: Base.BaseEvaluator
    const gamesCount: int

    /** `new MonteCarloEvaluator(gameCount)`: the static evaluator of the `evaluate` package scales to MAX_COST. */
    constructor (gameCount: int, coefficients: Base.Coefficients)
      requires Base.UnitCostBound(coefficients) != 0.0
      ensures gamesCount == gameCount && evaluator.Valid() && fresh(evaluator.unitsCosts)
      ensures evaluator.coefficients == coefficients && evaluator.maxCost == Base.MAX_COST
    {
      gamesCount := gameCount;
      evaluator := new Base.BaseEvaluator(coefficients, Base.MAX_COST);
    }

    /** `evaluate`: the static score with four or more living units, the Monte-Carlo value otherwise. */
    method Evaluate(gameState: GameState, maximizingPlayer: PlayerType) returns (r: Double)
      requires evaluator.Valid() && IsBoard(gameState.board) && Base.HpDefined(gameState.board)
      modifies evaluator.unitsCosts
      ensures AliveUnits(gameState.board, maximizingPlayer) >= 4 ==>
        r == Finite(Base.Score(gameState, maximizingPlayer, evaluator.coefficients, evaluator.maxCost))
      ensures AliveUnits(gameState.board, maximizingPlayer) < 4 ==>
        r == WinShare(AsWrittenWins(gameState.winner, maximizingPlayer, gamesCount), gamesCount)
    {
      var alive := GetAliveUnitsSizeOfPlayer(gameState, maximizingPlayer);
      if alive >= 4 {
        var score := evaluator.Evaluate(gameState, maximizingPlayer);
        r := Finite(score);
      } else {
        r := MonteCarloEvaluate(gameState, maximizingPlayer);
      }
    }

    /** `getAliveUnitsSizeOfPlayer`: the living units on the player's half, column by column. */
    method GetAliveUnitsSizeOfPlayer(gameState: GameState, maximizingPlayer: PlayerType) returns (unitsNum: int)
      requires IsBoard(gameState.board)
      ensures unitsNum == AliveUnits(gameState.board, maximizingPlayer)
    {
      var board := gameState.board;
      var startRow := if maximizingPlayer == FirstPlayer then 0 else ROWS / 2;
      var endRow := if maximizingPlayer == FirstPlayer then ROWS / 2 else ROWS;
      unitsNum := 0;
      for col := 0 to COLUMNS
        invariant unitsNum == AliveInColumns(board, maximizingPlayer, col)
      {
        ghost var before := unitsNum;
        for row := startRow to endRow
          invariant unitsNum == before + AliveInRows(board[col], startRow, row)
        {
          if board[col][row].IsAlive() {
            unitsNum := unitsNum + 1;
          }
        }
      }
    }

    /**
     * `monteCarloEvaluate` as written. The playouts on copies of the state are random and
     * end only when the engine ends the game; their results are never read, so they are
     * not modelled. Each iteration tests the winner of `gameState` itself.
     */
    method MonteCarloEvaluate(gameState: GameState, maximizingPlayer: PlayerType) returns (r: Double)
      ensures r == WinShare(AsWrittenWins(gameState.winner, maximizingPlayer, gamesCount), gamesCount)
    {
      var botWinCount := 0;
      var i := 0;
      while i < gamesCount
        invariant 0 <= i && (gamesCount > 0 ==> i <= gamesCount) && (gamesCount <= 0 ==> i == 0)
        invariant botWinCount == if gameState.winner == Some(maximizingPlayer) then i else 0
        decreases gamesCount - i
      {
        if gameState.winner == Some(maximizingPlayer) {
          botWinCount := botWinCount + 1;
        }
        i := i + 1;
      }
      r := WinShare(botWinCount, gamesCount);
    }

    /** The intended count: the playouts whose own final state is won by the maximizing player. */
    method MonteCarloFromPlayouts(playoutWinners: seq<Option<PlayerType>>, maximizingPlayer: PlayerType) returns (r: Double)
      requires |playoutWinners| == if gamesCount > 0 then gamesCount else 0
      ensures r == WinShare(PlayoutWins(playoutWinners, maximizingPlayer), gamesCount)
    {
      var botWinCount := 0;
      for i := 0 to |playoutWinners|
        invariant botWinCount == PlayoutWins(playoutWinners[..i], maximizingPlayer)
      {
        assert playoutWinners[..i + 1][..i] == playoutWinners[..i];
        if playoutWinners[i] == Some(maximizingPlayer) {
          botWinCount := botWinCount + 1;
        }
      }
      assert playoutWinners[..|playoutWinners|] == playoutWinners;
      r := WinShare(botWinCount, gamesCount);
    }
  }
}
