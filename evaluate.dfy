/**
 * The position evaluator of the bots: every unit is worth its share of hit points,
 * raised for a general and lowered for standing on the wrong row or without cover;
 * the maximizing player's half counts positively, the opponent's negatively, and the
 * sum is scaled into [-maxCost, maxCost]. A finished game is worth maxCost, 0 or -maxCost.
 */
module Evaluate {
  import opened Wrappers
  import opened Game

  /** GameStateEvaluator.MAX_COST and MIN_COST. */
  const MAX_COST: real := 1000.0
  const MIN_COST: real := -1000.0

  /** The three numbers read from `coefficients.properties`. */
  datatype Coefficients = Coefficients(isGeneralBonus: real, rowPenalty: real, noDefPenalty: real)

  function MaxUnitCost(c: Coefficients): real { c.isGeneralBonus }

  function MinUnitCost(c: Coefficients): real { c.rowPenalty * c.noDefPenalty }

  /** The larger of the two extreme unit costs, which `normalize` scales by. */
  function UnitCostBound(c: Coefficients): real
  {
    if MaxUnitCost(c) > MinUnitCost(c) then MaxUnitCost(c) else MinUnitCost(c)
  }

  /** A bonus of at least 1 and penalties between 0 and 1, as a properties file sets them. */
  predicate SensibleCoefficients(c: Coefficients)
  {
    c.isGeneralBonus >= 1.0 && 0.0 <= c.rowPenalty <= 1.0 && 0.0 <= c.noDefPenalty <= 1.0
  }

  /** Every living unit on the board has a positive maximum of hit points. */
  predicate HpDefined(board: seq<seq<Unit>>)
    requires IsBoard(board)
  {
    forall col, row :: 0 <= col < COLUMNS && 0 <= row < ROWS && board[col][row].IsAlive() ==>
      board[col][row].maxHp > 0
  }

  /** Living units have no more hit points than their maximum. */
  predicate HpWithinMax(board: seq<seq<Unit>>)
    requires IsBoard(board)
  {
    forall col, row :: 0 <= col < COLUMNS && 0 <= row < ROWS ==>
      board[col][row].currentHp <= board[col][row].maxHp
  }

  predicate IsLongRangeUnit(u: Unit) { u.unitType != Knight }

  function BaseHpCost(u: Unit): real
    requires u.IsAlive() ==> u.maxHp > 0
  {
    if u.IsAlive() then (u.currentHp as real) / (u.maxHp as real) else 0.0
  }

  function WithGeneralBonus(cost: real, u: Unit, c: Coefficients): real
  {
    if u.isGeneral then cost * c.isGeneralBonus else cost
  }

  /** Long-range units belong on the back rows, knights on the front rows. */
  predicate OnWrongRow(u: Unit, row: int)
  {
    if IsLongRangeUnit(u) then row == ROWS - 2 || row == ROWS - 3
    else row == ROWS - 4 || row == ROWS - 1
  }

  function WithRowPenalty(cost: real, u: Unit, row: int, c: Coefficients): real
  {
    if OnWrongRow(u, row) then cost * c.rowPenalty else cost
  }

  /** A back-row unit whose front-row neighbour is dead is penalised. */
  function WithNoDefPenalty(cost: real, board: seq<seq<Unit>>, col: nat, row: nat, c: Coefficients): real
    requires IsBoard(board) && col < COLUMNS && row < ROWS
  {
    var afterFirst := Penalize(cost, row == 0 && !board[col][row + 1].IsAlive(), c.noDefPenalty);
    Penalize(afterFirst, row == ROWS - 1 && !board[col][row - 1].IsAlive(), c.noDefPenalty)
  }

  /** Multiplies by `k` when `applies`. */
  function Penalize(cost: real, applies: bool, k: real): real
  {
    if applies then cost * k else cost
  }

  /** The cost `evaluateUnitsCost` assigns to the cell (col, row). */
  function CellCost(board: seq<seq<Unit>>, col: nat, row: nat, c: Coefficients): real
    requires IsBoard(board) && HpDefined(board) && col < COLUMNS && row < ROWS
  {
    var u := board[col][row];
    WithNoDefPenalty(WithRowPenalty(WithGeneralBonus(BaseHpCost(u), u, c), u, row, c), board, col, row, c)
  }

  predicate IsCostMatrix(m: seq<seq<real>>)
  {
    |m| == COLUMNS && forall col :: 0 <= col < |m| ==> |m[col]| == ROWS
  }

  function CostMatrix(board: seq<seq<Unit>>, c: Coefficients): (m: seq<seq<real>>)
    requires IsBoard(board) && HpDefined(board)
    ensures IsCostMatrix(m)
    ensures forall col, row :: 0 <= col < COLUMNS && 0 <= row < ROWS ==> m[col][row] == CellCost(board, col, row, c)
  {
    seq(COLUMNS, col requires 0 <= col < COLUMNS =>
      seq(ROWS, row requires 0 <= row < ROWS => CellCost(board, col, row, c)))
  }

  /** The sign a row's costs are added with: +1 on the maximizing player's half. */
  function Sign(maximizing: PlayerType, row: int): real
  {
    var own := if maximizing == FirstPlayer then 1.0 else -1.0;
    if row < ROWS / 2 then own else -own
  }

  /** The signed sum of the first `cols` cells of row `row`. */
  function RowSum(m: seq<seq<real>>, p: PlayerType, row: nat, cols: nat): real
    requires IsCostMatrix(m) && row < ROWS && cols <= COLUMNS
  {
    if cols == 0 then 0.0 else RowSum(m, p, row, cols - 1) + m[cols - 1][row] * Sign(p, row)
  }

  /** The signed sum of the first `rows` rows. */
  function RowsSum(m: seq<seq<real>>, p: PlayerType, rows: nat): real
    requires IsCostMatrix(m) && rows <= ROWS
  {
    if rows == 0 then 0.0 else RowsSum(m, p, rows - 1) + RowSum(m, p, rows - 1, COLUMNS)
  }

  function SignedSum(m: seq<seq<real>>, p: PlayerType): real
    requires IsCostMatrix(m)
  {
    RowsSum(m, p, ROWS)
  }

  /** `normalize`: maps the range [-6 bound, 6 bound] of the sum linearly onto [-maxCost, maxCost]. */
  function Normalize(sum: real, c: Coefficients, maxCost: real): (r: real)
    requires UnitCostBound(c) != 0.0
    ensures r == maxCost * sum / (6.0 * UnitCostBound(c))
  {
    var maxPossibleValue := if MaxUnitCost(c) > MinUnitCost(c) then 6.0 * MaxUnitCost(c) else 6.0 * MinUnitCost(c);
    var minPossibleValue := if MaxUnitCost(c) > MinUnitCost(c) then -6.0 * MaxUnitCost(c) else -6.0 * MinUnitCost(c);
    var r := maxCost * ((sum - minPossibleValue) / (maxPossibleValue - minPossibleValue) * 2.0 - 1.0);
    NormalizeAlgebra(sum, UnitCostBound(c), maxCost);
    r
  }

  lemma NormalizeAlgebra(sum: real, b: real, maxCost: real)
    requires b != 0.0
    ensures maxCost * ((sum - -6.0 * b) / (6.0 * b - -6.0 * b) * 2.0 - 1.0) == maxCost * sum / (6.0 * b)
  {
    var d := 6.0 * b;
    calc {
      (sum - -6.0 * b) / (6.0 * b - -6.0 * b) * 2.0 - 1.0;
      (sum + d) / (2.0 * d) * 2.0 - 1.0;
      { assert (sum + d) / (2.0 * d) * 2.0 == (sum + d) / d; }
      (sum + d) / d - 1.0;
      { assert (sum + d) / d == sum / d + d / d; assert d / d == 1.0; }
      sum / d + 1.0 - 1.0;
      sum / d;
    }
    assert maxCost * (sum / d) == maxCost * sum / d;
  }

  /** `evaluateGameEnd`: a win is worth maxCost, a draw 0, a loss -maxCost. */
  function GameEndScore(winner: Option<PlayerType>, maximizing: PlayerType, maxCost: real): real
  {
    if winner == Some(maximizing) then maxCost
    else if winner == None then 0.0
    else -maxCost
  }

  /** What `evaluate` returns for the state, from the side of `maximizing`. */
  function Score(s: GameState, maximizing: PlayerType, c: Coefficients, maxCost: real): real
    requires IsBoard(s.board) && HpDefined(s.board) && UnitCostBound(c) != 0.0
  {
    if s.ended then GameEndScore(s.winner, maximizing, maxCost)
    else Normalize(SignedSum(CostMatrix(s.board, c), maximizing), c, maxCost)
  }

  lemma ScaleDown(x: real, k: real)
    requires 0.0 <= x && 0.0 <= k <= 1.0
    ensures 0.0 <= x * k <= x
  {
  }

  lemma BaseHpCostBounds(u: Unit)
    requires u.IsAlive() ==> 0 < u.maxHp && u.currentHp <= u.maxHp
    ensures 0.0 <= BaseHpCost(u) <= 1.0
  {
    if u.IsAlive() {
      FractionAtMostOne(u.currentHp as real, u.maxHp as real);
    }
  }

  lemma BaseHpCostSign(u: Unit)
    requires u.IsAlive() ==> 0 < u.maxHp
    ensures 0.0 <= BaseHpCost(u)
    ensures u.IsAlive() ==> BaseHpCost(u) > 0.0
  {
  }

  lemma FractionAtMostOne(h: real, m: real)
    requires 0.0 < h <= m
    ensures 0.0 < h / m <= 1.0
  {
    assert (h / m) * m == h;
  }

  lemma GeneralBonusBounds(x: real, u: Unit, c: Coefficients)
    requires 0.0 <= x <= 1.0 && c.isGeneralBonus >= 1.0
    ensures 0.0 <= WithGeneralBonus(x, u, c) <= c.isGeneralBonus
    ensures x > 0.0 ==> WithGeneralBonus(x, u, c) > 0.0
  {
    if u.isGeneral {
      assert x * c.isGeneralBonus <= 1.0 * c.isGeneralBonus;
    }
  }

  lemma RowPenaltyBounds(x: real, u: Unit, row: int, c: Coefficients)
    requires 0.0 <= x && 0.0 <= c.rowPenalty <= 1.0
    ensures 0.0 <= WithRowPenalty(x, u, row, c) <= x
    ensures x > 0.0 && c.rowPenalty > 0.0 ==> WithRowPenalty(x, u, row, c) > 0.0
  {
    ScaleDown(x, c.rowPenalty);
  }

  lemma PenalizeBounds(x: real, applies: bool, k: real)
    requires 0.0 <= x && 0.0 <= k <= 1.0
    ensures 0.0 <= Penalize(x, applies, k) <= x
    ensures x > 0.0 && k > 0.0 ==> Penalize(x, applies, k) > 0.0
  {
    ScaleDown(x, k);
  }

  lemma NoDefPenaltyBounds(x: real, board: seq<seq<Unit>>, col: nat, row: nat, c: Coefficients)
    requires IsBoard(board) && col < COLUMNS && row < ROWS
    requires 0.0 <= x && 0.0 <= c.noDefPenalty <= 1.0
    ensures 0.0 <= WithNoDefPenalty(x, board, col, row, c) <= x
    ensures x > 0.0 && c.noDefPenalty > 0.0 ==> WithNoDefPenalty(x, board, col, row, c) > 0.0
  {
    var first := row == 0 && !board[col][row + 1].IsAlive();
    PenalizeBounds(x, first, c.noDefPenalty);
    PenalizeBounds(Penalize(x, first, c.noDefPenalty), row == ROWS - 1 && !board[col][row - 1].IsAlive(), c.noDefPenalty);
  }

  /** Under sensible coefficients a cell costs between 0 and the isGeneral bonus. */
  lemma CellCostBounds(board: seq<seq<Unit>>, col: nat, row: nat, c: Coefficients)
    requires IsBoard(board) && HpDefined(board) && HpWithinMax(board) && col < COLUMNS && row < ROWS
    requires SensibleCoefficients(c)
    ensures 0.0 <= CellCost(board, col, row, c) <= c.isGeneralBonus
  {
    var u := board[col][row];
    BaseHpCostBounds(u);
    var g := WithGeneralBonus(BaseHpCost(u), u, c);
    GeneralBonusBounds(BaseHpCost(u), u, c);
    RowPenaltyBounds(g, u, row, c);
    NoDefPenaltyBounds(WithRowPenalty(g, u, row, c), board, col, row, c);
  }

  /** The number of rows below `rows` on the maximizing player's own half. */
  function OwnRows(p: PlayerType, rows: nat): nat
  {
    if p == FirstPlayer then (if rows < ROWS / 2 then rows else ROWS / 2)
    else (if rows < ROWS / 2 then 0 else rows - ROWS / 2)
  }

  lemma {:induction false} RowSumBounds(m: seq<seq<real>>, p: PlayerType, row: nat, cols: nat, b: real)
    requires IsCostMatrix(m) && row < ROWS && cols <= COLUMNS
    requires forall i :: 0 <= i < COLUMNS ==> 0.0 <= m[i][row] <= b
    ensures Sign(p, row) == 1.0 ==> 0.0 <= RowSum(m, p, row, cols) <= cols as real * b
    ensures Sign(p, row) == -1.0 ==> -(cols as real) * b <= RowSum(m, p, row, cols) <= 0.0
  {
    if cols > 0 {
      RowSumBounds(m, p, row, cols - 1, b);
    }
  }

  lemma {:induction false} RowsSumBounds(m: seq<seq<real>>, p: PlayerType, rows: nat, b: real)
    requires IsCostMatrix(m) && rows <= ROWS
    requires forall i, j :: 0 <= i < COLUMNS && 0 <= j < ROWS ==> 0.0 <= m[i][j] <= b
    ensures -3.0 * (rows - OwnRows(p, rows)) as real * b <= RowsSum(m, p, rows) <= 3.0 * OwnRows(p, rows) as real * b
  {
    if rows > 0 {
      RowsSumBounds(m, p, rows - 1, b);
      RowSumBounds(m, p, rows - 1, COLUMNS, b);
    }
  }

  /** The signed sum lies between -6 and 6 times the bound on a unit's cost. */
  lemma SignedSumBounded(board: seq<seq<Unit>>, p: PlayerType, c: Coefficients)
    requires IsBoard(board) && HpDefined(board) && HpWithinMax(board) && SensibleCoefficients(c)
    ensures var b := UnitCostBound(c);
      -6.0 * b <= SignedSum(CostMatrix(board, c), p) <= 6.0 * b
  {
    var b := UnitCostBound(c);
    var m := CostMatrix(board, c);
    forall i, j | 0 <= i < COLUMNS && 0 <= j < ROWS
      ensures 0.0 <= m[i][j] <= b
    {
      CellCostBounds(board, i, j, c);
    }
    RowsSumBounds(m, p, ROWS, b);
  }

  lemma NormalizeBounded(sum: real, c: Coefficients, maxCost: real)
    requires UnitCostBound(c) > 0.0 && maxCost >= 0.0
    requires -6.0 * UnitCostBound(c) <= sum <= 6.0 * UnitCostBound(c)
    ensures -maxCost <= Normalize(sum, c, maxCost) <= maxCost
  {
    var d := 6.0 * UnitCostBound(c);
    ScaledFractionBounded(sum, d, maxCost);
  }

  lemma ScaledFractionBounded(x: real, d: real, k: real)
    requires d > 0.0 && k >= 0.0 && -d <= x <= d
    ensures -k <= k * x / d <= k
  {
    assert k * x <= k * d by {
      assert k * (d - x) >= 0.0;
    }
    assert -(k * d) <= k * x by {
      assert k * (x + d) >= 0.0;
    }
    assert (k * x / d) * d == k * x;
    assert (k * d) / d == k;
  }

  /**
   * With sensible coefficients and hit points, `evaluate` stays within [-maxCost, maxCost]:
   * the maximizing half adds at most 6 bounds, the opponent's half subtracts at most as much.
   */
  lemma ScoreBounded(s: GameState, p: PlayerType, c: Coefficients, maxCost: real)
    requires IsBoard(s.board) && HpDefined(s.board) && HpWithinMax(s.board)
    requires SensibleCoefficients(c) && maxCost >= 0.0
    ensures UnitCostBound(c) > 0.0
    ensures -maxCost <= Score(s, p, c, maxCost) <= maxCost
  {
    if !s.ended {
      SignedSumBounded(s.board, p, c);
      NormalizeBounded(SignedSum(CostMatrix(s.board, c), p), c, maxCost);
    }
  }

  lemma {:induction false} RowSumOpposite(m: seq<seq<real>>, row: nat, cols: nat)
    requires IsCostMatrix(m) && row < ROWS && cols <= COLUMNS
    ensures RowSum(m, SecondPlayer, row, cols) == -RowSum(m, FirstPlayer, row, cols)
  {
    if cols > 0 {
      RowSumOpposite(m, row, cols - 1);
    }
  }

  lemma {:induction false} RowsSumOpposite(m: seq<seq<real>>, rows: nat)
    requires IsCostMatrix(m) && rows <= ROWS
    ensures RowsSum(m, SecondPlayer, rows) == -RowsSum(m, FirstPlayer, rows)
  {
    if rows > 0 {
      RowsSumOpposite(m, rows - 1);
      RowSumOpposite(m, rows - 1, COLUMNS);
    }
  }

  /** The evaluation is zero-sum: what one player gains the other loses. */
  lemma ScoreZeroSum(s: GameState, c: Coefficients, maxCost: real)
    requires IsBoard(s.board) && HpDefined(s.board) && UnitCostBound(c) != 0.0
    ensures Score(s, SecondPlayer, c, maxCost) == -Score(s, FirstPlayer, c, maxCost)
  {
    if !s.ended {
      var m := CostMatrix(s.board, c);
      RowsSumOpposite(m, ROWS);
      var x := SignedSum(m, FirstPlayer);
      NormalizeNegates(x, c, maxCost);
      assert SignedSum(m, SecondPlayer) == -x;
      assert Score(s, SecondPlayer, c, maxCost) == Normalize(-x, c, maxCost);
      assert Score(s, FirstPlayer, c, maxCost) == Normalize(x, c, maxCost);
    } else {
      match s.winner
      case None =>
      case Some(w) => assert w == FirstPlayer || w == SecondPlayer;
    }
  }

  lemma NormalizeNegates(x: real, c: Coefficients, maxCost: real)
    requires UnitCostBound(c) != 0.0
    ensures Normalize(-x, c, maxCost) == -Normalize(x, c, maxCost)
  {
    var d := 6.0 * UnitCostBound(c);
    assert maxCost * -x == -(maxCost * x);
    assert -(maxCost * x) / d == -(maxCost * x / d);
  }

  /** Whose turn it is does not enter the evaluation. */
  lemma ScoreIgnoresCurrentPlayer(s: GameState, q: PlayerType, p: PlayerType, c: Coefficients, maxCost: real)
    requires IsBoard(s.board) && HpDefined(s.board) && UnitCostBound(c) != 0.0
    ensures Score(s.(currentPlayer := q), p, c, maxCost) == Score(s, p, c, maxCost)
  {
  }

  /** The evaluator with scale 1000 is the top-level one with scale 1, multiplied by 1000. */
  lemma ScoreScales(s: GameState, p: PlayerType, c: Coefficients)
    requires IsBoard(s.board) && HpDefined(s.board) && UnitCostBound(c) != 0.0
    ensures Score(s, p, c, MAX_COST) == MAX_COST * Score(s, p, c, 1.0)
  {
  }

  /** Lowering the signed contribution of every cell, one of them strictly, lowers the sum. */
  lemma {:induction false} RowSumDecreases(a: seq<seq<real>>, b: seq<seq<real>>, p: PlayerType, row: nat, cols: nat, c0: nat)
    requires IsCostMatrix(a) && IsCostMatrix(b) && row < ROWS && cols <= COLUMNS
    requires forall i :: 0 <= i < COLUMNS ==> b[i][row] * Sign(p, row) <= a[i][row] * Sign(p, row)
    ensures RowSum(b, p, row, cols) <= RowSum(a, p, row, cols)
    ensures c0 < cols && b[c0][row] * Sign(p, row) < a[c0][row] * Sign(p, row) ==>
      RowSum(b, p, row, cols) < RowSum(a, p, row, cols)
  {
    if cols > 0 {
      RowSumDecreases(a, b, p, row, cols - 1, c0);
    }
  }

  lemma {:induction false} RowsSumDecreases(a: seq<seq<real>>, b: seq<seq<real>>, p: PlayerType, rows: nat, c0: nat, r0: nat)
    requires IsCostMatrix(a) && IsCostMatrix(b) && rows <= ROWS
    requires forall i, j :: 0 <= i < COLUMNS && 0 <= j < ROWS ==> b[i][j] * Sign(p, j) <= a[i][j] * Sign(p, j)
    ensures RowsSum(b, p, rows) <= RowsSum(a, p, rows)
    ensures c0 < COLUMNS && r0 < rows && b[c0][r0] * Sign(p, r0) < a[c0][r0] * Sign(p, r0) ==>
      RowsSum(b, p, rows) < RowsSum(a, p, rows)
  {
    if rows > 0 {
      RowsSumDecreases(a, b, p, rows - 1, c0, r0);
      RowSumDecreases(a, b, p, rows - 1, COLUMNS, c0);
    }
  }

  /** Positive coefficients: no unit's cost is wiped out by a bonus or a penalty. */
  predicate PositiveCoefficients(c: Coefficients)
  {
    SensibleCoefficients(c) && c.rowPenalty > 0.0 && c.noDefPenalty > 0.0
  }

  lemma CellCostPositive(board: seq<seq<Unit>>, col: nat, row: nat, c: Coefficients)
    requires IsBoard(board) && HpDefined(board) && col < COLUMNS && row < ROWS
    requires PositiveCoefficients(c)
    ensures board[col][row].IsAlive() ==> CellCost(board, col, row, c) > 0.0
    ensures CellCost(board, col, row, c) >= 0.0
  {
    var u := board[col][row];
    BaseHpCostSign(u);
    var base := BaseHpCost(u);
    var g := WithGeneralBonus(base, u, c);
    assert g >= 0.0 && (base > 0.0 ==> g > 0.0) by {
      if u.isGeneral {
        assert base * c.isGeneralBonus >= base * 1.0;
      }
    }
    RowPenaltyBounds(g, u, row, c);
    NoDefPenaltyBounds(WithRowPenalty(g, u, row, c), board, col, row, c);
  }

  /** A smaller sum scores lower, for a positive scale. */
  lemma NormalizeStrictlyMonotone(x: real, y: real, c: Coefficients, maxCost: real)
    requires UnitCostBound(c) > 0.0 && maxCost > 0.0 && x < y
    ensures Normalize(x, c, maxCost) < Normalize(y, c, maxCost)
  {
    var d := 6.0 * UnitCostBound(c);
    assert x / d < y / d;
    assert maxCost * x / d == maxCost * (x / d) && maxCost * y / d == maxCost * (y / d);
  }

  /** The state after `setCurrentHp(0)` on the unit at (col, row). */
  function Killed(s: GameState, col: nat, row: nat): (k: GameState)
    requires IsBoard(s.board) && col < COLUMNS && row < ROWS
    ensures IsBoard(k.board)
    ensures HpDefined(s.board) ==> HpDefined(k.board)
  {
    s.(board := s.board[col := s.board[col][row := s.board[col][row].(currentHp := 0)]])
  }

  /** Every signed cell of `b` is at most that of `a`. */
  predicate Dominated(b: seq<seq<real>>, a: seq<seq<real>>, p: PlayerType)
    requires IsCostMatrix(a) && IsCostMatrix(b)
  {
    forall i, j :: 0 <= i < COLUMNS && 0 <= j < ROWS ==> b[i][j] * Sign(p, j) <= a[i][j] * Sign(p, j)
  }

  /**
   * Killing a living unit on the maximizing player's half strictly lowers the evaluation;
   * a killed front-row unit also leaves the unit behind it without cover.
   */
  lemma KillLowersScore(s: GameState, p: PlayerType, col: nat, row: nat, c: Coefficients, maxCost: real)
    requires IsBoard(s.board) && HpDefined(s.board) && !s.ended && col < COLUMNS && row < ROWS
    requires PositiveCoefficients(c) && maxCost > 0.0
    requires s.board[col][row].IsAlive() && Sign(p, row) == 1.0
    ensures Score(Killed(s, col, row), p, c, maxCost) < Score(s, p, c, maxCost)
  {
    var k := Killed(s, col, row);
    var a := CostMatrix(s.board, c);
    var b := CostMatrix(k.board, c);
    forall i, j | 0 <= i < COLUMNS && 0 <= j < ROWS
      ensures b[i][j] * Sign(p, j) <= a[i][j] * Sign(p, j)
    {
      KilledCellCost(s, col, row, i, j, c);
      SameHalf(p, row, j);
    }
    assert Dominated(b, a, p);
    CellCostPositive(s.board, col, row, c);
    KilledCellCost(s, col, row, col, row, c);
    RowsSumDecreases(a, b, p, ROWS, col, row);
    NormalizeStrictlyMonotone(SignedSum(b, p), SignedSum(a, p), c, maxCost);
  }

  lemma SameHalf(p: PlayerType, row: int, j: int)
    requires Sign(p, row) == 1.0
    ensures Sign(FirstPlayer, j) == Sign(FirstPlayer, row) ==> Sign(p, j) == 1.0
    ensures Sign(FirstPlayer, j) != Sign(FirstPlayer, row) ==> Sign(p, j) == -1.0
  {
  }

  /** Cell by cell, a kill only lowers costs: the killed cell and the cell it covered. */
  lemma KilledCellCost(s: GameState, col: nat, row: nat, i: nat, j: nat, c: Coefficients)
    requires IsBoard(s.board) && HpDefined(s.board) && col < COLUMNS && row < ROWS && i < COLUMNS && j < ROWS
    requires PositiveCoefficients(c)
    ensures var k := Killed(s, col, row).board;
      && CellCost(k, i, j, c) <= CellCost(s.board, i, j, c)
      && (i == col && j == row ==> CellCost(k, i, j, c) == 0.0)
      && (Sign(FirstPlayer, j) != Sign(FirstPlayer, row) ==> CellCost(k, i, j, c) == CellCost(s.board, i, j, c))
  {
    var k := Killed(s, col, row).board;
    var u := s.board[i][j];
    var g := WithGeneralBonus(BaseHpCost(u), u, c);
    var rp := WithRowPenalty(g, u, j, c);
    CellCostPositive(s.board, i, j, c);
    if i != col || j != row {
      assert k[i][j] == u;
      BaseHpCostSign(u);
      assert rp >= 0.0 by {
        if u.isGeneral { assert BaseHpCost(u) * c.isGeneralBonus >= 0.0; }
        RowPenaltyBounds(g, u, j, c);
      }
      NoDefPenaltyMonotone(rp, s.board, k, i, j, c);
    }
  }

  /** A neighbour that died can only add the no-cover penalty. */
  lemma NoDefPenaltyMonotone(x: real, before: seq<seq<Unit>>, after: seq<seq<Unit>>, col: nat, row: nat, c: Coefficients)
    requires IsBoard(before) && IsBoard(after) && col < COLUMNS && row < ROWS
    requires 0.0 <= x && 0.0 <= c.noDefPenalty <= 1.0
    requires forall j :: 0 <= j < ROWS && after[col][j].IsAlive() ==> before[col][j].IsAlive()
    ensures WithNoDefPenalty(x, after, col, row, c) <= WithNoDefPenalty(x, before, col, row, c)
    ensures (forall j :: 0 <= j < ROWS ==> after[col][j].IsAlive() == before[col][j].IsAlive()) ==>
      WithNoDefPenalty(x, after, col, row, c) == WithNoDefPenalty(x, before, col, row, c)
  {
    ScaleDown(x, c.noDefPenalty);
  }

  /** The state after the unit at (col, row) is replaced by one of type `t` with the same health. */
  function Retyped(s: GameState, col: nat, row: nat, t: UnitType): (k: GameState)
    requires IsBoard(s.board) && col < COLUMNS && row < ROWS
    ensures IsBoard(k.board)
    ensures HpDefined(s.board) ==> HpDefined(k.board)
  {
    s.(board := s.board[col := s.board[col][row := s.board[col][row].(unitType := t)]])
  }

  /**
   * A long-range unit standing where a knight of the same health stood, on one of the two
   * middle rows of the maximizing player's half, is penalised: the evaluation drops.
   */
  lemma MisplacedLongRangeLowersScore(s: GameState, p: PlayerType, col: nat, row: nat, t: UnitType, c: Coefficients, maxCost: real)
    requires IsBoard(s.board) && HpDefined(s.board) && !s.ended && col < COLUMNS && row < ROWS
    requires PositiveCoefficients(c) && c.rowPenalty < 1.0 && maxCost > 0.0
    requires s.board[col][row].IsAlive() && s.board[col][row].unitType == Knight && t != Knight
    requires (row == ROWS - 3 || row == ROWS - 2) && Sign(p, row) == 1.0
    ensures Score(Retyped(s, col, row, t), p, c, maxCost) < Score(s, p, c, maxCost)
  {
    var k := Retyped(s, col, row, t);
    var a := CostMatrix(s.board, c);
    var b := CostMatrix(k.board, c);
    RetypedDominated(s, p, col, row, t, c);
    RetypedCellCost(s, col, row, t, c);
    assert b[col][row] * Sign(p, row) < a[col][row] * Sign(p, row);
    RowsSumDecreases(a, b, p, ROWS, col, row);
    assert SignedSum(b, p) < SignedSum(a, p);
    NormalizeStrictlyMonotone(SignedSum(b, p), SignedSum(a, p), c, maxCost);
  }

  lemma RetypedDominated(s: GameState, p: PlayerType, col: nat, row: nat, t: UnitType, c: Coefficients)
    requires IsBoard(s.board) && HpDefined(s.board) && col < COLUMNS && row < ROWS
    requires PositiveCoefficients(c) && c.rowPenalty < 1.0
    requires s.board[col][row].IsAlive() && s.board[col][row].unitType == Knight && t != Knight
    requires (row == ROWS - 3 || row == ROWS - 2) && Sign(p, row) == 1.0
    ensures Dominated(CostMatrix(Retyped(s, col, row, t).board, c), CostMatrix(s.board, c), p)
  {
    var k := Retyped(s, col, row, t);
    var a := CostMatrix(s.board, c);
    var b := CostMatrix(k.board, c);
    forall i, j | 0 <= i < COLUMNS && 0 <= j < ROWS
      ensures b[i][j] * Sign(p, j) <= a[i][j] * Sign(p, j)
    {
      if i != col || j != row {
        assert k.board[i][j] == s.board[i][j];
        assert forall r :: 0 <= r < ROWS ==> k.board[i][r].IsAlive() == s.board[i][r].IsAlive();
        CellCostLocal(s.board, k.board, i, j, c);
      } else {
        RetypedCellCost(s, col, row, t, c);
      }
    }
  }

  lemma RetypedCellCost(s: GameState, col: nat, row: nat, t: UnitType, c: Coefficients)
    requires IsBoard(s.board) && HpDefined(s.board) && col < COLUMNS && row < ROWS
    requires PositiveCoefficients(c) && c.rowPenalty < 1.0
    requires s.board[col][row].IsAlive() && s.board[col][row].unitType == Knight && t != Knight
    requires row == ROWS - 3 || row == ROWS - 2
    ensures CellCost(Retyped(s, col, row, t).board, col, row, c) < CellCost(s.board, col, row, c)
  {
    var kb := Retyped(s, col, row, t).board;
    var u := s.board[col][row];
    var v := u.(unitType := t);
    assert kb[col][row] == v;
    BaseHpCostSign(u);
    var g := WithGeneralBonus(BaseHpCost(u), u, c);
    assert g > 0.0 by {
      if u.isGeneral { assert BaseHpCost(u) * c.isGeneralBonus > 0.0; }
    }
    assert WithGeneralBonus(BaseHpCost(v), v, c) == g;
    RowPenaltyStrict(g, v, row, c);
    assert WithRowPenalty(g, u, row, c) == g;
    assert CellCost(kb, col, row, c) == WithRowPenalty(g, v, row, c);
    assert CellCost(s.board, col, row, c) == g;
    assert CellCost(kb, col, row, c) < CellCost(s.board, col, row, c);
  }

  lemma RowPenaltyStrict(x: real, u: Unit, row: int, c: Coefficients)
    requires x > 0.0 && 0.0 <= c.rowPenalty < 1.0 && OnWrongRow(u, row)
    ensures WithRowPenalty(x, u, row, c) < x
  {
    assert x * (1.0 - c.rowPenalty) > 0.0;
    assert x * (1.0 - c.rowPenalty) == x - x * c.rowPenalty;
    assert WithRowPenalty(x, u, row, c) == x * c.rowPenalty;
  }

  /** A cell's cost depends only on its own unit and on which units of its column are alive. */
  lemma CellCostLocal(b1: seq<seq<Unit>>, b2: seq<seq<Unit>>, i: nat, j: nat, c: Coefficients)
    requires IsBoard(b1) && IsBoard(b2) && HpDefined(b1) && HpDefined(b2) && i < COLUMNS && j < ROWS
    requires b1[i][j] == b2[i][j]
    requires forall r :: 0 <= r < ROWS ==> b1[i][r].IsAlive() == b2[i][r].IsAlive()
    ensures CellCost(b1, i, j, c) == CellCost(b2, i, j, c)
  {
  }

  /** The evaluator object; `unitsCosts` is the scratch matrix `evaluate` fills in place. */
  class BaseEvaluator {
    const unitsCosts: array2<real>
    const coefficients: Coefficients
    /** 1000 for the evaluator of the `evaluate` package, 1 for the older top-level one. */
    const maxCost: real

    ghost predicate Valid()
      reads this
    {
      unitsCosts.Length0 == COLUMNS && unitsCosts.Length1 == ROWS && UnitCostBound(coefficients) != 0.0
    }

    constructor (coefficients: Coefficients, maxCost: real)
      requires UnitCostBound(coefficients) != 0.0
      ensures Valid() && fresh(unitsCosts)
      ensures this.coefficients == coefficients && this.maxCost == maxCost
    {
      unitsCosts := new real[COLUMNS, ROWS];
      this.coefficients := coefficients;
      this.maxCost := maxCost;
    }

    /** The matrix as a value. */
    function Matrix(): (m: seq<seq<real>>)
      requires Valid()
      reads this, unitsCosts
      ensures IsCostMatrix(m)
      ensures forall col, row :: 0 <= col < COLUMNS && 0 <= row < ROWS ==> m[col][row] == unitsCosts[col, row]
    {
      seq(COLUMNS, col requires 0 <= col < COLUMNS reads unitsCosts =>
        seq(ROWS, row requires 0 <= row < ROWS reads unitsCosts => unitsCosts[col, row]))
    }

    method Evaluate(gameState: GameState, maximizingPlayerType: PlayerType) returns (r: real)
      requires Valid() && IsBoard(gameState.board) && HpDefined(gameState.board)
      modifies unitsCosts
      ensures r == Score(gameState, maximizingPlayerType, coefficients, maxCost)
    {
      if gameState.ended {
        return GameEndScore(gameState.winner, maximizingPlayerType, maxCost);
      }
      EvaluateUnitsCost(gameState);
      ghost var m, expected := Matrix(), CostMatrix(gameState.board, coefficients);
      forall col | 0 <= col < COLUMNS
        ensures m[col] == expected[col]
      {
      }
      assert m == expected;
      var sum := SumUnitsCosts(maximizingPlayerType);
      r := Normalize(sum, coefficients, maxCost);
    }

    method SumUnitsCosts(maximizingPlayerType: PlayerType) returns (sum: real)
      requires Valid()
      ensures sum == SignedSum(Matrix(), maximizingPlayerType)
    {
      var m := Matrix();
      var sign: real := if maximizingPlayerType == FirstPlayer then 1.0 else -1.0;
      sum := 0.0;
      for row := 0 to ROWS
        invariant sum == RowsSum(m, maximizingPlayerType, row)
        invariant sign == if row == ROWS / 2 then -Sign(maximizingPlayerType, row) else Sign(maximizingPlayerType, row)
      {
        if row == ROWS / 2 {
          sign := -sign;
        }
        ghost var before := sum;
        for col := 0 to COLUMNS
          invariant sum == before + RowSum(m, maximizingPlayerType, row, col)
        {
          sum := sum + unitsCosts[col, row] * sign;
        }
      }
    }

    method EvaluateUnitsCost(gameState: GameState)
      requires Valid() && IsBoard(gameState.board) && HpDefined(gameState.board)
      modifies unitsCosts
      ensures forall col, row :: 0 <= col < COLUMNS && 0 <= row < ROWS ==>
        unitsCosts[col, row] == CellCost(gameState.board, col, row, coefficients)
    {
      var board := gameState.board;
      for col := 0 to COLUMNS
        invariant forall i, j :: 0 <= i < col && 0 <= j < ROWS ==>
          unitsCosts[i, j] == CellCost(board, i, j, coefficients)
      {
        for row := 0 to ROWS
          invariant forall i, j :: 0 <= i < COLUMNS && 0 <= j < ROWS && (i < col || (i == col && j < row)) ==>
            unitsCosts[i, j] == CellCost(board, i, j, coefficients)
        {
          EvaluateBaseHpCost(col, row, board);
          EvaluateIsGeneral(col, row, board);
          EvaluateRowPenalty(col, row, board);
          EvaluateNoDefPenalty(col, row, board);
        }
      }
    }

    method EvaluateBaseHpCost(col: nat, row: nat, board: seq<seq<Unit>>)
      requires Valid() && IsBoard(board) && HpDefined(board) && col < COLUMNS && row < ROWS
      modifies unitsCosts
      ensures unitsCosts[col, row] == BaseHpCost(board[col][row])
      ensures forall i, j :: 0 <= i < COLUMNS && 0 <= j < ROWS && (i != col || j != row) ==>
        unitsCosts[i, j] == old(unitsCosts[i, j])
    {
      var unit := board[col][row];
      if unit.IsAlive() {
        unitsCosts[col, row] := (unit.currentHp as real) / (unit.maxHp as real);
      } else {
        unitsCosts[col, row] := 0.0;
      }
    }

    method EvaluateIsGeneral(col: nat, row: nat, board: seq<seq<Unit>>)
      requires Valid() && IsBoard(board) && col < COLUMNS && row < ROWS
      modifies unitsCosts
      ensures unitsCosts[col, row] == WithGeneralBonus(old(unitsCosts[col, row]), board[col][row], coefficients)
      ensures forall i, j :: 0 <= i < COLUMNS && 0 <= j < ROWS && (i != col || j != row) ==>
        unitsCosts[i, j] == old(unitsCosts[i, j])
    {
      var unit := board[col][row];
      if unit.isGeneral {
        unitsCosts[col, row] := unitsCosts[col, row] * coefficients.isGeneralBonus;
      }
    }

    method EvaluateRowPenalty(col: nat, row: nat, board: seq<seq<Unit>>)
      requires Valid() && IsBoard(board) && col < COLUMNS && row < ROWS
      modifies unitsCosts
      ensures unitsCosts[col, row] == WithRowPenalty(old(unitsCosts[col, row]), board[col][row], row, coefficients)
      ensures forall i, j :: 0 <= i < COLUMNS && 0 <= j < ROWS && (i != col || j != row) ==>
        unitsCosts[i, j] == old(unitsCosts[i, j])
    {
      var unit := board[col][row];
      if IsLongRangeUnit(unit) {
        if row == ROWS - 2 || row == ROWS - 3 {
          unitsCosts[col, row] := unitsCosts[col, row] * coefficients.rowPenalty;
        }
      } else {
        if row == ROWS - 4 || row == ROWS - 1 {
          unitsCosts[col, row] := unitsCosts[col, row] * coefficients.rowPenalty;
        }
      }
    }

    method EvaluateNoDefPenalty(col: nat, row: nat, board: seq<seq<Unit>>)
      requires Valid() && IsBoard(board) && col < COLUMNS && row < ROWS
      modifies unitsCosts
      ensures unitsCosts[col, row] == WithNoDefPenalty(old(unitsCosts[col, row]), board, col, row, coefficients)
      ensures forall i, j :: 0 <= i < COLUMNS && 0 <= j < ROWS && (i != col || j != row) ==>
        unitsCosts[i, j] == old(unitsCosts[i, j])
    {
      if row == 0 {
        if !board[col][row + 1].IsAlive() {
          unitsCosts[col, row] := unitsCosts[col, row] * coefficients.noDefPenalty;
        }
      }
      if row == ROWS - 1 {
        if !board[col][row - 1].IsAlive() {
          unitsCosts[col, row] := unitsCosts[col, row] * coefficients.noDefPenalty;
        }
      }
    }
  }
}
