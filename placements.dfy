/**
 * What the placement stage works with: one player's half of the board as a COLUMNS x ROWS / 2
 * placement, and the engine's `PlaceUnitEvent`.
 */
module Placements {
  import opened Game

  /** `new PlaceUnitEvent(columns, rows, unit, playerType, inProcess, general)`. */
  datatype PlaceUnitEvent = PlaceUnitEvent(columns: int, rows: int, unit: Unit, playerType: PlayerType, inProcess: bool, general: bool)

  /** A placement, indexed `[col][row]` with `row < ROWS / 2`. */
  predicate IsPlacement(p: seq<seq<Unit>>)
  {
    |p| == COLUMNS && forall col :: 0 <= col < |p| ==> |p[col]| == ROWS / 2
  }

  /** The first player's half of a board, cell for cell. */
  function FirstHalf(board: seq<seq<Unit>>): (p: seq<seq<Unit>>)
    requires IsBoard(board)
    ensures IsPlacement(p)
    ensures forall col, row :: 0 <= col < COLUMNS && 0 <= row < ROWS / 2 ==> p[col][row] == board[col][row]
  {
    seq(COLUMNS, col requires 0 <= col < COLUMNS => board[col][..ROWS / 2])
  }

  /**
   * `extractFirstPlayerPlacement(board)` (and the same loop that builds `enemyPlacement` in
   * CachePlacementBot): a new COLUMNS x ROWS / 2 array filled column by column.
   */
  method ExtractFirstPlayerPlacement(board: seq<seq<Unit>>) returns (placement: seq<seq<Unit>>)
    requires IsBoard(board)
    ensures placement == FirstHalf(board)
  {
    placement := [];
    for col := 0 to COLUMNS
      invariant |placement| == col
      invariant forall c :: 0 <= c < col ==> placement[c] == board[c][..ROWS / 2]
    {
      var column := [];
      for row := 0 to ROWS / 2
        invariant column == board[col][..row]
      {
        assert board[col][..row + 1] == board[col][..row] + [board[col][row]];
        column := column + [board[col][row]];
      }
      placement := placement + [column];
    }
  }
}
