/**
 * The parts of the game engine that the bots read: players, units, the 3 x 4 board,
 * move events, and the search tree that the engine's move generator and
 * `getPossibleState` spell out below a position.
 */
module Game {
  import opened Wrappers

  /** Board.COLUMNS and Board.ROWS. Rows 0-1 are the first player's half, rows 2-3 the second's. */
  const COLUMNS: nat := 3
  const ROWS: nat := 4

  datatype PlayerType = FirstPlayer | SecondPlayer

  function Opponent(p: PlayerType): PlayerType
  {
    if p == FirstPlayer then SecondPlayer else FirstPlayer
  }

  datatype UnitType = Knight | Archer | Healer | Mage

  /** A unit on the board; a unit whose hit points dropped to zero is dead. */
  datatype Unit = Unit(unitType: UnitType, owner: PlayerType, currentHp: int, maxHp: int, isGeneral: bool)
  {
    predicate IsAlive() { currentHp > 0 }
  }

  datatype Position = Position(x: int, y: int)

  /** A move of the unit standing on `from` against the cell `to`. */
  datatype MakeMoveEvent = MakeMoveEvent(from: Position, to: Position, attacker: Unit)

  /** A board is indexed `board[col][row]`, as `Board.getUnit(col, row)`. */
  predicate IsBoard(board: seq<seq<Unit>>)
  {
    |board| == COLUMNS && forall col :: 0 <= col < |board| ==> |board[col]| == ROWS
  }

  /** The position data the evaluators read: stage, winner, board and whose turn it is. */
  datatype GameState = GameState(ended: bool, winner: Option<PlayerType>, currentPlayer: PlayerType, board: seq<seq<Unit>>)

  /**
   * The game tree below a position as the engine presents it to the search bots.
   * `value` is the evaluator's score of the position for the maximizing player,
   * `moves` are the current player's possible moves, and `passMoves` the possible
   * moves after `changeCurrentPlayer`, which the bots ask for when `moves` is empty.
   */
  datatype Node = Node(ended: bool, value: real, moves: seq<Move>, passMoves: seq<Move>)

  /** A possible move together with what `getPossibleState` answers for it. */
  datatype Move = Move(event: MakeMoveEvent, outcomes: Outcomes)

  /** `Rejected` stands for a `GameException` thrown by `getPossibleState`. */
  datatype Outcomes = Applied(options: seq<StateChance>) | Rejected

  /** One possible result of a move (a hit or a miss, say) and its probability. */
  datatype StateChance = StateChance(state: Node, chance: real)

  function UnitTypeOf(m: Move): UnitType { m.event.attacker.unitType }

  function TargetOf(m: Move): Position { m.event.to }
}
