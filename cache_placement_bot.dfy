/**
 * placement_stage/CachePlacementBot: the placement-stage bot that places one unit per call from a
 * stack of prepared `PlaceUnitEvent`s, refilled from a cached best placement of the first player
 * (turned half a turn when the bot plays second).
 */
module CachePlacementBot {
  import opened Wrappers
  import opened Game
  import opened Placements

  /** `invertPlacement`: the placement turned half a turn, cell (col, row) taken from the opposite cell. */
  function Inverted(p: seq<seq<Unit>>): (q: seq<seq<Unit>>)
    requires IsPlacement(p)
    ensures IsPlacement(q)
  {
    seq(COLUMNS, col requires 0 <= col < COLUMNS =>
      seq(ROWS / 2, row requires 0 <= row < ROWS / 2 => p[COLUMNS - col - 1][ROWS / 2 - row - 1]))
  }

  /** Turning a placement twice gives it back. */
  lemma InvertedInvolution(p: seq<seq<Unit>>)
    requires IsPlacement(p)
    ensures Inverted(Inverted(p)) == p
  {
    var q := Inverted(Inverted(p));
    forall col | 0 <= col < COLUMNS
      ensures q[col] == p[col]
    {
      assert |q[col]| == |p[col]|;
      forall row | 0 <= row < ROWS / 2
        ensures q[col][row] == p[col][row]
      {
        assert q[col][row] == Inverted(p)[COLUMNS - col - 1][ROWS / 2 - row - 1];
      }
    }
  }

  /** `invertPlacement(placement)`: fills the new array column by column. */
  method InvertPlacement(placement: seq<seq<Unit>>) returns (temp: seq<seq<Unit>>)
    requires IsPlacement(placement)
    ensures temp == Inverted(placement)
  {
    temp := [];
    for col := 0 to COLUMNS
      invariant |temp| == col
      invariant forall c :: 0 <= c < col ==> temp[c] == Inverted(placement)[c]
    {
      var column := [];
      for row := 0 to ROWS / 2
        invariant |column| == row
        invariant forall r :: 0 <= r < row ==> column[r] == placement[COLUMNS - col - 1][ROWS / 2 - r - 1]
      {
        column := column + [placement[COLUMNS - col - 1][ROWS / 2 - row - 1]];
      }
      temp := temp + [column];
    }
  }

  /** The first board row of `player`'s half. */
  function HalfStart(player: PlayerType): nat
  {
    if player == FirstPlayer then 0 else ROWS / 2
  }

  /** The event that places cell (col, row) of the placement on `player`'s half. */
  function CellEvent(p: seq<seq<Unit>>, player: PlayerType, col: nat, row: nat): PlaceUnitEvent
    requires IsPlacement(p) && col < COLUMNS && row < ROWS / 2
  {
    PlaceUnitEvent(col, HalfStart(player) + row, p[col][row], player, col != 0 || row != 0, p[col][row].isGeneral)
  }

  /** The stack built by `generateEventsFromPlacements`, bottom first: column by column, row by row. */
  function PlacementEvents(p: seq<seq<Unit>>, player: PlayerType): seq<PlaceUnitEvent>
    requires IsPlacement(p)
  {
    seq(COLUMNS * (ROWS / 2), k requires 0 <= k < COLUMNS * (ROWS / 2) => CellEvent(p, player, k / (ROWS / 2), k % (ROWS / 2)))
  }

  /**
   * The events place every cell of the player's half exactly once, each with the placement's
   * unit for that cell, and only the bottom event, popped last, is not marked in process.
   */
  lemma PlacementEventsCoverHalf(p: seq<seq<Unit>>, player: PlayerType)
    requires IsPlacement(p)
    ensures var events := PlacementEvents(p, player);
      && |events| == COLUMNS * (ROWS / 2)
      && (forall k :: 0 <= k < |events| ==>
            && 0 <= events[k].columns < COLUMNS
            && HalfStart(player) <= events[k].rows < HalfStart(player) + ROWS / 2
            && events[k].unit == p[events[k].columns][events[k].rows - HalfStart(player)]
            && events[k].playerType == player
            && events[k].general == events[k].unit.isGeneral
            && (events[k].inProcess <==> k != 0))
      && (forall k, j :: 0 <= k < j < |events| ==> (events[k].columns, events[k].rows) != (events[j].columns, events[j].rows))
      && (forall col, row :: 0 <= col < COLUMNS && 0 <= row < ROWS / 2 ==>
            events[col * (ROWS / 2) + row] == CellEvent(p, player, col, row))
  {
    var events := PlacementEvents(p, player);
    forall k, j | 0 <= k < j < |events|
      ensures (events[k].columns, events[k].rows) != (events[j].columns, events[j].rows)
    {
      assert k == events[k].columns * (ROWS / 2) + (events[k].rows - HalfStart(player));
      assert j == events[j].columns * (ROWS / 2) + (events[j].rows - HalfStart(player));
    }
    forall col, row | 0 <= col < COLUMNS && 0 <= row < ROWS / 2
      ensures events[col * (ROWS / 2) + row] == CellEvent(p, player, col, row)
    {
      var k := col * (ROWS / 2) + row;
      assert k / (ROWS / 2) == col && k % (ROWS / 2) == row;
    }
  }

  /**
   * Playing second, the bot places the cached first-player layout mirrored through the centre
   * of the board: the unit of cell (col, row) lands on (COLUMNS - 1 - col, ROWS - 1 - row).
   */
  lemma SecondPlayerEventsMirror(p: seq<seq<Unit>>)
    requires IsPlacement(p)
    ensures var events := PlacementEvents(Inverted(p), SecondPlayer);
      forall k :: 0 <= k < |events| ==>
        0 <= COLUMNS - 1 - events[k].columns < COLUMNS && 0 <= ROWS - 1 - events[k].rows < ROWS / 2 &&
        events[k].unit == p[COLUMNS - 1 - events[k].columns][ROWS - 1 - events[k].rows]
  {
    var events := PlacementEvents(Inverted(p), SecondPlayer);
    forall k | 0 <= k < |events|
      ensures 0 <= COLUMNS - 1 - events[k].columns < COLUMNS && 0 <= ROWS - 1 - events[k].rows < ROWS / 2
      ensures events[k].unit == p[COLUMNS - 1 - events[k].columns][ROWS - 1 - events[k].rows]
    {
      var col, row := k / (ROWS / 2), k % (ROWS / 2);
      assert events[k] == CellEvent(Inverted(p), SecondPlayer, col, row);
      assert Inverted(p)[col][row] == p[COLUMNS - col - 1][ROWS / 2 - row - 1];
    }
  }

  /** `generateEventsFromPlacements(placement, playerType)`. */
  method GenerateEventsFromPlacements(placement: seq<seq<Unit>>, playerType: PlayerType) returns (events: seq<PlaceUnitEvent>)
    requires IsPlacement(placement)
    ensures events == PlacementEvents(placement, playerType)
  {
    events := [];
    for col := 0 to COLUMNS
      invariant |events| == col * (ROWS / 2)
      invariant forall k :: 0 <= k < |events| ==> events[k] == CellEvent(placement, playerType, k / (ROWS / 2), k % (ROWS / 2))
    {
      for row := 0 to ROWS / 2
        invariant |events| == col * (ROWS / 2) + row
        invariant forall k :: 0 <= k < |events| ==> events[k] == CellEvent(placement, playerType, k / (ROWS / 2), k % (ROWS / 2))
      {
        var eventRow := if FirstPlayer == playerType then row else row + ROWS / 2;
        var event := PlaceUnitEvent(col, eventRow, placement[col][row], playerType, col != 0 || row != 0, placement[col][row].isGeneral);
        assert event == CellEvent(placement, playerType, |events| / (ROWS / 2), |events| % (ROWS / 2));
        events := events + [event];
      }
    }
  }

  class CachePlacementBot {
    /** The placements of the best-first-placements file, one per line. */
    const bestFirstPlayerPlacements: seq<seq<seq<Unit>>>
    /** Placements of the first player and their counters, keyed by array identity as a `HashMap` over `Unit[][]` is. */
    const counterPlacements: map<array2<Option<Unit>>, seq<seq<Unit>>>
    /** The prepared events; the top of the stack is the last element. */
    var placeUnitEvents: seq<PlaceUnitEvent>

    /** The cached placements all have the COLUMNS x ROWS / 2 shape. */
    predicate Valid()
    {
      forall i :: 0 <= i < |bestFirstPlayerPlacements| ==> IsPlacement(bestFirstPlayerPlacements[i])
    }

    /** `new CachePlacementBot()`, given what the two cache files hold. */
    constructor (bestFirstPlayerPlacements: seq<seq<seq<Unit>>>, counterPlacements: map<array2<Option<Unit>>, seq<seq<Unit>>>)
      ensures this.bestFirstPlayerPlacements == bestFirstPlayerPlacements
      ensures this.counterPlacements == counterPlacements
      ensures placeUnitEvents == []
    {
      this.bestFirstPlayerPlacements := bestFirstPlayerPlacements;
      this.counterPlacements := counterPlacements;
      placeUnitEvents := [];
    }

    /**
     * The stack once `generatePlaceUnitEvent` has refilled it if it was empty; `None` when the
     * refill asks `nextInt` for an index below 0, that is, when no placement was loaded.
     */
    function Prepared(stack: seq<PlaceUnitEvent>, currentPlayer: PlayerType, randomIndex: int): Option<seq<PlaceUnitEvent>>
      requires Valid()
      requires 0 < |bestFirstPlayerPlacements| ==> 0 <= randomIndex < |bestFirstPlayerPlacements|
    {
      if stack != [] then Some(stack)
      else if |bestFirstPlayerPlacements| == 0 then None
      else if currentPlayer == FirstPlayer then Some(PlacementEvents(bestFirstPlayerPlacements[randomIndex], FirstPlayer))
      else Some(PlacementEvents(Inverted(bestFirstPlayerPlacements[randomIndex]), SecondPlayer))
    }

    /**
     * A refill always leaves a full set of events, so the pop that follows it succeeds, and
     * the refilled stack places the chosen cached placement (turned, when playing second).
     */
    lemma PreparedRefill(currentPlayer: PlayerType, randomIndex: int)
      requires Valid()
      requires 0 <= randomIndex < |bestFirstPlayerPlacements|
      ensures match Prepared([], currentPlayer, randomIndex)
        case None => false
        case Some(stack) =>
          && |stack| == COLUMNS * (ROWS / 2)
          && forall k :: 0 <= k < |stack| ==> stack[k].playerType == currentPlayer && HalfStart(currentPlayer) <= stack[k].rows < HalfStart(currentPlayer) + ROWS / 2
    {
      var p := bestFirstPlayerPlacements[randomIndex];
      if currentPlayer == FirstPlayer {
        PlacementEventsCoverHalf(p, FirstPlayer);
      } else {
        PlacementEventsCoverHalf(Inverted(p), SecondPlayer);
      }
    }

    /**
     * `generatePlaceUnitEvent(gameState)`. `randomIndex` is what `new Random().nextInt(n)`
     * draws; `Failure` is the exception `nextInt(0)` throws when no placement was loaded.
     */
    method GeneratePlaceUnitEvent(gameState: GameState, randomIndex: int) returns (event: Result<PlaceUnitEvent>)
      requires Valid() && IsBoard(gameState.board)
      requires 0 < |bestFirstPlayerPlacements| ==> 0 <= randomIndex < |bestFirstPlayerPlacements|
      modifies this`placeUnitEvents
      ensures match Prepared(old(placeUnitEvents), gameState.currentPlayer, randomIndex)
        case None => event.Failure? && placeUnitEvents == old(placeUnitEvents)
        case Some(stack) => |stack| > 0 && event == Success(stack[|stack| - 1]) && placeUnitEvents == stack[..|stack| - 1]
    {
      if placeUnitEvents == [] {
        if gameState.currentPlayer == FirstPlayer {
          if |bestFirstPlayerPlacements| == 0 {
            return Failure;
          }
          var placement := bestFirstPlayerPlacements[randomIndex];
          placeUnitEvents := GenerateEventsFromPlacements(placement, FirstPlayer);
        } else {
          var enemyPlacement := new Option<Unit>[COLUMNS, ROWS]((col, row) => None);
          var board := gameState.board;
          for col := 0 to COLUMNS
            invariant placeUnitEvents == []
          {
            for row := 0 to ROWS / 2
              invariant placeUnitEvents == []
            {
              enemyPlacement[col, row] := Some(board[col][row]);
            }
          }
          if enemyPlacement in counterPlacements {
            // The array was allocated above, and keys compare by identity: the lookup never hits.
            assert false;
          }
          if |bestFirstPlayerPlacements| == 0 {
            return Failure;
          }
          var placement := InvertPlacement(bestFirstPlayerPlacements[randomIndex]);
          placeUnitEvents := GenerateEventsFromPlacements(placement, SecondPlayer);
        }
        PlacementEventsCoverHalf(bestFirstPlayerPlacements[randomIndex], FirstPlayer);
        PlacementEventsCoverHalf(Inverted(bestFirstPlayerPlacements[randomIndex]), SecondPlayer);
      }
      event := Success(placeUnitEvents[|placeUnitEvents| - 1]);
      placeUnitEvents := placeUnitEvents[..|placeUnitEvents| - 1];
    }
  }

  // ---------------------------------------------------------------- loadCounterPlacements

  /** A line cut at every comma, empty fields included: one field more than the line has commas. */
  function Fields(line: string): (fields: seq<string>)
    ensures |fields| == multiset(line)[','] + 1
    ensures forall i :: 0 <= i < |fields| ==> ',' !in fields[i]
  {
    if line == [] then [[]]
    else
      var rest := Fields(line[1..]);
      assert line == [line[0]] + line[1..];
      assert ',' !in rest[0];
      if line[0] == ',' then [[]] + rest else [[line[0]] + rest[0]] + rest[1..]
  }

  /** The list without the empty strings at its end. */
  function DropTrailingEmpty(fields: seq<string>): (kept: seq<string>)
    ensures kept <= fields
    ensures kept == [] || kept[|kept| - 1] != []
    ensures forall i :: |kept| <= i < |fields| ==> fields[i] == []
  {
    if fields == [] || fields[|fields| - 1] != [] then fields
    else DropTrailingEmpty(fields[..|fields| - 1])
  }

  /**
   * `String.split(",")`: a line with no comma is its own single part; otherwise the line is cut at
   * every comma and the empty parts at the end are dropped.
   */
  function Split(line: string): (parts: seq<string>)
    ensures forall i :: 0 <= i < |parts| ==> ',' !in parts[i]
    ensures ',' in line ==> parts == [] || parts[|parts| - 1] != []
  {
    if ',' !in line then [line] else DropTrailingEmpty(Fields(line))
  }

  /** The pair a loaded line contributes: its two parts when it splits into exactly two. */
  function KeptPair(line: string): seq<(string, string)>
  {
    var parts := Split(line);
    if |parts| == 2 then [(parts[0], parts[1])] else []
  }

  /** The pairs of JSON texts that the loader reads from the lines, in line order. */
  function KeptPairs(lines: seq<string>): (pairs: seq<(string, string)>)
    ensures |pairs| <= |lines|
  {
    if lines == [] then [] else KeptPairs(lines[..|lines| - 1]) + KeptPair(lines[|lines| - 1])
  }

  /**
   * The line loop of `loadCounterPlacements()`: each line is split at its commas and kept, as the
   * two JSON texts it holds, only when it has exactly two parts.
   */
  method LoadCounterPlacements(lines: seq<string>) returns (pairs: seq<(string, string)>)
    ensures pairs == KeptPairs(lines)
  {
    pairs := [];
    for i := 0 to |lines|
      invariant pairs == KeptPairs(lines[..i])
    {
      assert lines[..i + 1][..i] == lines[..i];
      var parts := Split(lines[i]);
      if |parts| == 2 {
        pairs := pairs + [(parts[0], parts[1])];
      }
    }
    assert lines[..|lines|] == lines;
  }

  /** With no comma in the first line, the fields of a joined line are that line and the second's fields. */
  lemma {:induction false} FieldsAfterFirst(first: string, second: string)
    requires ',' !in first
    ensures Fields(first + "," + second) == [first] + Fields(second)
    decreases |first|
  {
    if first == [] {
      assert first + "," + second == [','] + second;
      assert (first + "," + second)[1..] == second;
    } else {
      assert (first + "," + second)[1..] == first[1..] + "," + second;
      assert ',' !in first[1..] by {
        forall c | c in first[1..] ensures c != ',' { assert c in first; }
      }
      FieldsAfterFirst(first[1..], second);
      assert first == [first[0]] + first[1..];
    }
  }

  /** A line with no comma is a single field. */
  lemma {:induction false} CommaFreeFields(line: string)
    requires ',' !in line
    ensures Fields(line) == [line]
    decreases |line|
  {
    if line != [] {
      assert ',' !in line[1..] by {
        forall c | c in line[1..] ensures c != ',' { assert c in line; }
      }
      CommaFreeFields(line[1..]);
      assert line == [line[0]] + line[1..];
    }
  }

  /** A line that does not end in a comma has a non-empty last field. */
  lemma {:induction false} LastFieldNonEmpty(line: string)
    requires line != [] && line[|line| - 1] != ','
    ensures Fields(line)[|Fields(line)| - 1] != []
    decreases |line|
  {
    if |line| > 1 {
      LastFieldNonEmpty(line[1..]);
    }
  }

  /**
   * The loader gives back both lines that `generateCSVFromJsonFiles` joined exactly when neither
   * holds a comma and the second is not empty.
   */
  lemma SplitJoined(first: string, second: string)
    ensures Split(first + "," + second) == [first, second]
      <==> ',' !in first && ',' !in second && second != []
  {
    var line := first + "," + second;
    assert line[|first|] == ',';
    if ',' !in first && ',' !in second && second != [] {
      FieldsAfterFirst(first, second);
      CommaFreeFields(second);
    }
  }

  /**
   * A line joined from halves of which one holds a comma, the second not ending in one, splits
   * into three parts or more, so the loader drops it.
   */
  lemma CommaInHalfDropped(first: string, second: string)
    requires ',' in first || ',' in second
    requires second != [] && second[|second| - 1] != ','
    ensures |Split(first + "," + second)| >= 3
    ensures KeptPair(first + "," + second) == []
  {
    var line := first + "," + second;
    assert line[|line| - 1] == second[|second| - 1];
    assert line[|first|] == ',';
    LastFieldNonEmpty(line);
    assert multiset(line) == multiset(first) + multiset([',']) + multiset(second);
  }

  /**
   * Writing comma-free first lines and non-empty comma-free second lines with
   * `generateCSVFromJsonFiles` and loading them back gives every pair back, in order.
   */
  lemma {:induction false} CsvRoundTrip(csv: seq<string>, firsts: seq<string>, seconds: seq<string>)
    requires |csv| == |firsts| == |seconds|
    requires forall i :: 0 <= i < |csv| ==> csv[i] == firsts[i] + "," + seconds[i]
    requires forall i :: 0 <= i < |csv| ==> ',' !in firsts[i] && ',' !in seconds[i] && seconds[i] != []
    ensures |KeptPairs(csv)| == |csv|
    ensures forall i :: 0 <= i < |csv| ==> KeptPairs(csv)[i] == (firsts[i], seconds[i])
    decreases |csv|
  {
    if csv != [] {
      var n := |csv| - 1;
      var done := KeptPairs(csv[..n]);
      CsvRoundTrip(csv[..n], firsts[..n], seconds[..n]);
      SplitJoined(firsts[n], seconds[n]);
      assert KeptPair(csv[n]) == [(firsts[n], seconds[n])];
      assert KeptPairs(csv) == done + [(firsts[n], seconds[n])];
      forall i | 0 <= i < |csv|
        ensures KeptPairs(csv)[i] == (firsts[i], seconds[i])
      {
        if i < n {
          assert done[i] == (firsts[..n][i], seconds[..n][i]);
        }
      }
    }
  }
}
