/**
 * placement_stage/PlacementCacheGenerator, the parts that do not touch files: assembling the
 * board of two placements, the most frequent counter placements, the choice of the best counter
 * placement by simulated win rate, the win rate itself, skipping input lines, and pairing the
 * lines of two files into CSV lines. File contents are sequences of lines.
 */
module PlacementCacheGenerator {
  import opened Wrappers
  import opened Game
  import opened Placements

  // ---------------------------------------------------------------- createBoard

  /** The board `createBoard` assembles: the placement on the first half, the counter placement turned half a turn on the second. */
  function CreatedBoard(placement: seq<seq<Unit>>, counterPlacement: seq<seq<Unit>>): (board: seq<seq<Unit>>)
    requires IsPlacement(placement) && IsPlacement(counterPlacement)
    ensures IsBoard(board)
  {
    seq(COLUMNS, col requires 0 <= col < COLUMNS =>
      seq(ROWS, row requires 0 <= row < ROWS =>
        if row < ROWS / 2 then placement[col][row] else counterPlacement[COLUMNS - col - 1][ROWS - row - 1]))
  }

  /**
   * Both placements can be read back from the board: the first half is the placement, and the
   * cell opposite (col, row) holds the counter placement's (col, row).
   */
  lemma CreatedBoardHalves(placement: seq<seq<Unit>>, counterPlacement: seq<seq<Unit>>)
    requires IsPlacement(placement) && IsPlacement(counterPlacement)
    ensures FirstHalf(CreatedBoard(placement, counterPlacement)) == placement
    ensures forall col, row :: 0 <= col < COLUMNS && 0 <= row < ROWS / 2 ==>
      CreatedBoard(placement, counterPlacement)[COLUMNS - col - 1][ROWS - row - 1] == counterPlacement[col][row]
  {
    var board := CreatedBoard(placement, counterPlacement);
    forall col | 0 <= col < COLUMNS
      ensures FirstHalf(board)[col] == placement[col]
    {
      assert |FirstHalf(board)[col]| == |placement[col]|;
    }
  }

  /**
   * `createBoard(placement, counterPlacement)`: `new Board()` and then `setUnit` for both cells
   * of each iteration. Whatever the new board held, every cell ends up written.
   */
  method CreateBoard(placement: seq<seq<Unit>>, counterPlacement: seq<seq<Unit>>) returns (board: array2<Unit>)
    requires IsPlacement(placement) && IsPlacement(counterPlacement)
    ensures fresh(board) && board.Length0 == COLUMNS && board.Length1 == ROWS
    ensures forall col, row :: 0 <= col < COLUMNS && 0 <= row < ROWS ==>
      board[col, row] == CreatedBoard(placement, counterPlacement)[col][row]
  {
    board := new Unit[COLUMNS, ROWS];
    for col := 0 to COLUMNS
      invariant forall c, r :: 0 <= c < col && 0 <= r < ROWS / 2 ==>
        board[c, r] == placement[c][r] && board[COLUMNS - c - 1, ROWS - r - 1] == counterPlacement[c][r]
    {
      for row := 0 to ROWS / 2
        invariant forall c, r :: 0 <= c < COLUMNS && 0 <= r < ROWS / 2 && (c < col || (c == col && r < row)) ==>
          board[c, r] == placement[c][r] && board[COLUMNS - c - 1, ROWS - r - 1] == counterPlacement[c][r]
      {
        board[col, row] := placement[col][row];
        board[COLUMNS - col - 1, ROWS - row - 1] := counterPlacement[col][row];
      }
    }
    forall col, row | 0 <= col < COLUMNS && ROWS / 2 <= row < ROWS
      ensures board[col, row] == counterPlacement[COLUMNS - col - 1][ROWS - row - 1]
    {
      var c, r := COLUMNS - col - 1, ROWS - row - 1;
      assert board[COLUMNS - c - 1, ROWS - r - 1] == counterPlacement[c][r];
    }
  }

  // ---------------------------------------------------------------- generateBestFirstPlacements

  /** A `Map.Entry<String, Integer>`: a line and how often it occurs. */
  datatype Entry = Entry(key: string, value: nat)

  /** The frequency loop of `generateBestFirstPlacements`: `put(line, getOrDefault(line, 0) + 1)` for every line. */
  method CountFrequencies(lines: seq<string>) returns (frequencyMap: map<string, nat>)
    ensures forall line :: line in frequencyMap <==> line in lines
    ensures forall line :: line in frequencyMap ==> frequencyMap[line] == multiset(lines)[line]
  {
    frequencyMap := map[];
    for i := 0 to |lines|
      invariant forall line :: line in frequencyMap <==> line in lines[..i]
      invariant forall line :: line in frequencyMap ==> frequencyMap[line] == multiset(lines[..i])[line]
    {
      var line := lines[i];
      var current := if line in frequencyMap then frequencyMap[line] else 0;
      assert lines[..i + 1] == lines[..i] + [line];
      frequencyMap := frequencyMap[line := current + 1];
    }
    assert lines[..|lines|] == lines;
  }

  /** `pq.poll()` on a priority queue ordered by value: the position of an entry of least value. */
  method Poll(pq: seq<Entry>) returns (head: nat)
    requires pq != []
    ensures head < |pq|
    ensures forall j :: 0 <= j < |pq| ==> pq[head].value <= pq[j].value
  {
    head := 0;
    for i := 1 to |pq|
      invariant head < i
      invariant forall j :: 0 <= j < i ==> pq[head].value <= pq[j].value
    {
      if pq[i].value < pq[head].value {
        head := i;
      }
    }
  }

  /** Whatever stays in the queue after removing position `idx` was somewhere else in it. */
  lemma RemovedAt(s: seq<Entry>, idx: nat, k: Entry)
    requires idx < |s| && k in s[..idx] + s[idx + 1..]
    ensures exists j :: 0 <= j < |s| && j != idx && s[j] == k
  {
    var rest := s[..idx] + s[idx + 1..];
    var i :| 0 <= i < |rest| && rest[i] == k;
    if i < idx {
      assert s[i] == k;
    } else {
      assert s[i + 1] == k;
    }
  }

  /** Removing position `idx` takes exactly that entry out of the queue's multiset. */
  lemma RemovedMultiset(s: seq<Entry>, idx: nat)
    requires idx < |s|
    ensures multiset(s) == multiset(s[..idx] + s[idx + 1..]) + multiset{s[idx]}
  {
    assert s == s[..idx] + [s[idx]] + s[idx + 1..];
  }

  /** Every entry left in the queue is at least the polled one, and no less than the earlier discarded. */
  lemma PollAfterOffer(pq: seq<Entry>, discarded: seq<Entry>, e: Entry, head: nat)
    requires forall d, k :: d in discarded && k in pq ==> d.value <= k.value
    requires head <= |pq| && forall j :: 0 <= j <= |pq| ==> (pq + [e])[head].value <= (pq + [e])[j].value
    ensures var offered := pq + [e];
      forall d, k :: d in discarded + [offered[head]] && k in offered[..head] + offered[head + 1..] ==> d.value <= k.value
  {
    var offered := pq + [e];
    forall d, k | d in discarded + [offered[head]] && k in offered[..head] + offered[head + 1..]
      ensures d.value <= k.value
    {
      RemovedAt(offered, head, k);
      var j :| 0 <= j < |offered| && j != head && offered[j] == k;
      if d in discarded {
        if j == |pq| {
          assert offered[head] == pq[head];
        } else {
          assert k == pq[j];
        }
      }
    }
  }

  /** One pass of the offer loop: `pq.offer(entry)`, then `pq.poll()` if more than 3 are queued. */
  method Offer(pq: seq<Entry>, ghost discarded: seq<Entry>, entry: Entry) returns (next: seq<Entry>, ghost nextDiscarded: seq<Entry>)
    requires |pq| <= 3 && (|pq| < 3 ==> discarded == [])
    requires forall d, k :: d in discarded && k in pq ==> d.value <= k.value
    ensures |next| == if |pq| < 3 then |pq| + 1 else 3
    ensures |next| < 3 ==> nextDiscarded == []
    ensures multiset(next) + multiset(nextDiscarded) == multiset(pq) + multiset(discarded) + multiset{entry}
    ensures forall d, k :: d in nextDiscarded && k in next ==> d.value <= k.value
  {
    var offered := pq + [entry];
    assert multiset(offered) == multiset(pq) + multiset{entry};
    if |offered| > 3 {
      var head := Poll(offered);
      RemovedMultiset(offered, head);
      PollAfterOffer(pq, discarded, entry, head);
      assert multiset(discarded + [offered[head]]) == multiset(discarded) + multiset{offered[head]};
      nextDiscarded := discarded + [offered[head]];
      next := offered[..head] + offered[head + 1..];
      calc {
        multiset(next) + multiset(nextDiscarded);
        multiset(next) + multiset{offered[head]} + multiset(discarded);
        multiset(offered) + multiset(discarded);
      }
    } else {
      next, nextDiscarded := offered, discarded;
    }
  }

  /**
   * The offer loop of `generateBestFirstPlacements`: offer every entry and poll the least one
   * whenever more than 3 are queued. `discarded` are the polled entries.
   */
  method OfferAll(entries: seq<Entry>) returns (pq: seq<Entry>, ghost discarded: seq<Entry>)
    ensures |pq| == if |entries| < 3 then |entries| else 3
    ensures multiset(pq) + multiset(discarded) == multiset(entries)
    ensures forall d, k :: d in discarded && k in pq ==> d.value <= k.value
  {
    pq := [];
    discarded := [];
    for i := 0 to |entries|
      invariant |pq| == if i < 3 then i else 3
      invariant multiset(pq) + multiset(discarded) == multiset(entries[..i])
      invariant forall d, k :: d in discarded && k in pq ==> d.value <= k.value
      invariant |pq| < 3 ==> discarded == []
    {
      assert entries[..i + 1] == entries[..i] + [entries[i]];
      pq, discarded := Offer(pq, discarded, entries[i]);
    }
    assert entries[..|entries|] == entries;
  }

  /** The drain loop of `generateBestFirstPlacements`: poll until the queue is empty; entries come out by non-decreasing value. */
  method DrainAll(queue: seq<Entry>) returns (polled: seq<Entry>)
    ensures multiset(polled) == multiset(queue)
    ensures forall i, j :: 0 <= i < j < |polled| ==> polled[i].value <= polled[j].value
  {
    var pq := queue;
    polled := [];
    while pq != []
      invariant multiset(polled) + multiset(pq) == multiset(queue)
      invariant forall i, j :: 0 <= i < j < |polled| ==> polled[i].value <= polled[j].value
      invariant forall o, k :: o in polled && k in pq ==> o.value <= k.value
      decreases |pq|
    {
      var head := Poll(pq);
      var rest := pq[..head] + pq[head + 1..];
      RemovedMultiset(pq, head);
      forall k | k in rest
        ensures k in pq && pq[head].value <= k.value
      {
        RemovedAt(pq, head, k);
      }
      polled := polled + [pq[head]];
      pq := rest;
    }
  }

  /**
   * The queue part of `generateBestFirstPlacements`: the 3 (or fewer) entries of greatest
   * value, in the order they are polled, which is by non-decreasing value.
   */
  method TopThree(entries: seq<Entry>) returns (top: seq<Entry>)
    ensures |top| == if |entries| < 3 then |entries| else 3
    ensures multiset(top) <= multiset(entries)
    ensures forall i, j :: 0 <= i < j < |top| ==> top[i].value <= top[j].value
    ensures forall d, t :: d in multiset(entries) - multiset(top) && t in top ==> d.value <= t.value
  {
    var pq, discarded := OfferAll(entries);
    top := DrainAll(pq);
    assert |multiset(top)| == |multiset(pq)|;
    assert multiset(entries) - multiset(top) == multiset(discarded);
    forall d, t | d in multiset(entries) - multiset(top) && t in top
      ensures d.value <= t.value
    {
      assert d in discarded;
      assert t in multiset(pq);
    }
  }

  /** No line is listed twice. */
  predicate Distinct(s: seq<string>)
  {
    forall i, j :: 0 <= i < j < |s| ==> s[i] != s[j]
  }

  /** In a sequence of entries with distinct keys, every entry occurs at most once. */
  lemma {:induction false} DistinctKeysOnce(s: seq<Entry>, e: Entry)
    requires forall i, j :: 0 <= i < j < |s| ==> s[i].key != s[j].key
    ensures multiset(s)[e] <= 1
    decreases |s|
  {
    if s != [] {
      var init, last := s[..|s| - 1], s[|s| - 1];
      assert s == init + [last];
      DistinctKeysOnce(init, e);
      if e == last {
        assert e !in init by {
          forall i | 0 <= i < |init|
            ensures init[i] != e
          {
            assert s[i].key != s[|s| - 1].key;
          }
        }
      }
    }
  }

  /** An entry that occurs at two positions occurs at least twice. */
  lemma RepeatedTwice(s: seq<Entry>, i: nat, j: nat)
    requires i < j < |s| && s[i] == s[j]
    ensures multiset(s)[s[i]] >= 2
  {
    assert s == s[..j] + [s[j]] + s[j + 1..];
    assert s[..j][i] == s[i];
    assert multiset(s[..j])[s[i]] >= 1;
  }

  /** The entries of the frequency map, in the map's iteration order `order`. */
  function Entries(order: seq<string>, lines: seq<string>): (entries: seq<Entry>)
    ensures |entries| == |order|
  {
    seq(|order|, k requires 0 <= k < |order| => Entry(order[k], multiset(lines)[order[k]]))
  }

  /** Every selected entry is a line with its frequency, and no two are the same line. */
  lemma SelectedEntries(order: seq<string>, lines: seq<string>, top: seq<Entry>)
    requires Distinct(order)
    requires multiset(top) <= multiset(Entries(order, lines))
    ensures forall t :: t in top ==> t.key in order && t.value == multiset(lines)[t.key]
    ensures forall i, j :: 0 <= i < j < |top| ==> top[i].key != top[j].key
  {
    var entries := Entries(order, lines);
    forall t | t in top
      ensures t.key in order && t.value == multiset(lines)[t.key]
    {
      assert t in multiset(entries);
    }
    forall i, j | 0 <= i < j < |top|
      ensures top[i].key != top[j].key
    {
      if top[i].key == top[j].key {
        assert top[i] in multiset(entries) && top[j] in multiset(entries);
        assert top[i] == top[j];
        RepeatedTwice(top, i, j);
        DistinctKeysOnce(entries, top[i]);
        assert false;
      }
    }
  }

  /** A line left out of the selection occurs no more often than any selected line. */
  lemma UnselectedNoMoreFrequent(order: seq<string>, lines: seq<string>, top: seq<Entry>, line: string, t: Entry)
    requires line in order && t in top && forall u :: u in top ==> u.key != line
    requires forall d, u :: d in multiset(Entries(order, lines)) - multiset(top) && u in top ==> d.value <= u.value
    ensures multiset(lines)[line] <= t.value
  {
    var entries := Entries(order, lines);
    var k :| 0 <= k < |order| && order[k] == line;
    var e := entries[k];
    assert e !in top;
    assert e in multiset(entries) - multiset(top);
  }

  /** The lines of the selected entries, in poll order. */
  function Keys(top: seq<Entry>): (keys: seq<string>)
    ensures |keys| == |top|
  {
    seq(|top|, k requires 0 <= k < |top| => top[k].key)
  }

  /**
   * What the queue keeps, read as lines: distinct lines of the file, least frequent first, and
   * none of the lines left out is more frequent than a kept one.
   */
  lemma SelectedLines(order: seq<string>, lines: seq<string>, top: seq<Entry>)
    requires Distinct(order)
    requires forall line :: line in order <==> line in lines
    requires multiset(top) <= multiset(Entries(order, lines))
    requires forall i, j :: 0 <= i < j < |top| ==> top[i].value <= top[j].value
    requires forall d, t :: d in multiset(Entries(order, lines)) - multiset(top) && t in top ==> d.value <= t.value
    ensures var written := Keys(top);
      && Distinct(written) && (forall k :: 0 <= k < |written| ==> written[k] in lines)
      && (forall i, j :: 0 <= i < j < |written| ==> multiset(lines)[written[i]] <= multiset(lines)[written[j]])
      && (forall line, w :: line in lines && line !in written && w in written ==> multiset(lines)[line] <= multiset(lines)[w])
  {
    var written := Keys(top);
    SelectedEntries(order, lines, top);
    forall line, w | line in lines && line !in written && w in written
      ensures multiset(lines)[line] <= multiset(lines)[w]
    {
      var i :| 0 <= i < |written| && written[i] == w;
      UnwrittenNoMoreFrequent(order, lines, top, line, i);
    }
  }

  /** A line whose key was not written occurs no more often than the i-th written line. */
  lemma UnwrittenNoMoreFrequent(order: seq<string>, lines: seq<string>, top: seq<Entry>, line: string, i: nat)
    requires Distinct(order)
    requires forall line :: line in order <==> line in lines
    requires multiset(top) <= multiset(Entries(order, lines))
    requires forall d, t :: d in multiset(Entries(order, lines)) - multiset(top) && t in top ==> d.value <= t.value
    requires line in lines && line !in Keys(top) && i < |top|
    ensures multiset(lines)[line] <= multiset(lines)[Keys(top)[i]]
  {
    var written := Keys(top);
    SelectedEntries(order, lines, top);
    forall u | u in top
      ensures u.key != line
    {
      var m :| 0 <= m < |top| && top[m] == u;
      assert written[m] == u.key;
    }
    UnselectedNoMoreFrequent(order, lines, top, line, top[i]);
  }

  /**
   * `generateBestFirstPlacements()`: counts how often each line of the second placements file
   * occurs and writes the at most 3 most frequent distinct lines, least frequent first.
   * `order` is the iteration order of the frequency `HashMap`: each distinct line once.
   */
  method GenerateBestFirstPlacements(lines: seq<string>, order: seq<string>) returns (written: seq<string>)
    requires Distinct(order)
    requires forall line :: line in order <==> line in lines
    ensures |written| == if |order| < 3 then |order| else 3
    ensures Distinct(written) && forall k :: 0 <= k < |written| ==> written[k] in lines
    ensures forall i, j :: 0 <= i < j < |written| ==> multiset(lines)[written[i]] <= multiset(lines)[written[j]]
    ensures forall line, w :: line in lines && line !in written && w in written ==> multiset(lines)[line] <= multiset(lines)[w]
  {
    var frequencyMap := CountFrequencies(lines);
    var entries := seq(|order|, k requires 0 <= k < |order| => Entry(order[k], frequencyMap[order[k]]));
    assert entries == Entries(order, lines);
    var top := TopThree(entries);
    written := Keys(top);
    SelectedLines(order, lines, top);
  }

  // ---------------------------------------------------------------- simulateBattles

  /** `numGames` in `simulateBattles`. */
  const NUM_GAMES: nat := 5000

  /**
   * The share of simulated games the second player won, as `simulateBattles` returns it:
   * an outcome is `Success(1)` or `Success(2)` for a win of the first or second player,
   * any other value a draw, and `Failure` the exception `Future.get` throws, which makes it 0.
   */
  function WinRatio(outcomes: seq<Result<int>>): real
    requires |outcomes| == NUM_GAMES
  {
    if Failure in outcomes then 0.0 else multiset(outcomes)[Success(2)] as real / NUM_GAMES as real
  }

  /** The share lies in [0, 1]. */
  lemma WinRatioBounds(outcomes: seq<Result<int>>)
    requires |outcomes| == NUM_GAMES
    ensures 0.0 <= WinRatio(outcomes) <= 1.0
  {
    assert multiset(outcomes)[Success(2)] <= |multiset(outcomes)|;
  }

  /**
   * The counting loop of `simulateBattles` over the futures' outcomes, in submission order:
   * the second player's wins over first wins, second wins and draws together.
   */
  method SimulateBattles(outcomes: seq<Result<int>>) returns (ratio: real)
    requires |outcomes| == NUM_GAMES
    ensures ratio == WinRatio(outcomes)
  {
    var firstWins, secondWins, draw := 0, 0, 0;
    for i := 0 to |outcomes|
      invariant Failure !in outcomes[..i]
      invariant firstWins == multiset(outcomes[..i])[Success(1)]
      invariant secondWins == multiset(outcomes[..i])[Success(2)]
      invariant firstWins + secondWins + draw == i
    {
      assert outcomes[..i + 1] == outcomes[..i] + [outcomes[i]];
      match outcomes[i]
      case Failure =>
        return 0.0;
      case Success(outcome) =>
        if outcome == 1 {
          firstWins := firstWins + 1;
        } else if outcome == 2 {
          secondWins := secondWins + 1;
        } else {
          draw := draw + 1;
        }
    }
    assert outcomes[..|outcomes|] == outcomes;
    ratio := secondWins as real / (firstWins + secondWins + draw) as real;
  }

  // ---------------------------------------------------------------- generateCounterPlacement

  /** `setPlayerTypeForPlacement(placement, playerType)`: every unit of the placement now belongs to `playerType`. */
  function OwnedBy(placement: seq<seq<Unit>>, playerType: PlayerType): seq<seq<Unit>>
  {
    seq(|placement|, col requires 0 <= col < |placement| =>
      seq(|placement[col]|, row requires 0 <= row < |placement[col]| => placement[col][row].(owner := playerType)))
  }

  /** The win rates of the candidates, one simulation each. */
  function Rates(battles: seq<seq<Result<int>>>): (rates: seq<real>)
    requires forall i :: 0 <= i < |battles| ==> |battles[i]| == NUM_GAMES
    ensures |rates| == |battles|
  {
    seq(|battles|, i requires 0 <= i < |battles| => WinRatio(battles[i]))
  }

  /** `j` holds a non-negative maximal rate and every later rate is smaller. */
  predicate IsLastMaximum(rates: seq<real>, j: int)
  {
    && 0 <= j < |rates|
    && rates[j] >= 0.0
    && (forall k :: 0 <= k < j ==> rates[k] <= rates[j])
    && (forall k :: j < k < |rates| ==> rates[k] < rates[j])
  }

  /** At most one position is the last maximum. */
  lemma LastMaximumUnique(rates: seq<real>, j: int, j': int)
    requires IsLastMaximum(rates, j) && IsLastMaximum(rates, j')
    ensures j == j'
  {
  }

  /**
   * `generateCounterPlacement(firstPlayerPlacement)`: each line of the first placements file is
   * a candidate, taken as the second player's and scored by `simulateBattles` against the
   * fixed first-player placement (`battles[i]` are the outcomes for candidate i). A candidate
   * replaces the best so far when its rate is at least the best rate, which starts at 0.
   * `None` is the empty string returned when there are no candidates.
   */
  method GenerateCounterPlacement(candidates: seq<seq<seq<Unit>>>, battles: seq<seq<Result<int>>>)
    returns (bestCounterPlacement: Option<seq<seq<Unit>>>)
    requires |battles| == |candidates|
    requires forall i :: 0 <= i < |battles| ==> |battles[i]| == NUM_GAMES
    ensures bestCounterPlacement.None? <==> candidates == []
    ensures bestCounterPlacement.Some? ==>
      exists j :: IsLastMaximum(Rates(battles), j) && bestCounterPlacement.value == OwnedBy(candidates[j], SecondPlayer)
  {
    ghost var rates := Rates(battles);
    var bestPercent := 0.0;
    bestCounterPlacement := None;
    ghost var chosen := -1;
    for i := 0 to |candidates|
      invariant i == 0 <==> chosen == -1
      invariant i == 0 ==> bestCounterPlacement == None && bestPercent == 0.0
      invariant i > 0 ==> IsLastMaximum(rates[..i], chosen) && bestPercent == rates[chosen]
      invariant i > 0 ==> bestCounterPlacement == Some(OwnedBy(candidates[chosen], SecondPlayer))
    {
      var counterPlacement := OwnedBy(candidates[i], SecondPlayer);
      var wins := SimulateBattles(battles[i]);
      WinRatioBounds(battles[i]);
      assert wins == rates[i];
      if wins >= bestPercent {
        assert forall k :: 0 <= k < i ==> rates[k] <= rates[i] by {
          if i > 0 {
            assert forall k :: 0 <= k < i ==> rates[..i][k] == rates[k];
          }
        }
        bestPercent := wins;
        bestCounterPlacement := Some(counterPlacement);
        chosen := i;
      } else {
        assert forall k :: 0 <= k < i ==> rates[..i][k] == rates[k];
      }
    }
    assert rates[..|candidates|] == rates;
  }

  // ---------------------------------------------------------------- generateCounterPlacementsFile

  /** How many lines are skipped before `startLine`, counting lines from 1. */
  function Skipped(startLine: int, count: nat): (n: nat)
    ensures n <= count
  {
    if startLine <= 1 then 0 else if startLine - 1 > count then count else startLine - 1
  }

  /**
   * The line loop of `generateCounterPlacementsFile(file, startLine)`: the lines that go on to
   * `generateCounterPlacement`, in file order. Line numbers start at 1, and lines numbered below
   * `startLine` are skipped.
   */
  method LinesToProcess(lines: seq<string>, startLine: int) returns (processed: seq<string>)
    ensures startLine <= 1 ==> processed == lines
    ensures 1 <= startLine <= |lines| + 1 ==> processed == lines[startLine - 1..]
    ensures startLine > |lines| ==> processed == []
  {
    processed := [];
    var currentLine := 0;
    for i := 0 to |lines|
      invariant currentLine == i
      invariant processed == lines[Skipped(startLine, i)..i]
    {
      currentLine := currentLine + 1;
      if currentLine < startLine {
        continue;
      }
      assert lines[Skipped(startLine, i + 1)..i + 1] == lines[Skipped(startLine, i)..i] + [lines[i]];
      processed := processed + [lines[i]];
    }
  }

  // ---------------------------------------------------------------- generateCSVFromJsonFiles

  /**
   * `generateCSVFromJsonFiles()`: line i of the first file, a comma and line i of the second,
   * until either file runs out.
   */
  method GenerateCsvFromJsonFiles(firstLines: seq<string>, secondLines: seq<string>) returns (csv: seq<string>)
    ensures |csv| == if |firstLines| <= |secondLines| then |firstLines| else |secondLines|
    ensures forall i :: 0 <= i < |csv| ==> csv[i] == firstLines[i] + "," + secondLines[i]
  {
    csv := [];
    var i := 0;
    while i < |firstLines| && i < |secondLines|
      invariant i <= |firstLines| && i <= |secondLines| && |csv| == i
      invariant forall k :: 0 <= k < i ==> csv[k] == firstLines[k] + "," + secondLines[k]
    {
      csv := csv + [firstLines[i] + "," + secondLines[i]];
      i := i + 1;
    }
  }
}
