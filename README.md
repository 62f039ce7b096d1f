# A verified model of the matthew_bots game agents

This project models the decision-making core of the `matthew_bots` agents of a two-player
turn-based tactics game. The game is played on a board of 3 columns by 4 rows. The first
player owns rows 0 and 1, the second player rows 2 and 3, and each unit has a type, an owner,
hit points and a general flag. The agents are:

- **Evaluators.** `BaseEvaluator` gives a board a score from per-cell unit costs (base HP
  share, general bonus, misplaced-row penalty, no-defender penalty), signed by half and
  normalised. `MonteCarloEvaluator` falls back on playouts when few units are left.
- **Move filtering.** `MovementBotUtil` drops moves that repeat a target for knights, archers
  and healers, and collects the reachable states of the remaining moves, discarding outcomes
  whose probability is at most 0.1.
- **Search bots.** These are depth-limited search bots over the game tree:
  - plain minimax, with and without state collection;
  - alpha-beta;
  - expectimax, with and without state collection;
  - fork/join "multi-threaded" minimax and expectimax;
  - the older unbounded-cost minimax bots.
- **Clustered minimax.** A minimax bot searches only representatives of k-means clusters of
  the reachable states, ranked by value.
- **Placement stage.** `CachePlacementBot` replays cached first-player placements and counter
  placements. `PlacementCacheGenerator` builds those caches: it counts placements, keeps the
  three most frequent, scores counter placements by simulated battles, and writes CSV lines.

The game engine is abstracted. A game tree is a `Node` value: a node is an ended flag, the
evaluator's value for it, and its list of moves. Each move is either rejected by the engine
(a `GameException`) or applied, giving a list of outcome states with their chances. A second
move list is used after the player to move passes. Each search bot is a class whose methods do
what the Java methods do, loop for loop. Each method is proved equal to a recursive
specification function that returns the chosen event, its score and the number of nodes
visited. The properties of the bots are lemmas about those functions:

- which move wins;
- the bounds on the score;
- node counts;
- the agreement between the sequential and fork/join versions;
- concrete trees that show edge-case behaviour.

Java `double` arithmetic is modelled on `real`. `Doubles.Double` adds infinities and NaN
where the unbounded bots use `Double.POSITIVE_INFINITY`/`NEGATIVE_INFINITY`.

The model follows the code as written wherever the code and its documentation disagree. For
example, `ExpectimaxMovementBot` divides by twice the number of moves, and the join of
`MultiThreadMinimax` credits result i to move i / 2. `MonteCarloEvaluator.monteCarloEvaluate`
tests the winner of the original state after every playout. The two bugs that have a clear
intended behaviour are listed under "## Findings", each with a corrected definition proved
beside the as-written one. Two observations about the counter-placement cache are stated in the
model rather than as findings:
- `CachePlacementBot` looks up a freshly allocated array in a `HashMap` keyed by arrays, which
  compares keys by identity, so the lookup never succeeds (`GeneratePlaceUnitEvent` proves this
  branch dead);
- the loader cuts each CSV line at every comma (`String.split(",")`, modelled by `Split`) and keeps
  only lines of exactly two parts. A line whose halves are comma-free, the second non-empty, is read
  back as its halves (`SplitJoined`, `CsvRoundTrip`); a line with a comma inside a half (and not
  ending in one) has three parts or more and is dropped (`CommaInHalfDropped`). The JSON of a
  placement separates its units by commas, so the lines of the written cache are dropped.

## Model

| member | source | states |
|---|---|---|
| `Evaluate.BaseEvaluator.constructor` | botfarm/src/main/java/io/deeplay/camp/botfarm/bots/matthew_bots/evaluate/BaseEvaluator.java:41-58 | the unit-cost array is a fresh COLUMNS x ROWS matrix and the coefficients are those read from the properties; `maxCost` is 1000 here and 1 for the older top-level evaluator |
| `Evaluate.BaseEvaluator.Evaluate` | botfarm/src/main/java/io/deeplay/camp/botfarm/bots/matthew_bots/evaluate/BaseEvaluator.java:67-76 | the result is `Score`: the game-end score for an ended game, otherwise the normalised signed sum of the cell costs just computed |
| `Evaluate.BaseEvaluator.SumUnitsCosts` | botfarm/src/main/java/io/deeplay/camp/botfarm/bots/matthew_bots/evaluate/BaseEvaluator.java:96-108 | the sum adds the cost of the maximizing player's half and subtracts the other half (`SignedSum` of the array) |
| `Evaluate.BaseEvaluator.EvaluateUnitsCost` | botfarm/src/main/java/io/deeplay/camp/botfarm/bots/matthew_bots/evaluate/BaseEvaluator.java:115-125 | after the pass over the board every array cell holds `CellCost` of its unit |
| `Evaluate.BaseEvaluator.EvaluateBaseHpCost` | botfarm/src/main/java/io/deeplay/camp/botfarm/bots/matthew_bots/evaluate/BaseEvaluator.java:134-141 | the cell becomes currentHp / maxHp of a live unit and 0 for a dead one; no other cell changes |
| `Evaluate.BaseEvaluator.EvaluateNoDefPenalty` | botfarm/src/main/java/io/deeplay/camp/botfarm/bots/matthew_bots/evaluate/BaseEvaluator.java:150-161 | a cell on an outer row (0 or ROWS - 1) is multiplied by the no-defender penalty exactly when the cell in front of it in the same column holds no live unit; no other cell changes |
| `Evaluate.BaseEvaluator.EvaluateRowPenalty` | botfarm/src/main/java/io/deeplay/camp/botfarm/bots/matthew_bots/evaluate/BaseEvaluator.java:170-181 | the cell is multiplied by the row penalty for a long-range unit on a middle row or a knight on an outer row; no other cell changes |
| `Evaluate.BaseEvaluator.EvaluateIsGeneral` | botfarm/src/main/java/io/deeplay/camp/botfarm/bots/matthew_bots/evaluate/BaseEvaluator.java:200-205 | the cell is multiplied by the general bonus exactly for a general; no other cell changes |
| `Evaluate.CostMatrix` | botfarm/src/main/java/io/deeplay/camp/botfarm/bots/matthew_bots/evaluate/BaseEvaluator.java:115-125 | the cost matrix is COLUMNS x ROWS and each cell is the four cost steps applied in the source's order |
| `Evaluate.Normalize` | botfarm/src/main/java/io/deeplay/camp/botfarm/bots/matthew_bots/evaluate/BaseEvaluator.java:84-88 | normalising gives maxCost * sum / (6 * bound), where bound is the larger of maxUnitCost and minUnitCost |
| `Evaluate.NormalizeAlgebra` | botfarm/src/main/java/io/deeplay/camp/botfarm/bots/matthew_bots/evaluate/BaseEvaluator.java:84-88 | the source's affine formula `MAX_COST * ((sum - min) / (max - min) * 2 - 1)`, with min = -max, equals the scaled form |
| `Evaluate.BaseHpCostBounds` | botfarm/src/main/java/io/deeplay/camp/botfarm/bots/matthew_bots/evaluate/BaseEvaluator.java:134-141 | the base cost lies in [0, 1] when currentHp never exceeds maxHp |
| `Evaluate.BaseHpCostSign` | botfarm/src/main/java/io/deeplay/camp/botfarm/bots/matthew_bots/evaluate/BaseEvaluator.java:134-141 | the base cost is never negative and is positive for a live unit |
| `Evaluate.GeneralBonusBounds` | botfarm/src/main/java/io/deeplay/camp/botfarm/bots/matthew_bots/evaluate/BaseEvaluator.java:200-205 | the general bonus keeps a cost in [0, isGeneralBonus] and keeps a positive cost positive |
| `Evaluate.RowPenaltyBounds` | botfarm/src/main/java/io/deeplay/camp/botfarm/bots/matthew_bots/evaluate/BaseEvaluator.java:170-181 | the row penalty never raises a cost and keeps a positive cost positive |
| `Evaluate.RowPenaltyStrict` | botfarm/src/main/java/io/deeplay/camp/botfarm/bots/matthew_bots/evaluate/BaseEvaluator.java:170-181 | a penalty below 1 strictly lowers the cost of a unit on a wrong row |
| `Evaluate.NoDefPenaltyBounds` | botfarm/src/main/java/io/deeplay/camp/botfarm/bots/matthew_bots/evaluate/BaseEvaluator.java:150-161 | the no-defender penalty never raises a cost and keeps a positive cost positive |
| `Evaluate.NoDefPenaltyMonotone` | botfarm/src/main/java/io/deeplay/camp/botfarm/bots/matthew_bots/evaluate/BaseEvaluator.java:150-161 | fewer live units in the column can only lower the penalised cost, and the same liveness gives the same cost |
| `Evaluate.CellCostBounds` | botfarm/src/main/java/io/deeplay/camp/botfarm/bots/matthew_bots/evaluate/BaseEvaluator.java:115-125 | with sensible coefficients every cell cost lies in [0, isGeneralBonus] |
| `Evaluate.CellCostPositive` | botfarm/src/main/java/io/deeplay/camp/botfarm/bots/matthew_bots/evaluate/BaseEvaluator.java:115-125 | with positive coefficients a live unit has a positive cost and no cost is negative |
| `Evaluate.CellCostLocal` | botfarm/src/main/java/io/deeplay/camp/botfarm/bots/matthew_bots/evaluate/BaseEvaluator.java:115-125 | a cell's cost depends only on its own unit and on which units of its column are alive |
| `Evaluate.RowsSumBounds` | botfarm/src/main/java/io/deeplay/camp/botfarm/bots/matthew_bots/evaluate/BaseEvaluator.java:96-108 | the signed sum over the first rows is bounded by the number of own and opposing cells times the cell bound |
| `Evaluate.SignedSumBounded` | botfarm/src/main/java/io/deeplay/camp/botfarm/bots/matthew_bots/evaluate/BaseEvaluator.java:96-108 | the signed sum of a board lies within 6 times the unit-cost bound either way, as the normaliser assumes |
| `Evaluate.NormalizeBounded` | botfarm/src/main/java/io/deeplay/camp/botfarm/bots/matthew_bots/evaluate/BaseEvaluator.java:84-88 | a sum within those bounds normalises into [-maxCost, maxCost] |
| `Evaluate.NormalizeNegates` | botfarm/src/main/java/io/deeplay/camp/botfarm/bots/matthew_bots/evaluate/BaseEvaluator.java:84-88 | normalising commutes with negation |
| `Evaluate.NormalizeStrictlyMonotone` | botfarm/src/main/java/io/deeplay/camp/botfarm/bots/matthew_bots/evaluate/BaseEvaluator.java:84-88 | normalising is strictly increasing |
| `Evaluate.ScoreBounded` | botfarm/src/main/java/io/deeplay/camp/botfarm/bots/matthew_bots/evaluate/BaseEvaluator.java:67-76 | the score lies in [-maxCost, maxCost] for every board, ended or not |
| `Evaluate.RowsSumOpposite` | botfarm/src/main/java/io/deeplay/camp/botfarm/bots/matthew_bots/evaluate/BaseEvaluator.java:96-108 | the signed sum seen by the second player is the negation of the first player's |
| `Evaluate.ScoreZeroSum` | botfarm/src/main/java/io/deeplay/camp/botfarm/bots/matthew_bots/evaluate/BaseEvaluator.java:67-76 | the score is zero-sum: the second player's score is the negation of the first player's |
| `Evaluate.ScoreIgnoresCurrentPlayer` | botfarm/src/main/java/io/deeplay/camp/botfarm/bots/matthew_bots/evaluate/BaseEvaluator.java:67-76 | the score does not depend on whose turn it is |
| `Evaluate.ScoreScales` | botfarm/src/main/java/io/deeplay/camp/botfarm/bots/matthew_bots/BaseEvaluator.java:42-57 | the older evaluator, which does not multiply by MAX_COST, gives 1/1000 of the newer one's score |
| `Evaluate.RowsSumDecreases` | botfarm/src/main/java/io/deeplay/camp/botfarm/bots/matthew_bots/evaluate/BaseEvaluator.java:96-108 | a matrix no better cell by cell has no larger signed sum, and a strictly worse cell makes it strictly smaller |
| `Evaluate.KilledCellCost` | botfarm/src/main/java/io/deeplay/camp/botfarm/bots/matthew_bots/evaluate/BaseEvaluator.java:115-125 | killing a unit zeroes its cell, lowers no cell's cost and leaves the other half's costs unchanged |
| `Evaluate.KillLowersScore` | botfarm/src/main/java/io/deeplay/camp/botfarm/bots/matthew_bots/evaluate/BaseEvaluator.java:67-76 | killing a live unit in the maximizing player's half strictly lowers that player's score |
| `Evaluate.RetypedCellCost` | botfarm/src/main/java/io/deeplay/camp/botfarm/bots/matthew_bots/evaluate/BaseEvaluator.java:170-181 | turning a knight on a middle row into a long-range unit strictly lowers its cell cost |
| `Evaluate.RetypedDominated` | botfarm/src/main/java/io/deeplay/camp/botfarm/bots/matthew_bots/evaluate/BaseEvaluator.java:115-125 | after that change the cost matrix is no better anywhere in the player's half |
| `Evaluate.MisplacedLongRangeLowersScore` | botfarm/src/main/java/io/deeplay/camp/botfarm/bots/matthew_bots/evaluate/BaseEvaluator.java:67-76 | putting a long-range unit where a knight stood on a middle row strictly lowers the owner's score |
| `ClusterizationUtil.GetPoint` | botfarm/src/main/java/io/deeplay/camp/botfarm/bots/matthew_bots/clusterization/StateClusterable.java:21-29 | a clusterable point has the single coordinate it was built with |
| `ClusterizationUtil.GetClusterableStates` | botfarm/src/main/java/io/deeplay/camp/botfarm/bots/matthew_bots/clusterization/ClusterizationUtil.java:21-31 | there is one point per state, in order, and its coordinate is the state's evaluation times its probability |
| `ClusterizationUtil.StatesOfClusterables` | botfarm/src/main/java/io/deeplay/camp/botfarm/bots/matthew_bots/clusterization/ClusterizationUtil.java:21-31 | the states of the points are the original states (round trip) |
| `ClusterizationUtil.ClusterablesInRange` | botfarm/src/main/java/io/deeplay/camp/botfarm/bots/matthew_bots/clusterization/ClusterizationUtil.java:21-31 | every coordinate lies within [MIN_COST, MAX_COST] when the states are bounded and the probabilities lie in [0, 1] |
| `ClustersAnalyzer.SquaredDistanceZero` | botfarm/src/main/java/io/deeplay/camp/botfarm/bots/matthew_bots/clusterization/ClustersAnalyzer.java:39-47 | a squared distance is non-negative and is zero exactly at the centre |
| `ClustersAnalyzer.WcssAppend` | botfarm/src/main/java/io/deeplay/camp/botfarm/bots/matthew_bots/clusterization/ClustersAnalyzer.java:39-47 | the WCSS of a cluster grows by the squared distance of each added point |
| `ClustersAnalyzer.WcssZero` | botfarm/src/main/java/io/deeplay/camp/botfarm/bots/matthew_bots/clusterization/ClustersAnalyzer.java:39-47 | the WCSS is non-negative and is zero exactly when every point sits at the centre |
| `ClustersAnalyzer.CalculateWcss` | botfarm/src/main/java/io/deeplay/camp/botfarm/bots/matthew_bots/clusterization/ClustersAnalyzer.java:39-47 | the loop computes the sum of squared distances of the points to the centre |
| `ClustersAnalyzer.ClusteringWcssNonNegative` | botfarm/src/main/java/io/deeplay/camp/botfarm/bots/matthew_bots/clusterization/ClustersAnalyzer.java:84-106 | the total WCSS of one clustering is non-negative |
| `ClustersAnalyzer.TotalWcssNonNegative` | botfarm/src/main/java/io/deeplay/camp/botfarm/bots/matthew_bots/clusterization/ClustersAnalyzer.java:84-106 | the WCSS summed over all states' clusterings is non-negative |
| `ClustersAnalyzer.CalculateAverageWcss` | botfarm/src/main/java/io/deeplay/camp/botfarm/bots/matthew_bots/clusterization/ClustersAnalyzer.java:84-106 | the average is the total WCSS divided by states times clusters, and it is non-negative |
| `ValueClusterization.Distance` | botfarm/src/main/java/io/deeplay/camp/botfarm/bots/matthew_bots/clusterization/ValueClusterization.java:48-61 | the one-dimensional Euclidean distance is the absolute difference |
| `ValueClusterization.InsertPermutes` | botfarm/src/main/java/io/deeplay/camp/botfarm/bots/matthew_bots/clusterization/ValueClusterization.java:48-61 | inserting into the sorted prefix adds exactly the inserted point |
| `ValueClusterization.InsertSorted` | botfarm/src/main/java/io/deeplay/camp/botfarm/bots/matthew_bots/clusterization/ValueClusterization.java:48-61 | inserting keeps the prefix sorted by distance |
| `ValueClusterization.InsertKeepsTies` | botfarm/src/main/java/io/deeplay/camp/botfarm/bots/matthew_bots/clusterization/ValueClusterization.java:48-61 | inserting keeps points at the same distance in their original order |
| `ValueClusterization.SortByDistanceIsStableSort` | botfarm/src/main/java/io/deeplay/camp/botfarm/bots/matthew_bots/clusterization/ValueClusterization.java:48-61 | the sort (like `List.sort`) yields a sorted permutation that keeps the order of ties |
| `ValueClusterization.InsertAt` | botfarm/src/main/java/io/deeplay/camp/botfarm/bots/matthew_bots/clusterization/ValueClusterization.java:48-61 | one insertion step puts `a[i]` into the sorted prefix in place and leaves the suffix alone |
| `ValueClusterization.SortPoints` | botfarm/src/main/java/io/deeplay/camp/botfarm/bots/matthew_bots/clusterization/ValueClusterization.java:48-61 | the points array ends up being the stable sort of its old contents |
| `ValueClusterization.PickRepresentativesFromCluster` | botfarm/src/main/java/io/deeplay/camp/botfarm/bots/matthew_bots/clusterization/ValueClusterization.java:48-61 | the result is the states of the `amount` points nearest the centre, and the array ends up sorted |
| `ValueClusterization.FromClusterNearest` | botfarm/src/main/java/io/deeplay/camp/botfarm/bots/matthew_bots/clusterization/ValueClusterization.java:48-61 | an empty cluster gives nothing. Otherwise `subList` succeeds exactly when 0 <= amount <= size, and then gives `amount` states, none farther from the centre than any state left out |
| `ValueClusterization.FromClusterMembers` | botfarm/src/main/java/io/deeplay/camp/botfarm/bots/matthew_bots/clusterization/ValueClusterization.java:48-61 | each representative is the state of a point of the cluster |
| `ValueClusterization.SingletonCluster` | botfarm/src/main/java/io/deeplay/camp/botfarm/bots/matthew_bots/clusterization/ValueClusterization.java:48-61 | a one-point cluster gives its state for amount 1 and nothing for amount 0 |
| `ValueClusterization.PickRepresentatives` | botfarm/src/main/java/io/deeplay/camp/botfarm/bots/matthew_bots/clusterization/ValueClusterization.java:70-85 | the loop collects each cluster's share of representatives, as `Representatives` defines |
| `ValueClusterization.ShareWithinSize` | botfarm/src/main/java/io/deeplay/camp/botfarm/bots/matthew_bots/clusterization/ValueClusterization.java:70-85 | a cluster's rounded share lies between 0 and its size |
| `ValueClusterization.CollectFailureSticks` | botfarm/src/main/java/io/deeplay/camp/botfarm/bots/matthew_bots/clusterization/ValueClusterization.java:70-85 | an exception in one cluster aborts the whole collection |
| `ValueClusterization.CollectSucceeds` | botfarm/src/main/java/io/deeplay/camp/botfarm/bots/matthew_bots/clusterization/ValueClusterization.java:70-85 | collection succeeds exactly when every non-empty cluster's share fits its size, and then yields the sum of the shares |
| `ValueClusterization.RepresentativesSucceed` | botfarm/src/main/java/io/deeplay/camp/botfarm/bots/matthew_bots/clusterization/ValueClusterization.java:70-85 | asking for at most as many states as there are points never fails |
| `ValueClusterization.CollectMembers` | botfarm/src/main/java/io/deeplay/camp/botfarm/bots/matthew_bots/clusterization/ValueClusterization.java:70-85 | every representative is the state of some cluster's point |
| `ValueClusterization.RoundingOvershoots` | botfarm/src/main/java/io/deeplay/camp/botfarm/bots/matthew_bots/clusterization/ValueClusterization.java:70-85 | because `Math.round` rounds each share up, three singletons asked for 2 give 3 states |
| `ValueClusterization.RoundingUndershoots` | botfarm/src/main/java/io/deeplay/camp/botfarm/bots/matthew_bots/clusterization/ValueClusterization.java:70-85 | because `Math.round` rounds each share down, three singletons asked for 1 give none |
| `MovementBotUtil.RemoveSimilarMovesOfUnitType` | botfarm/src/main/java/io/deeplay/camp/botfarm/bots/matthew_bots/movement_stage/MovementBotUtil.java:32-44 | the loop leaves the moves `WithoutSimilar` defines: of the given type, only the first move to each target survives |
| `MovementBotUtil.RemoveUnnecessaryMoves` | botfarm/src/main/java/io/deeplay/camp/botfarm/bots/matthew_bots/movement_stage/MovementBotUtil.java:20-24 | the result is the archer, knight and healer passes applied in that order |
| `MovementBotUtil.WithoutSimilarIsSubsequence` | botfarm/src/main/java/io/deeplay/camp/botfarm/bots/matthew_bots/movement_stage/MovementBotUtil.java:32-44 | filtering only removes moves and keeps the order of the rest |
| `MovementBotUtil.SubsequenceMembers` | botfarm/src/main/java/io/deeplay/camp/botfarm/bots/matthew_bots/movement_stage/MovementBotUtil.java:32-44 | every kept move is one of the original moves |
| `MovementBotUtil.SubsequenceTransitive` | botfarm/src/main/java/io/deeplay/camp/botfarm/bots/matthew_bots/movement_stage/MovementBotUtil.java:20-24 | removing moves in several passes still gives an order-preserving sub-list |
| `MovementBotUtil.OfTypeAppend` | botfarm/src/main/java/io/deeplay/camp/botfarm/bots/matthew_bots/movement_stage/MovementBotUtil.java:32-44 | selecting the moves of one type distributes over concatenation |
| `MovementBotUtil.OfTypeMember` | botfarm/src/main/java/io/deeplay/camp/botfarm/bots/matthew_bots/movement_stage/MovementBotUtil.java:32-44 | every move of the type appears in the selection of that type |
| `MovementBotUtil.WithoutSimilarKeepsOtherTypes` | botfarm/src/main/java/io/deeplay/camp/botfarm/bots/matthew_bots/movement_stage/MovementBotUtil.java:38 | a pass for one type leaves the moves of every other type exactly as they were |
| `MovementBotUtil.DistinctTargetsAppend` | botfarm/src/main/java/io/deeplay/camp/botfarm/bots/matthew_bots/movement_stage/MovementBotUtil.java:39 | appending a move keeps targets distinct exactly when it is of another type or its target is new |
| `MovementBotUtil.PairwiseDistinctAppend` | botfarm/src/main/java/io/deeplay/camp/botfarm/bots/matthew_bots/movement_stage/MovementBotUtil.java:39 | the same for a list of moves of one type |
| `MovementBotUtil.DistinctTargetsDependsOnType` | botfarm/src/main/java/io/deeplay/camp/botfarm/bots/matthew_bots/movement_stage/MovementBotUtil.java:38-39 | whether targets are distinct depends only on the moves of that type |
| `MovementBotUtil.WithoutSimilarDistinct` | botfarm/src/main/java/io/deeplay/camp/botfarm/bots/matthew_bots/movement_stage/MovementBotUtil.java:32-44 | after the pass, no two moves of the type share a target |
| `MovementBotUtil.WithoutSimilarCoversTargets` | botfarm/src/main/java/io/deeplay/camp/botfarm/bots/matthew_bots/movement_stage/MovementBotUtil.java:32-44 | every target of the type that was reachable is still reached by a kept move |
| `MovementBotUtil.WithoutSimilarOfDistinct` | botfarm/src/main/java/io/deeplay/camp/botfarm/bots/matthew_bots/movement_stage/MovementBotUtil.java:32-44 | a list whose targets are already distinct is left unchanged |
| `MovementBotUtil.WithoutSimilarIdempotent` | botfarm/src/main/java/io/deeplay/camp/botfarm/bots/matthew_bots/movement_stage/MovementBotUtil.java:32-44 | running the pass twice is the same as running it once |
| `MovementBotUtil.WithoutUnnecessaryIdempotent` | botfarm/src/main/java/io/deeplay/camp/botfarm/bots/matthew_bots/movement_stage/MovementBotUtil.java:20-44 | running `removeUnnecessaryMoves` twice is the same as running it once |
| `MovementBotUtil.WithoutSimilarUnfold` | botfarm/src/main/java/io/deeplay/camp/botfarm/bots/matthew_bots/movement_stage/MovementBotUtil.java:36-43 | one loop step: a move is dropped exactly when it repeats an earlier target of the type |
| `MovementBotUtil.FreshKept` | botfarm/src/main/java/io/deeplay/camp/botfarm/bots/matthew_bots/movement_stage/MovementBotUtil.java:39 | a move with no earlier similar move is kept |
| `MovementBotUtil.SimilarDropped` | botfarm/src/main/java/io/deeplay/camp/botfarm/bots/matthew_bots/movement_stage/MovementBotUtil.java:39-40 | a move with an earlier similar move is removed |
| `MovementBotUtil.WithoutUnnecessaryProperties` | botfarm/src/main/java/io/deeplay/camp/botfarm/bots/matthew_bots/movement_stage/MovementBotUtil.java:20-24 | after the three passes, archer, knight and healer targets are distinct, mage moves are untouched, and the result is a sub-list of the input |
| `MovementBotUtil.SingleMoveKept` | botfarm/src/main/java/io/deeplay/camp/botfarm/bots/matthew_bots/movement_stage/MovementBotUtil.java:20-24 | a single move is never removed |
| `MovementBotUtil.PairUnfold` | botfarm/src/main/java/io/deeplay/camp/botfarm/bots/matthew_bots/movement_stage/MovementBotUtil.java:32-44 | for two moves, the second is dropped exactly when it is similar to the first |
| `MovementBotUtil.RemoveSimilarMovesExample` | botfarm/src/test/java/io/deeplay/camp/botfarm/bots/matthew_bots/movement_stage/MovementBotUtilTest.java:42-52 | two knights attacking the same cell leave one move |
| `MovementBotUtil.RemoveNotSimilarMovesExample` | botfarm/src/test/java/io/deeplay/camp/botfarm/bots/matthew_bots/movement_stage/MovementBotUtilTest.java:55-65 | two knights attacking different cells keep both moves |
| `MovementBotUtil.RemoveUnnecessaryMovesExample` | botfarm/src/test/java/io/deeplay/camp/botfarm/bots/matthew_bots/movement_stage/MovementBotUtilTest.java:68-90 | two knights, two archers and two healers on one target leave three moves |
| `MovementBotUtil.ArcherPassExample` | botfarm/src/test/java/io/deeplay/camp/botfarm/bots/matthew_bots/movement_stage/MovementBotUtilTest.java:68-90 | on that list the archer pass drops the second archer |
| `MovementBotUtil.KnightPassExample` | botfarm/src/test/java/io/deeplay/camp/botfarm/bots/matthew_bots/movement_stage/MovementBotUtilTest.java:68-90 | the knight pass then drops the second knight |
| `MovementBotUtil.HealerPassExample` | botfarm/src/test/java/io/deeplay/camp/botfarm/bots/matthew_bots/movement_stage/MovementBotUtilTest.java:68-90 | the healer pass then drops the second healer |
| `MovementBotUtil.CollectPossibleStates` | botfarm/src/main/java/io/deeplay/camp/botfarm/bots/matthew_bots/movement_stage/MovementBotUtil.java:55-71 | the loop computes `PossibleStates`: the states of every applied move in order, or an exception if the engine rejects any move |
| `MovementBotUtil.PossibleStatesFailure` | botfarm/src/main/java/io/deeplay/camp/botfarm/bots/matthew_bots/movement_stage/MovementBotUtil.java:53-59 | the collection throws exactly when some move is rejected |
| `MovementBotUtil.PossibleStatesFailureSticks` | botfarm/src/main/java/io/deeplay/camp/botfarm/bots/matthew_bots/movement_stage/MovementBotUtil.java:58-59 | once a prefix of the moves throws, the whole collection throws |
| `MovementBotUtil.KeptOptionsSound` | botfarm/src/main/java/io/deeplay/camp/botfarm/bots/matthew_bots/movement_stage/MovementBotUtil.java:60-67 | every state kept for a move comes from one of its outcomes, has chance above 0.1, and records that move |
| `MovementBotUtil.KeptOptionsComplete` | botfarm/src/main/java/io/deeplay/camp/botfarm/bots/matthew_bots/movement_stage/MovementBotUtil.java:60-67 | every outcome with chance above 0.1 is kept |
| `MovementBotUtil.PossibleStatesExact` | botfarm/src/main/java/io/deeplay/camp/botfarm/bots/matthew_bots/movement_stage/MovementBotUtil.java:55-71 | the collected states are exactly the outcomes above 0.1 of the moves, each tagged with its move |
| `MonteCarloEvaluator.MonteCarloEvaluator.constructor` | botfarm/src/main/java/io/deeplay/camp/botfarm/bots/matthew_bots/evaluate/MonteCarloEvaluator.java:27-30 | the evaluator keeps the game count and a fresh base evaluator with MAX_COST 1000 |
| `MonteCarloEvaluator.MonteCarloEvaluator.Evaluate` | botfarm/src/main/java/io/deeplay/camp/botfarm/bots/matthew_bots/evaluate/MonteCarloEvaluator.java:40-46 | with at least 4 live units of the player the score is the base evaluator's; otherwise it is the Monte Carlo score |
| `MonteCarloEvaluator.MonteCarloEvaluator.GetAliveUnitsSizeOfPlayer` | botfarm/src/main/java/io/deeplay/camp/botfarm/bots/matthew_bots/evaluate/MonteCarloEvaluator.java:55-67 | the nested loop counts the live units in the player's half |
| `MonteCarloEvaluator.AliveUnitsBounds` | botfarm/src/main/java/io/deeplay/camp/botfarm/bots/matthew_bots/evaluate/MonteCarloEvaluator.java:55-67 | the count lies between 0 and 6, and it is 0 exactly when the player's half holds no live unit |
| `MonteCarloEvaluator.AliveUnitsLocal` | botfarm/src/main/java/io/deeplay/camp/botfarm/bots/matthew_bots/evaluate/MonteCarloEvaluator.java:55-67 | the count depends only on which units of the player's half are alive |
| `MonteCarloEvaluator.MonteCarloEvaluator.MonteCarloEvaluate` | botfarm/src/main/java/io/deeplay/camp/botfarm/bots/matthew_bots/evaluate/MonteCarloEvaluator.java:76-103 | as written, every playout tests the winner of the original state, so the score is `wins * MAX_COST / gamesCount` with wins either 0 or gamesCount |
| `MonteCarloEvaluator.AsWrittenAllOrNothing` | botfarm/src/main/java/io/deeplay/camp/botfarm/bots/matthew_bots/evaluate/MonteCarloEvaluator.java:98-102 | as written, the score is MAX_COST when the original state's winner is the player and 0 otherwise, whatever the playouts did |
| `MonteCarloEvaluator.MonteCarloEvaluator.MonteCarloFromPlayouts` | botfarm/src/main/java/io/deeplay/camp/botfarm/bots/matthew_bots/evaluate/MonteCarloEvaluator.java:76-103 | the corrected score counts the playouts whose own final winner is the player |
| `MonteCarloEvaluator.WinShareBounds` | botfarm/src/main/java/io/deeplay/camp/botfarm/bots/matthew_bots/evaluate/MonteCarloEvaluator.java:102 | the share of wins lies in [0, MAX_COST]: 0 exactly with no wins and MAX_COST exactly when every game is won |
| `MonteCarloEvaluator.PlayoutShareBounds` | botfarm/src/main/java/io/deeplay/camp/botfarm/bots/matthew_bots/evaluate/MonteCarloEvaluator.java:79-102 | the corrected score lies in [0, MAX_COST]; it is MAX_COST when every playout is won and 0 when none is |
| `MonteCarloEvaluator.PlayoutWinsExtremes` | botfarm/src/main/java/io/deeplay/camp/botfarm/bots/matthew_bots/evaluate/MonteCarloEvaluator.java:79-101 | all playouts won counts every game, none won counts 0 |
| `MonteCarloEvaluator.PlayoutsMatchingOriginalAgree` | botfarm/src/main/java/io/deeplay/camp/botfarm/bots/matthew_bots/evaluate/MonteCarloEvaluator.java:98-100 | when every playout ends with the original state's winner, the two readings agree |
| `MonteCarloEvaluator.MixedPlayoutsDiffer` | botfarm/src/main/java/io/deeplay/camp/botfarm/bots/matthew_bots/evaluate/MonteCarloEvaluator.java:98-100 | one won and one lost playout should score 500, but no original winner makes the as-written code give 500 |
| `Search.FoldBestIsFirstBest` | botfarm/src/main/java/io/deeplay/camp/botfarm/bots/matthew_bots/movement_stage/MinimaxBot.java:100-118 | the strict-improvement loop ends with a score at least as good as every candidate's and as the start. It is either the start value or the first candidate strictly better than the start and than all earlier candidates |
| `Search.FoldBestInRange` | botfarm/src/main/java/io/deeplay/camp/botfarm/bots/matthew_bots/movement_stage/MinimaxBot.java:100-118 | when the start and all candidates lie in a range, so does the choice |
| `Search.BoundedMembers` | botfarm/src/main/java/io/deeplay/camp/botfarm/bots/matthew_bots/movement_stage/MinimaxBot.java:76-85 | in a tree whose values lie in [MIN_COST, MAX_COST], every outcome of a move has a chance in [0, 1] and is itself such a tree |
| `Search.WeightedInRange` | botfarm/src/main/java/io/deeplay/camp/botfarm/bots/matthew_bots/movement_stage/MinimaxBot.java:107 | weighting a score in range by a probability keeps it in range |
| `Search.CollectedBounded` | botfarm/src/main/java/io/deeplay/camp/botfarm/bots/matthew_bots/movement_stage/MovementBotUtil.java:55-71 | every collected state of a bounded tree has a probability in (0.1, 1] and a bounded subtree |
| `MinimaxBot.MinimaxBot.constructor` | botfarm/src/main/java/io/deeplay/camp/botfarm/bots/matthew_bots/movement_stage/MinimaxBot.java:41-44 | the bot keeps its depth limit and starts with a fresh tree analyzer whose counters are zero |
| `MinimaxBot.MinimaxBot.GenerateMakeMoveEvent` | botfarm/src/main/java/io/deeplay/camp/botfarm/bots/matthew_bots/movement_stage/MinimaxBot.java:53-59 | the move returned is the one `Minimax` chooses at the root for the maximizing player. The node counter grows by the number of nodes visited and the stopwatch records the two clock readings |
| `MinimaxBot.MinimaxBot.MinimaxSearch` | botfarm/src/main/java/io/deeplay/camp/botfarm/bots/matthew_bots/movement_stage/MinimaxBot.java:69-90 | the result is `Minimax`: the evaluation at depth 0 or at an ended game; MIN_COST/MAX_COST for no move at the root; otherwise the pass moves with the roles swapped after the unnecessary moves are removed. The counter grows by the nodes visited |
| `MinimaxBot.MinimaxBot.Maximize` | botfarm/src/main/java/io/deeplay/camp/botfarm/bots/matthew_bots/movement_stage/MinimaxBot.java:100-118 | the loop over the collected states computes `Expand` for the maximizing side, and an exception leaves the initial (null, MIN_COST) |
| `MinimaxBot.MinimaxBot.Minimize` | botfarm/src/main/java/io/deeplay/camp/botfarm/bots/matthew_bots/movement_stage/MinimaxBot.java:128-145 | the same for the minimizing side, starting from (null, MAX_COST) and keeping strict decreases |
| `MinimaxBot.MinimaxBot.ExploreState` | botfarm/src/main/java/io/deeplay/camp/botfarm/bots/matthew_bots/movement_stage/MinimaxBot.java:105-111 | one loop step searches the state's subtree, weights the score by its probability and keeps it if strictly better |
| `MinimaxBot.Candidates` | botfarm/src/main/java/io/deeplay/camp/botfarm/bots/matthew_bots/movement_stage/MinimaxBot.java:105-111 | one candidate per collected state: its move and the probability-weighted score of its subtree |
| `MinimaxBot.FoldStatesIsFoldBest` | botfarm/src/main/java/io/deeplay/camp/botfarm/bots/matthew_bots/movement_stage/MinimaxBot.java:105-111 | the search loop is the strict-improvement choice over the candidates, and it visits the children's nodes and no others |
| `MinimaxBot.ExpandChoosesFirstBest` | botfarm/src/main/java/io/deeplay/camp/botfarm/bots/matthew_bots/movement_stage/MinimaxBot.java:100-118 | an exception from the engine gives the initial result and no nodes; otherwise the choice is the first best candidate |
| `MinimaxBot.MinimaxInRange` | botfarm/src/main/java/io/deeplay/camp/botfarm/bots/matthew_bots/movement_stage/MinimaxBot.java:69-90 | on a tree whose evaluations lie in [MIN_COST, MAX_COST], the search score lies there too |
| `MinimaxBot.CandidatesInRange` | botfarm/src/main/java/io/deeplay/camp/botfarm/bots/matthew_bots/movement_stage/MinimaxBot.java:105-111 | every candidate score of a bounded tree lies in [MIN_COST, MAX_COST] |
| `MinimaxBot.WeightedScoreInRange` | botfarm/src/main/java/io/deeplay/camp/botfarm/bots/matthew_bots/movement_stage/MinimaxBot.java:106-107 | a child's weighted score lies in [MIN_COST, MAX_COST] |
| `MinimaxMovementBot.MinimaxMovementBot.constructor` | botfarm/src/main/java/io/deeplay/camp/botfarm/bots/matthew_bots/movement_stage/MinimaxMovementBot.java:36-40 | the bot keeps its depth limit and a fresh zeroed tree analyzer |
| `MinimaxMovementBot.MinimaxMovementBot.GenerateMakeMoveEvent` | botfarm/src/main/java/io/deeplay/camp/botfarm/bots/matthew_bots/movement_stage/MinimaxMovementBot.java:49-55 | the move returned is the root choice of `Minimax`; the counter grows by the nodes visited |
| `MinimaxMovementBot.MinimaxMovementBot.MinimaxSearch` | botfarm/src/main/java/io/deeplay/camp/botfarm/bots/matthew_bots/movement_stage/MinimaxMovementBot.java:65-87 | the result and node count are those of `Minimax`, with the same base cases and pass rule as the other minimax bots |
| `MinimaxMovementBot.MinimaxMovementBot.Maximize` | botfarm/src/main/java/io/deeplay/camp/botfarm/bots/matthew_bots/movement_stage/MinimaxMovementBot.java:97-118 | the nested loop over moves and outcomes computes `FoldMoves`. Outcomes with chance below 0.1 are skipped, and a rejected move ends the loop with the best found so far |
| `MinimaxMovementBot.MinimaxMovementBot.Minimize` | botfarm/src/main/java/io/deeplay/camp/botfarm/bots/matthew_bots/movement_stage/MinimaxMovementBot.java:128-148 | the same for the minimizing side |
| `MinimaxMovementBot.MinimaxMovementBot.ExploreOutcomes` | botfarm/src/main/java/io/deeplay/camp/botfarm/bots/matthew_bots/movement_stage/MinimaxMovementBot.java:101-111 | the inner loop over one move's outcomes computes `FoldOutcomes` |
| `MinimaxMovementBot.Candidates` | botfarm/src/main/java/io/deeplay/camp/botfarm/bots/matthew_bots/movement_stage/MinimaxMovementBot.java:102-111 | one candidate per reached state: its move and the weighted score of its subtree |
| `MinimaxMovementBot.FoldMovesIsFoldReached` | botfarm/src/main/java/io/deeplay/camp/botfarm/bots/matthew_bots/movement_stage/MinimaxMovementBot.java:100-112 | the nested loops equal one loop over the reached states |
| `MinimaxMovementBot.FoldOutcomesIsFoldReached` | botfarm/src/main/java/io/deeplay/camp/botfarm/bots/matthew_bots/movement_stage/MinimaxMovementBot.java:102-111 | the same for the outcomes of one move |
| `MinimaxMovementBot.FoldReachedAppend` | botfarm/src/main/java/io/deeplay/camp/botfarm/bots/matthew_bots/movement_stage/MinimaxMovementBot.java:100-112 | folding over concatenated state lists is folding over one list and then the other |
| `MinimaxMovementBot.FoldReachedIsFoldBest` | botfarm/src/main/java/io/deeplay/camp/botfarm/bots/matthew_bots/movement_stage/MinimaxMovementBot.java:108-110 | the loop over reached states is the strict-improvement choice, and it counts exactly the children's nodes |
| `MinimaxMovementBot.ExpandChoosesFirstBest` | botfarm/src/main/java/io/deeplay/camp/botfarm/bots/matthew_bots/movement_stage/MinimaxMovementBot.java:97-118 | the move chosen is the first best candidate among the reached states |
| `MinimaxMovementBot.ReachedSound` | botfarm/src/main/java/io/deeplay/camp/botfarm/bots/matthew_bots/movement_stage/MinimaxMovementBot.java:100-112 | every reached state is an outcome with chance of at least 0.1 of some applied move, tagged with that move |
| `MinimaxMovementBot.ReachedOptionsSound` | botfarm/src/main/java/io/deeplay/camp/botfarm/bots/matthew_bots/movement_stage/MinimaxMovementBot.java:102-105 | the same for a single move |
| `MinimaxMovementBot.ReachedComplete` | botfarm/src/main/java/io/deeplay/camp/botfarm/bots/matthew_bots/movement_stage/MinimaxMovementBot.java:100-112 | when no move is rejected, every outcome with chance of at least 0.1 is reached |
| `MinimaxMovementBot.ReachedOptionsComplete` | botfarm/src/main/java/io/deeplay/camp/botfarm/bots/matthew_bots/movement_stage/MinimaxMovementBot.java:102-105 | the same for a single move |
| `MinimaxMovementBot.RejectedCutsOff` | botfarm/src/main/java/io/deeplay/camp/botfarm/bots/matthew_bots/movement_stage/MinimaxMovementBot.java:101-115 | a rejected move stops the search: only the moves before it are reached |
| `MinimaxMovementBot.ReachedBounded` | botfarm/src/main/java/io/deeplay/camp/botfarm/bots/matthew_bots/movement_stage/MinimaxMovementBot.java:102-106 | every reached state of a bounded tree has probability in [0, 1] and a bounded subtree |
| `MinimaxMovementBot.MinimaxInRange` | botfarm/src/main/java/io/deeplay/camp/botfarm/bots/matthew_bots/movement_stage/MinimaxMovementBot.java:65-87 | on a bounded tree the score lies in [MIN_COST, MAX_COST] |
| `MinimaxMovementBot.CandidatesInRange` | botfarm/src/main/java/io/deeplay/camp/botfarm/bots/matthew_bots/movement_stage/MinimaxMovementBot.java:106-107 | every candidate score lies in [MIN_COST, MAX_COST] |
| `MinimaxMovementBot.ThresholdOutcomeIsSearched` | botfarm/src/main/java/io/deeplay/camp/botfarm/bots/matthew_bots/movement_stage/MinimaxMovementBot.java:103 | an outcome of chance exactly 0.1 is searched here, with `<`. The state-collecting bot drops it, because `collectPossibleStates` keeps only chances above 0.1 |
| `MinimaxMovementBot.RejectionKeepsPartialBest` | botfarm/src/main/java/io/deeplay/camp/botfarm/bots/matthew_bots/movement_stage/MinimaxMovementBot.java:113-117 | when a later move is rejected, this bot keeps the best move found before it, while the state-collecting bot returns no move |
| `MinimaxMovementBot.PartialBestFolded` | botfarm/src/main/java/io/deeplay/camp/botfarm/bots/matthew_bots/movement_stage/MinimaxMovementBot.java:100-117 | the best result before a rejected move survives the exception |
| `MinimaxMovementBot.RejectedPairDiscarded` | botfarm/src/main/java/io/deeplay/camp/botfarm/bots/matthew_bots/movement_stage/MinimaxBot.java:102-115 | in the state-collecting bot a rejected move discards every candidate |
| `AlphaBetaMinimaxBot.AlphaBetaMinimaxBot.constructor` | botfarm/src/main/java/io/deeplay/camp/botfarm/bots/matthew_bots/movement_stage/AlphaBetaMinimaxBot.java:44-47 | the bot keeps its depth limit and a fresh zeroed tree analyzer |
| `AlphaBetaMinimaxBot.AlphaBetaMinimaxBot.GenerateMakeMoveEvent` | botfarm/src/main/java/io/deeplay/camp/botfarm/bots/matthew_bots/movement_stage/AlphaBetaMinimaxBot.java:56-62 | the move is the root choice of `AlphaBeta` started with the window [MIN_COST, MAX_COST]; the counter grows by the nodes visited |
| `AlphaBetaMinimaxBot.AlphaBetaMinimaxBot.MinimaxSearch` | botfarm/src/main/java/io/deeplay/camp/botfarm/bots/matthew_bots/movement_stage/AlphaBetaMinimaxBot.java:74-97 | the result and node count are those of `AlphaBeta` |
| `AlphaBetaMinimaxBot.AlphaBetaMinimaxBot.Maximize` | botfarm/src/main/java/io/deeplay/camp/botfarm/bots/matthew_bots/movement_stage/AlphaBetaMinimaxBot.java:109-141 | the nested loop computes `FoldMoves`: alpha rises to the best score, and both loops stop once beta <= alpha |
| `AlphaBetaMinimaxBot.AlphaBetaMinimaxBot.Minimize` | botfarm/src/main/java/io/deeplay/camp/botfarm/bots/matthew_bots/movement_stage/AlphaBetaMinimaxBot.java:153-185 | the same with beta falling to the best score |
| `AlphaBetaMinimaxBot.AlphaBetaMinimaxBot.ExploreOutcomes` | botfarm/src/main/java/io/deeplay/camp/botfarm/bots/matthew_bots/movement_stage/AlphaBetaMinimaxBot.java:119-132 | the inner loop over one move's outcomes computes `FoldOutcomes`, including the cutoff |
| `AlphaBetaMinimaxBot.AlphaBetaMinimaxBot.ExploreOutcome` | botfarm/src/main/java/io/deeplay/camp/botfarm/bots/matthew_bots/movement_stage/AlphaBetaMinimaxBot.java:123-131 | one step searches the outcome, keeps a strictly better score and tightens the window |
| `AlphaBetaMinimaxBot.AlphaBetaVisitsNoMore` | botfarm/src/main/java/io/deeplay/camp/botfarm/bots/matthew_bots/movement_stage/AlphaBetaMinimaxBot.java:109-141 | pruning never visits more nodes than the same search without pruning |
| `AlphaBetaMinimaxBot.MovesVisitNoMore` | botfarm/src/main/java/io/deeplay/camp/botfarm/bots/matthew_bots/movement_stage/AlphaBetaMinimaxBot.java:117-136 | the move loop with cutoffs visits no more nodes than the plain loop |
| `AlphaBetaMinimaxBot.OutcomesVisitNoMore` | botfarm/src/main/java/io/deeplay/camp/botfarm/bots/matthew_bots/movement_stage/AlphaBetaMinimaxBot.java:119-132 | the same for the outcome loop |
| `AlphaBetaMinimaxBot.StepVisitsNoMore` | botfarm/src/main/java/io/deeplay/camp/botfarm/bots/matthew_bots/movement_stage/AlphaBetaMinimaxBot.java:123-127 | the same for one step |
| `AlphaBetaMinimaxBot.PlainMovesGrow` | botfarm/src/main/java/io/deeplay/camp/botfarm/bots/matthew_bots/movement_stage/MinimaxMovementBot.java:100-112 | the node count of the plain search never decreases along the loop |
| `AlphaBetaMinimaxBot.PlainOutcomesGrow` | botfarm/src/main/java/io/deeplay/camp/botfarm/bots/matthew_bots/movement_stage/MinimaxMovementBot.java:102-111 | the same for the outcome loop |
| `AlphaBetaMinimaxBot.AlphaBetaInRange` | botfarm/src/main/java/io/deeplay/camp/botfarm/bots/matthew_bots/movement_stage/AlphaBetaMinimaxBot.java:74-97 | on a bounded tree the score lies in [MIN_COST, MAX_COST] whatever the window |
| `AlphaBetaMinimaxBot.ExpandedMovesBounded` | botfarm/src/main/java/io/deeplay/camp/botfarm/bots/matthew_bots/movement_stage/AlphaBetaMinimaxBot.java:82-92 | the moves searched from a bounded node lead to bounded subtrees |
| `AlphaBetaMinimaxBot.MovesInRange` | botfarm/src/main/java/io/deeplay/camp/botfarm/bots/matthew_bots/movement_stage/AlphaBetaMinimaxBot.java:117-136 | the move loop keeps the best score in range |
| `AlphaBetaMinimaxBot.OutcomesInRange` | botfarm/src/main/java/io/deeplay/camp/botfarm/bots/matthew_bots/movement_stage/AlphaBetaMinimaxBot.java:119-132 | the outcome loop keeps the best score in range |
| `AlphaBetaMinimaxBot.StepInRange` | botfarm/src/main/java/io/deeplay/camp/botfarm/bots/matthew_bots/movement_stage/AlphaBetaMinimaxBot.java:123-127 | one step keeps the best score in range |
| `AlphaBetaMinimaxBot.WindowNarrows` | botfarm/src/main/java/io/deeplay/camp/botfarm/bots/matthew_bots/movement_stage/AlphaBetaMinimaxBot.java:128 | the maximizing loop only raises alpha and leaves beta, and the minimizing loop only lowers beta and leaves alpha |
| `AlphaBetaMinimaxBot.OutcomesNarrow` | botfarm/src/main/java/io/deeplay/camp/botfarm/bots/matthew_bots/movement_stage/AlphaBetaMinimaxBot.java:119-132 | the same for the outcome loop |
| `ExpectimaxBot.ExpectimaxBot.constructor` | botfarm/src/main/java/io/deeplay/camp/botfarm/bots/matthew_bots/movement_stage/ExpectimaxBot.java:46-51 | the bot keeps its depth limit and a fresh zeroed tree analyzer |
| `ExpectimaxBot.ExpectimaxBot.GenerateMakeMoveEvent` | botfarm/src/main/java/io/deeplay/camp/botfarm/bots/matthew_bots/movement_stage/ExpectimaxBot.java:59-65 | the move is the root choice of `Expectimax`; the counter grows by the nodes visited |
| `ExpectimaxBot.ExpectimaxBot.ExpectimaxSearch` | botfarm/src/main/java/io/deeplay/camp/botfarm/bots/matthew_bots/movement_stage/ExpectimaxBot.java:74-98 | the result is `Expectimax`: the evaluation at depth 0 or at an ended game; MIN_COST or 0 for no move at the root; otherwise the pass rule, then maximize or expect |
| `ExpectimaxBot.ExpectimaxBot.Maximize` | botfarm/src/main/java/io/deeplay/camp/botfarm/bots/matthew_bots/movement_stage/ExpectimaxBot.java:107-128 | the loop over collected states computes `MaxNode`, with Java's `>` on doubles (a NaN never wins) |
| `ExpectimaxBot.ExpectimaxBot.Expect` | botfarm/src/main/java/io/deeplay/camp/botfarm/bots/matthew_bots/movement_stage/ExpectimaxBot.java:137-154 | the loop computes `ExpectNode`: the sum of weighted child scores divided by the number of states, which is NaN for no states; the event stays null |
| `ExpectimaxBot.FoldGreatestIsFirstGreatest` | botfarm/src/main/java/io/deeplay/camp/botfarm/bots/matthew_bots/movement_stage/ExpectimaxBot.java:112-119 | the chosen score is at least the start and every non-NaN candidate; the choice is the start or the first candidate strictly greater than all before it |
| `ExpectimaxBot.Candidates` | botfarm/src/main/java/io/deeplay/camp/botfarm/bots/matthew_bots/movement_stage/ExpectimaxBot.java:112-118 | one candidate per collected state, with the child's score weighted by its probability |
| `ExpectimaxBot.FoldMaxIsFoldGreatest` | botfarm/src/main/java/io/deeplay/camp/botfarm/bots/matthew_bots/movement_stage/ExpectimaxBot.java:112-119 | the maximize loop is that choice |
| `ExpectimaxBot.MaxNodeChoosesFirstGreatest` | botfarm/src/main/java/io/deeplay/camp/botfarm/bots/matthew_bots/movement_stage/ExpectimaxBot.java:107-128 | an exception gives (null, MIN_COST); otherwise the first greatest candidate is chosen |
| `ExpectimaxBot.ExpectimaxInRange` | botfarm/src/main/java/io/deeplay/camp/botfarm/bots/matthew_bots/movement_stage/ExpectimaxBot.java:74-98 | on a bounded tree the score is NaN or lies in [MIN_COST, MAX_COST] |
| `ExpectimaxBot.ChildrenInRange` | botfarm/src/main/java/io/deeplay/camp/botfarm/bots/matthew_bots/movement_stage/ExpectimaxBot.java:113-114 | every child's weighted score is NaN or in range |
| `ExpectimaxBot.WeightedDoubleInRange` | botfarm/src/main/java/io/deeplay/camp/botfarm/bots/matthew_bots/movement_stage/ExpectimaxBot.java:114 | weighting by a probability keeps a score NaN or in range |
| `ExpectimaxBot.MaxNodeInRange` | botfarm/src/main/java/io/deeplay/camp/botfarm/bots/matthew_bots/movement_stage/ExpectimaxBot.java:107-128 | the maximize result is never NaN and lies in range |
| `ExpectimaxBot.FoldMaxInRange` | botfarm/src/main/java/io/deeplay/camp/botfarm/bots/matthew_bots/movement_stage/ExpectimaxBot.java:112-119 | the maximize loop keeps the best in range |
| `ExpectimaxBot.ExpectNodeInRange` | botfarm/src/main/java/io/deeplay/camp/botfarm/bots/matthew_bots/movement_stage/ExpectimaxBot.java:137-154 | the expectation is NaN or lies in range |
| `ExpectimaxBot.FoldExpectInRange` | botfarm/src/main/java/io/deeplay/camp/botfarm/bots/matthew_bots/movement_stage/ExpectimaxBot.java:143-146 | after k states the running sum is NaN or lies within k times the range |
| `ExpectimaxBot.SumStepInRange` | botfarm/src/main/java/io/deeplay/camp/botfarm/bots/matthew_bots/movement_stage/ExpectimaxBot.java:145 | one addition widens the sum's range by one score |
| `ExpectimaxBot.MeanInRange` | botfarm/src/main/java/io/deeplay/camp/botfarm/bots/matthew_bots/movement_stage/ExpectimaxBot.java:148 | dividing a sum of k scores by k gives a score in range |
| `ExpectimaxBot.FoldExpectIsSum` | botfarm/src/main/java/io/deeplay/camp/botfarm/bots/matthew_bots/movement_stage/ExpectimaxBot.java:143-146 | with finite child scores the loop computes the plain weighted sum |
| `ExpectimaxBot.ExpectIsMean` | botfarm/src/main/java/io/deeplay/camp/botfarm/bots/matthew_bots/movement_stage/ExpectimaxBot.java:137-154 | with finite child scores the expectation is the weighted sum divided by the number of states, and NaN for none |
| `ExpectimaxBot.DeadEndExpectationIsIgnored` | botfarm/src/main/java/io/deeplay/camp/botfarm/bots/matthew_bots/movement_stage/ExpectimaxBot.java:116 | a child below the root with no moves on either side yields NaN (0 / 0), which `>` never prefers, so the root returns no move |
| `ExpectimaxMovementBot.ExpectimaxMovementBot.constructor` | botfarm/src/main/java/io/deeplay/camp/botfarm/bots/matthew_bots/movement_stage/ExpectimaxMovementBot.java:45-50 | the bot keeps its depth limit and a fresh zeroed tree analyzer |
| `ExpectimaxMovementBot.ExpectimaxMovementBot.GenerateMakeMoveEvent` | botfarm/src/main/java/io/deeplay/camp/botfarm/bots/matthew_bots/movement_stage/ExpectimaxMovementBot.java:58-64 | the move is the root choice of `Expectimax`; the counter grows by the nodes visited |
| `ExpectimaxMovementBot.ExpectimaxMovementBot.ExpectimaxSearch` | botfarm/src/main/java/io/deeplay/camp/botfarm/bots/matthew_bots/movement_stage/ExpectimaxMovementBot.java:73-95 | the result and node count are those of `Expectimax`: base cases, the pass rule, then maximize or expect |
| `ExpectimaxMovementBot.ExpectimaxMovementBot.Maximize` | botfarm/src/main/java/io/deeplay/camp/botfarm/bots/matthew_bots/movement_stage/ExpectimaxMovementBot.java:104-126 | the nested loop computes `FoldMaxMoves`. Outcomes below 0.1 are skipped, children are searched as chance nodes, and a rejected move keeps the best so far |
| `ExpectimaxMovementBot.ExpectimaxMovementBot.MaximizeOutcomes` | botfarm/src/main/java/io/deeplay/camp/botfarm/bots/matthew_bots/movement_stage/ExpectimaxMovementBot.java:109-120 | the inner loop over one move's outcomes computes `FoldMaxOutcomes` |
| `ExpectimaxMovementBot.ExpectimaxMovementBot.Expect` | botfarm/src/main/java/io/deeplay/camp/botfarm/bots/matthew_bots/movement_stage/ExpectimaxMovementBot.java:135-157 | the nested loop computes `ExpectMoves`: the sum of weighted outcome scores divided by twice the number of moves, and (null, 0) after an exception |
| `ExpectimaxMovementBot.ExpectimaxMovementBot.SumOutcomes` | botfarm/src/main/java/io/deeplay/camp/botfarm/bots/matthew_bots/movement_stage/ExpectimaxMovementBot.java:141-149 | the inner loop over one move's outcomes computes `FoldSumOutcomes` |
| `ExpectimaxMovementBot.AllAppliedPrefix` | botfarm/src/main/java/io/deeplay/camp/botfarm/bots/matthew_bots/movement_stage/ExpectimaxMovementBot.java:140-150 | a move list with no rejected move up to index i extends by one applied move |
| `ExpectimaxMovementBot.FoldMaxMovesIsReached` | botfarm/src/main/java/io/deeplay/camp/botfarm/bots/matthew_bots/movement_stage/ExpectimaxMovementBot.java:108-121 | the nested maximize loops equal one loop over the reached states |
| `ExpectimaxMovementBot.FoldMaxOutcomesIsReached` | botfarm/src/main/java/io/deeplay/camp/botfarm/bots/matthew_bots/movement_stage/ExpectimaxMovementBot.java:110-120 | the same for one move's outcomes |
| `ExpectimaxMovementBot.FoldMaxReachedAppend` | botfarm/src/main/java/io/deeplay/camp/botfarm/bots/matthew_bots/movement_stage/ExpectimaxMovementBot.java:108-121 | folding over concatenated state lists splits into two folds |
| `ExpectimaxMovementBot.FoldSumMovesIsReached` | botfarm/src/main/java/io/deeplay/camp/botfarm/bots/matthew_bots/movement_stage/ExpectimaxMovementBot.java:140-150 | the nested expect loops equal one sum over the reached states |
| `ExpectimaxMovementBot.FoldSumOutcomesIsReached` | botfarm/src/main/java/io/deeplay/camp/botfarm/bots/matthew_bots/movement_stage/ExpectimaxMovementBot.java:142-149 | the same for one move's outcomes |
| `ExpectimaxMovementBot.FoldSumReachedAppend` | botfarm/src/main/java/io/deeplay/camp/botfarm/bots/matthew_bots/movement_stage/ExpectimaxMovementBot.java:140-150 | summing over concatenated state lists splits into two sums |
| `ExpectimaxMovementBot.Candidates` | botfarm/src/main/java/io/deeplay/camp/botfarm/bots/matthew_bots/movement_stage/ExpectimaxMovementBot.java:114-115 | one candidate per reached state, with the child's chance-node score weighted by its chance |
| `ExpectimaxMovementBot.FoldMaxReachedIsFoldGreatest` | botfarm/src/main/java/io/deeplay/camp/botfarm/bots/matthew_bots/movement_stage/ExpectimaxMovementBot.java:116-118 | the loop over reached states is the first-greatest choice |
| `ExpectimaxMovementBot.MaxChoosesFirstGreatest` | botfarm/src/main/java/io/deeplay/camp/botfarm/bots/matthew_bots/movement_stage/ExpectimaxMovementBot.java:104-126 | maximize returns the first greatest candidate among the reached states |
| `ExpectimaxMovementBot.FoldSumReachedIsSum` | botfarm/src/main/java/io/deeplay/camp/botfarm/bots/matthew_bots/movement_stage/ExpectimaxMovementBot.java:146-148 | with finite child scores the loop computes the plain weighted sum |
| `ExpectimaxMovementBot.ExpectIsScaledSum` | botfarm/src/main/java/io/deeplay/camp/botfarm/bots/matthew_bots/movement_stage/ExpectimaxMovementBot.java:135-157 | an exception gives (null, 0). Otherwise the expectation is the weighted sum divided by 2 * moves, and NaN when there are no moves |
| `ExpectimaxMovementBot.ReachedAtMostTwice` | botfarm/src/main/java/io/deeplay/camp/botfarm/bots/matthew_bots/movement_stage/ExpectimaxMovementBot.java:151 | when each move has at most two outcomes above the threshold, at most twice as many states are reached as there are moves |
| `ExpectimaxMovementBot.ReachedWellFormed` | botfarm/src/main/java/io/deeplay/camp/botfarm/bots/matthew_bots/movement_stage/ExpectimaxMovementBot.java:140-151 | in such a tree every reached state is bounded, and there are at most 2 * moves of them |
| `ExpectimaxMovementBot.ExpectimaxInRange` | botfarm/src/main/java/io/deeplay/camp/botfarm/bots/matthew_bots/movement_stage/ExpectimaxMovementBot.java:73-95 | on a bounded tree of at most two outcomes per move, the score is NaN or lies in [MIN_COST, MAX_COST] |
| `ExpectimaxMovementBot.ChildrenInRange` | botfarm/src/main/java/io/deeplay/camp/botfarm/bots/matthew_bots/movement_stage/ExpectimaxMovementBot.java:114-115 | every reached child's weighted score is NaN or in range |
| `ExpectimaxMovementBot.MaxMovesInRange` | botfarm/src/main/java/io/deeplay/camp/botfarm/bots/matthew_bots/movement_stage/ExpectimaxMovementBot.java:104-126 | the maximize result is never NaN and lies in range |
| `ExpectimaxMovementBot.FoldMaxReachedInRange` | botfarm/src/main/java/io/deeplay/camp/botfarm/bots/matthew_bots/movement_stage/ExpectimaxMovementBot.java:108-121 | the maximize loop keeps the best in range |
| `ExpectimaxMovementBot.ExpectMovesInRange` | botfarm/src/main/java/io/deeplay/camp/botfarm/bots/matthew_bots/movement_stage/ExpectimaxMovementBot.java:135-157 | the expectation is NaN or lies in range |
| `ExpectimaxMovementBot.FoldSumReachedInRange` | botfarm/src/main/java/io/deeplay/camp/botfarm/bots/matthew_bots/movement_stage/ExpectimaxMovementBot.java:140-150 | after k states the running sum is NaN or lies within k times the range |
| `ExpectimaxMovementBot.Widen` | botfarm/src/main/java/io/deeplay/camp/botfarm/bots/matthew_bots/movement_stage/ExpectimaxMovementBot.java:151 | a sum of k scores lies within l times the range for any l >= k |
| `ExpectimaxMovementBot.SingleOutcomeIsHalved` | botfarm/src/main/java/io/deeplay/camp/botfarm/bots/matthew_bots/movement_stage/ExpectimaxMovementBot.java:151 | one move with one certain outcome of 500 is worth 250 here (divided by 2 * moves) but 500 in the state-collecting expectimax bot |
| `MultiThreadMinimaxBot.MultiThreadMinimaxBot.constructor` | botfarm/src/main/java/io/deeplay/camp/botfarm/bots/matthew_bots/movement_stage/MultiThreadMinimaxBot.java:29-34 | the bot keeps its depth limit and a fresh zeroed tree analyzer |
| `MultiThreadMinimaxBot.MultiThreadMinimaxBot.GenerateMakeMoveEvent` | botfarm/src/main/java/io/deeplay/camp/botfarm/bots/matthew_bots/movement_stage/MultiThreadMinimaxBot.java:37-43 | the move is the root task's choice; the counter grows by the nodes visited |
| `MultiThreadMinimaxBot.MultiThreadMinimaxBot.ComputeTask` | botfarm/src/main/java/io/deeplay/camp/botfarm/bots/matthew_bots/movement_stage/MultiThreadMinimaxBot.java:64-82 | the result and node count of a task are those of `Compute` |
| `MultiThreadMinimaxBot.MultiThreadMinimaxBot.Maximize` | botfarm/src/main/java/io/deeplay/camp/botfarm/bots/matthew_bots/movement_stage/MultiThreadMinimaxBot.java:92-113 | fork and join compute `ForkJoin` for the maximizing side |
| `MultiThreadMinimaxBot.MultiThreadMinimaxBot.Minimize` | botfarm/src/main/java/io/deeplay/camp/botfarm/bots/matthew_bots/movement_stage/MultiThreadMinimaxBot.java:123-144 | fork and join compute `ForkJoin` for the minimizing side |
| `MultiThreadMinimaxBot.MultiThreadMinimaxBot.ForkTasks` | botfarm/src/main/java/io/deeplay/camp/botfarm/bots/matthew_bots/movement_stage/MultiThreadMinimaxBot.java:96-101 | the fork loop creates one task per collected state, in order, and their results are the children's `Compute` |
| `MultiThreadMinimaxBot.MultiThreadMinimaxBot.ForkTask` | botfarm/src/main/java/io/deeplay/camp/botfarm/bots/matthew_bots/movement_stage/MultiThreadMinimaxBot.java:98-100 | one forked task is computed for that state one level down |
| `MultiThreadMinimaxBot.JoinTasks` | botfarm/src/main/java/io/deeplay/camp/botfarm/bots/matthew_bots/movement_stage/MultiThreadMinimaxBot.java:102-108 | the join loop weights each result by its state's probability and keeps strict improvements (`JoinFold`) |
| `MultiThreadMinimaxBot.Tasks` | botfarm/src/main/java/io/deeplay/camp/botfarm/bots/matthew_bots/movement_stage/MultiThreadMinimaxBot.java:96-101 | one task per state, in order, for the state one level down |
| `MultiThreadMinimaxBot.Forked` | botfarm/src/main/java/io/deeplay/camp/botfarm/bots/matthew_bots/movement_stage/MultiThreadMinimaxBot.java:96-101 | each forked result is the child's `Compute` |
| `MultiThreadMinimaxBot.JoinFoldIsFoldBest` | botfarm/src/main/java/io/deeplay/camp/botfarm/bots/matthew_bots/movement_stage/MultiThreadMinimaxBot.java:102-108 | joining the forked results in fork order is the strict-improvement choice over the weighted candidates |
| `MultiThreadMinimaxBot.TotalIsChildNodes` | botfarm/src/main/java/io/deeplay/camp/botfarm/bots/matthew_bots/movement_stage/MultiThreadMinimaxBot.java:96-108 | the forked tasks together visit exactly the nodes of the sequential children |
| `MultiThreadMinimaxBot.ComputeIsMinimax` | botfarm/src/main/java/io/deeplay/camp/botfarm/bots/matthew_bots/movement_stage/MultiThreadMinimaxBot.java:64-82 | the fork/join bot returns the same move, score and node count as the sequential `MinimaxBot` |
| `MultiThreadMinimaxBot.ForkJoinIsExpand` | botfarm/src/main/java/io/deeplay/camp/botfarm/bots/matthew_bots/movement_stage/MultiThreadMinimaxBot.java:92-113 | fork/join of a node equals the sequential expansion |
| `MultiThreadMinimaxBot.ChildrenAgree` | botfarm/src/main/java/io/deeplay/camp/botfarm/bots/matthew_bots/movement_stage/MultiThreadMinimaxBot.java:98-104 | every child task agrees with the sequential search of that child |
| `MultiThreadExpectimaxBot.MultiThreadExpectimaxBot.constructor` | botfarm/src/main/java/io/deeplay/camp/botfarm/bots/matthew_bots/movement_stage/MultiThreadExpectimaxBot.java:44-50 | the bot keeps its depth limit and a fresh zeroed tree analyzer |
| `MultiThreadExpectimaxBot.MultiThreadExpectimaxBot.GenerateMakeMoveEvent` | botfarm/src/main/java/io/deeplay/camp/botfarm/bots/matthew_bots/movement_stage/MultiThreadExpectimaxBot.java:59-67 | the move is the root task's choice; the counter grows by the nodes visited |
| `MultiThreadExpectimaxBot.MultiThreadExpectimaxBot.ComputeTask` | botfarm/src/main/java/io/deeplay/camp/botfarm/bots/matthew_bots/movement_stage/MultiThreadExpectimaxBot.java:91-112 | the result and node count of a task are those of `Compute` |
| `MultiThreadExpectimaxBot.MultiThreadExpectimaxBot.Maximize` | botfarm/src/main/java/io/deeplay/camp/botfarm/bots/matthew_bots/movement_stage/MultiThreadExpectimaxBot.java:122-143 | fork and join compute `ForkJoin` |
| `MultiThreadExpectimaxBot.MultiThreadExpectimaxBot.ForkTasks` | botfarm/src/main/java/io/deeplay/camp/botfarm/bots/matthew_bots/movement_stage/MultiThreadExpectimaxBot.java:126-131 | one task per collected state, in order, with results the children's `Compute` |
| `MultiThreadExpectimaxBot.JoinTasks` | botfarm/src/main/java/io/deeplay/camp/botfarm/bots/matthew_bots/movement_stage/MultiThreadExpectimaxBot.java:132-138 | the join loop weights each result and keeps strict improvements, starting from (null, MIN_COST) |
| `MultiThreadExpectimaxBot.MultiThreadExpectimaxBot.ExpectTasks` | botfarm/src/main/java/io/deeplay/camp/botfarm/bots/matthew_bots/movement_stage/MultiThreadExpectimaxBot.java:153-169 | the expect loop computes its task in place (`compute`, not `fork`) and returns the mean weighted score (`Expect`) |
| `MultiThreadExpectimaxBot.Tasks` | botfarm/src/main/java/io/deeplay/camp/botfarm/bots/matthew_bots/movement_stage/MultiThreadExpectimaxBot.java:126-131 | one task per state, in order, one level down |
| `MultiThreadExpectimaxBot.Forked` | botfarm/src/main/java/io/deeplay/camp/botfarm/bots/matthew_bots/movement_stage/MultiThreadExpectimaxBot.java:126-131 | each forked result is the child's `Compute` as a maximizing node |
| `MultiThreadExpectimaxBot.TotalNodesAppend` | botfarm/src/main/java/io/deeplay/camp/botfarm/bots/matthew_bots/movement_stage/MultiThreadExpectimaxBot.java:126-131 | the node count of the forked tasks adds up task by task |
| `MultiThreadExpectimaxBot.JoinIsFoldMax` | botfarm/src/main/java/io/deeplay/camp/botfarm/bots/matthew_bots/movement_stage/MultiThreadExpectimaxBot.java:122-143 | joining the forked results equals the sequential maximize loop, in result and in nodes |
| `MultiThreadExpectimaxBot.FoldComputeIsFoldExpect` | botfarm/src/main/java/io/deeplay/camp/botfarm/bots/matthew_bots/movement_stage/MultiThreadExpectimaxBot.java:158-162 | the in-place expect loop equals the sequential expect loop |
| `MultiThreadExpectimaxBot.ComputeIsExpectimax` | botfarm/src/main/java/io/deeplay/camp/botfarm/bots/matthew_bots/movement_stage/MultiThreadExpectimaxBot.java:91-112 | the fork/join bot returns the same move, score and node count as the sequential `ExpectimaxBot` |
| `MultiThreadExpectimaxBot.ChildrenComputeAsExpectimax` | botfarm/src/main/java/io/deeplay/camp/botfarm/bots/matthew_bots/movement_stage/MultiThreadExpectimaxBot.java:128-133 | every child task agrees with the sequential search of that child |
| `MultiThreadExpectimaxBot.ChildrenAgreeTail` | botfarm/src/main/java/io/deeplay/camp/botfarm/bots/matthew_bots/movement_stage/MultiThreadExpectimaxBot.java:127-131 | agreement of all children carries over to the remaining children |
| `MultiThreadMinimax.MultiThreadMinimax.constructor` | botfarm/src/main/java/io/deeplay/camp/botfarm/bots/matthew_bots/movement_stage/MultiThreadMinimax.java:52-58 | the bot keeps its depth limit and a fresh zeroed tree analyzer |
| `MultiThreadMinimax.MultiThreadMinimax.GenerateMakeMoveEvent` | botfarm/src/main/java/io/deeplay/camp/botfarm/bots/matthew_bots/movement_stage/MultiThreadMinimax.java:66-72 | the root task gets the window [MIN_COST, MAX_COST]. The move is its choice, or an exception when it fails; the counter grows by the nodes visited |
| `MultiThreadMinimax.MultiThreadMinimax.ComputeTask` | botfarm/src/main/java/io/deeplay/camp/botfarm/bots/matthew_bots/movement_stage/MultiThreadMinimax.java:93-113 | the result and node count of a task are those of `Compute`; no moves are filtered here |
| `MultiThreadMinimax.MultiThreadMinimax.Maximize` | botfarm/src/main/java/io/deeplay/camp/botfarm/bots/matthew_bots/movement_stage/MultiThreadMinimax.java:124-156 | fork every outcome, then join; this is `ForkJoin` for the maximizing side |
| `MultiThreadMinimax.MultiThreadMinimax.Minimize` | botfarm/src/main/java/io/deeplay/camp/botfarm/bots/matthew_bots/movement_stage/MultiThreadMinimax.java:167-201 | the same for the minimizing side |
| `MultiThreadMinimax.MultiThreadMinimax.ForkTasks` | botfarm/src/main/java/io/deeplay/camp/botfarm/bots/matthew_bots/movement_stage/MultiThreadMinimax.java:130-137 | one task per outcome of every move, up to the first rejected move, each with the incoming window. The flag says whether every move was applied |
| `MultiThreadMinimax.MultiThreadMinimax.ForkOutcomes` | botfarm/src/main/java/io/deeplay/camp/botfarm/bots/matthew_bots/movement_stage/MultiThreadMinimax.java:132-136 | the inner fork loop forks one task per outcome of the move |
| `MultiThreadMinimax.JoinTasks` | botfarm/src/main/java/io/deeplay/camp/botfarm/bots/matthew_bots/movement_stage/MultiThreadMinimax.java:139-149 | the join loop computes `JoinFold`. Result i is credited to `possibleMoves.get(i / 2)` and fails past the end; the window tightens and a cutoff stops the loop |
| `MultiThreadMinimax.States` | botfarm/src/main/java/io/deeplay/camp/botfarm/bots/matthew_bots/movement_stage/MultiThreadMinimax.java:132-136 | one child per outcome, in order |
| `MultiThreadMinimax.Forked` | botfarm/src/main/java/io/deeplay/camp/botfarm/bots/matthew_bots/movement_stage/MultiThreadMinimax.java:133-135 | each forked result is the child's `Compute` with the incoming window |
| `MultiThreadMinimax.ChildrenAppend` | botfarm/src/main/java/io/deeplay/camp/botfarm/bots/matthew_bots/movement_stage/MultiThreadMinimax.java:130-137 | an applied move adds its outcomes to the forked children |
| `MultiThreadMinimax.ChildrenRejected` | botfarm/src/main/java/io/deeplay/camp/botfarm/bots/matthew_bots/movement_stage/MultiThreadMinimax.java:130-137 | a rejected move stops the forking |
| `MultiThreadMinimax.ChildrenMembers` | botfarm/src/main/java/io/deeplay/camp/botfarm/bots/matthew_bots/movement_stage/MultiThreadMinimax.java:130-137 | every forked child is an outcome of one of the moves |
| `MultiThreadMinimax.TotalNodesConcat` | botfarm/src/main/java/io/deeplay/camp/botfarm/bots/matthew_bots/movement_stage/MultiThreadMinimax.java:130-137 | node counts of forked tasks add up over concatenation |
| `MultiThreadMinimax.ForkedAppend` | botfarm/src/main/java/io/deeplay/camp/botfarm/bots/matthew_bots/movement_stage/MultiThreadMinimax.java:130-137 | forking one more move appends its outcomes' results and nodes |
| `MultiThreadMinimax.Owners` | botfarm/src/main/java/io/deeplay/camp/botfarm/bots/matthew_bots/movement_stage/MultiThreadMinimax.java:143 | the intended attribution: one entry per forked child, naming the move that produced it |
| `MultiThreadMinimax.OwnersOfPairs` | botfarm/src/main/java/io/deeplay/camp/botfarm/bots/matthew_bots/movement_stage/MultiThreadMinimax.java:143 | when every move has exactly two outcomes, `i / 2` does name the move of child i |
| `MultiThreadMinimax.JoinFoldAgrees` | botfarm/src/main/java/io/deeplay/camp/botfarm/bots/matthew_bots/movement_stage/MultiThreadMinimax.java:139-149 | in that case the as-written join equals the corrected join |
| `MultiThreadMinimax.PairedTreesAgree` | botfarm/src/main/java/io/deeplay/camp/botfarm/bots/matthew_bots/movement_stage/MultiThreadMinimax.java:93-113 | on trees whose every move has two outcomes, the as-written and corrected searches agree |
| `MultiThreadMinimax.PairedForkJoinAgrees` | botfarm/src/main/java/io/deeplay/camp/botfarm/bots/matthew_bots/movement_stage/MultiThreadMinimax.java:124-156 | the same for one fork/join |
| `MultiThreadMinimax.PairedChildrenAgree` | botfarm/src/main/java/io/deeplay/camp/botfarm/bots/matthew_bots/movement_stage/MultiThreadMinimax.java:133-135 | the same for every forked child |
| `MultiThreadMinimax.CorrectedForked` | botfarm/src/main/java/io/deeplay/camp/botfarm/bots/matthew_bots/movement_stage/MultiThreadMinimax.java:133-135 | the corrected search forks the same children, each computed by the corrected search |
| `MultiThreadMinimax.CorrectedJoinFoldSound` | botfarm/src/main/java/io/deeplay/camp/botfarm/bots/matthew_bots/movement_stage/MultiThreadMinimax.java:139-149 | the corrected join never fails by itself, and its result is the initial best or a joined score credited to the move that produced it |
| `MultiThreadMinimax.MisattributedChild` | botfarm/src/main/java/io/deeplay/camp/botfarm/bots/matthew_bots/movement_stage/MultiThreadMinimax.java:143 | with two one-outcome moves where the second is better, the as-written code credits the score to the first move, the corrected code to the second |
| `MultiThreadMinimax.ChildIndexOutOfRange` | botfarm/src/main/java/io/deeplay/camp/botfarm/bots/matthew_bots/movement_stage/MultiThreadMinimax.java:143 | with one move of three outcomes where the third is best, `get(2 / 2)` is past the end and the as-written search fails, while the corrected search credits the move |
| `MultiThreadMinimax.CutoffAfterForking` | botfarm/src/main/java/io/deeplay/camp/botfarm/bots/matthew_bots/movement_stage/MultiThreadMinimax.java:128-149 | a cutoff after the first joined result saves nothing, because every task was already forked and computed (3 calls) |
| `MultiThreadMinimax.AlphaBetaSkipsAfterCutoff` | botfarm/src/main/java/io/deeplay/camp/botfarm/bots/matthew_bots/movement_stage/AlphaBetaMinimaxBot.java:119-135 | on the same tree the sequential alpha-beta bot stops after the first outcome (2 calls) |
| `UnboundedMinimaxBot.MinimaxBot.constructor` | botfarm/src/main/java/io/deeplay/camp/botfarm/bots/matthew_bots/minimax/MinimaxBot.java:27-31 | the bot keeps its depth limit and a fresh zeroed tree analyzer |
| `UnboundedMinimaxBot.MinimaxBot.GenerateMakeMoveEvent` | botfarm/src/main/java/io/deeplay/camp/botfarm/bots/matthew_bots/minimax/MinimaxBot.java:43-49 | the move is the root choice of `Minimax`, or an exception when the engine threw. The counter grows by the nodes visited; the stop watch ends only on success |
| `UnboundedMinimaxBot.MinimaxBot.MinimaxSearch` | botfarm/src/main/java/io/deeplay/camp/botfarm/bots/matthew_bots/minimax/MinimaxBot.java:51-72 | the result and node count are those of `Minimax`: base cases, the pass rule, then maximize or minimize |
| `UnboundedMinimaxBot.MinimaxBot.Maximize` | botfarm/src/main/java/io/deeplay/camp/botfarm/bots/matthew_bots/minimax/MinimaxBot.java:74-88 | the nested loop is `FoldMoves` from (null, -infinity) for the maximizing side |
| `UnboundedMinimaxBot.MinimaxBot.Minimize` | botfarm/src/main/java/io/deeplay/camp/botfarm/bots/matthew_bots/minimax/MinimaxBot.java:90-104 | the nested loop is `FoldMoves` from (null, +infinity) for the minimizing side |
| `UnboundedMinimaxBot.MinimaxBot.SearchMoves` | botfarm/src/main/java/io/deeplay/camp/botfarm/bots/matthew_bots/minimax/MinimaxBot.java:77-86 | the outer loop over moves computes `FoldMoves`; a rejected move raises the exception |
| `UnboundedMinimaxBot.MinimaxBot.SearchOutcomes` | botfarm/src/main/java/io/deeplay/camp/botfarm/bots/matthew_bots/minimax/MinimaxBot.java:79-85 | the inner loop over one move's outcomes computes `FoldOutcomes`, nodes included |
| `UnboundedMinimaxBot.FoldMovesUnfold` | botfarm/src/main/java/io/deeplay/camp/botfarm/bots/matthew_bots/minimax/MinimaxBot.java:77-86 | one step of the move loop: a rejected move fails, otherwise its outcomes are folded and the loop goes on |
| `UnboundedMinimaxBot.FoldOutcomesUnfold` | botfarm/src/main/java/io/deeplay/camp/botfarm/bots/matthew_bots/minimax/MinimaxBot.java:79-85 | one step of the outcome loop: the child's score times the chance replaces the best on a strict improvement |
| `UnboundedMinimaxBot.MinimaxCount` | botfarm/src/main/java/io/deeplay/camp/botfarm/bots/matthew_bots/minimax/MinimaxBot.java:51-72 | the search visits at most the nodes of the depth-limited tree, and exactly all of them when no move is rejected |
| `UnboundedMinimaxBot.FoldMovesCount` | botfarm/src/main/java/io/deeplay/camp/botfarm/bots/matthew_bots/minimax/MinimaxBot.java:77-86 | the move loop visits at most its moves' subtrees, all of them when no move is rejected |
| `UnboundedMinimaxBot.FoldOutcomesCount` | botfarm/src/main/java/io/deeplay/camp/botfarm/bots/matthew_bots/minimax/MinimaxBot.java:79-85 | the same for one move's outcomes |
| `UnboundedMinimaxBot.FoldImprovingConcat` | botfarm/src/main/java/io/deeplay/camp/botfarm/bots/matthew_bots/minimax/MinimaxBot.java:77-86 | the strict-improvement fold over concatenated candidates is two folds in a row |
| `UnboundedMinimaxBot.FoldImprovingIsFirstBest` | botfarm/src/main/java/io/deeplay/camp/botfarm/bots/matthew_bots/minimax/MinimaxBot.java:82-84 | the fold is no worse than the start and every non-NaN candidate. It is the start, or the first candidate that beats the start and all earlier candidates |
| `UnboundedMinimaxBot.OptionCandidates` | botfarm/src/main/java/io/deeplay/camp/botfarm/bots/matthew_bots/minimax/MinimaxBot.java:80-81 | one candidate per outcome: the move with the child's score times the chance |
| `UnboundedMinimaxBot.FoldOutcomesIsFoldImproving` | botfarm/src/main/java/io/deeplay/camp/botfarm/bots/matthew_bots/minimax/MinimaxBot.java:79-85 | on a tree without rejections the outcome loop is the strict-improvement fold over its candidates |
| `UnboundedMinimaxBot.FoldMovesIsFoldImproving` | botfarm/src/main/java/io/deeplay/camp/botfarm/bots/matthew_bots/minimax/MinimaxBot.java:77-86 | the same for the move loop |
| `UnboundedMinimaxBot.ChoosesFirstBest` | botfarm/src/main/java/io/deeplay/camp/botfarm/bots/matthew_bots/minimax/MinimaxBot.java:69-104 | on a tree without rejections the search succeeds with a best score no worse than any candidate's. The move is the first candidate achieving it, or none when no candidate beats the infinite start |
| `UnboundedMinimaxBot.MulInRange` | botfarm/src/main/java/io/deeplay/camp/botfarm/bots/matthew_bots/minimax/MinimaxBot.java:81 | a score in the extended range times a probability stays in it or is NaN |
| `UnboundedMinimaxBot.MinimaxInRange` | botfarm/src/main/java/io/deeplay/camp/botfarm/bots/matthew_bots/minimax/MinimaxBot.java:51-72 | on a bounded tree a successful score lies in [-infinity, +infinity] without NaN |
| `UnboundedMinimaxBot.FoldMovesInRange` | botfarm/src/main/java/io/deeplay/camp/botfarm/bots/matthew_bots/minimax/MinimaxBot.java:77-86 | the move loop keeps the best in that range |
| `UnboundedMinimaxBot.FoldOutcomesInRange` | botfarm/src/main/java/io/deeplay/camp/botfarm/bots/matthew_bots/minimax/MinimaxBot.java:79-85 | the outcome loop keeps the best in that range |
| `UnboundedMinimaxBot.RejectionPropagates` | botfarm/src/main/java/io/deeplay/camp/botfarm/bots/matthew_bots/minimax/MinimaxBot.java:78 | a position whose only move is rejected makes this bot throw, while the movement-stage minimax returns its initial best |
| `UnboundedMultiThreadMinimaxBot.MultiThreadMinimaxBot.constructor` | botfarm/src/main/java/io/deeplay/camp/botfarm/bots/matthew_bots/minimax/MultiThreadMinimaxBot.java:28-33 | the bot keeps its depth limit and a fresh zeroed tree analyzer |
| `UnboundedMultiThreadMinimaxBot.MultiThreadMinimaxBot.GenerateMakeMoveEvent` | botfarm/src/main/java/io/deeplay/camp/botfarm/bots/matthew_bots/minimax/MultiThreadMinimaxBot.java:45-51 | the root task gets the window (-infinity, +infinity). The move is its choice, or an exception; the counter grows by the nodes visited |
| `UnboundedMultiThreadMinimaxBot.MultiThreadMinimaxBot.ComputeTask` | botfarm/src/main/java/io/deeplay/camp/botfarm/bots/matthew_bots/minimax/MultiThreadMinimaxBot.java:69-89 | the result and node count of a task are those of `Compute` |
| `UnboundedMultiThreadMinimaxBot.MultiThreadMinimaxBot.Maximize` | botfarm/src/main/java/io/deeplay/camp/botfarm/bots/matthew_bots/minimax/MultiThreadMinimaxBot.java:92-115 | the loops compute `FoldMoves` from (null, -infinity) with the incoming window, raising alpha |
| `UnboundedMultiThreadMinimaxBot.MultiThreadMinimaxBot.Minimize` | botfarm/src/main/java/io/deeplay/camp/botfarm/bots/matthew_bots/minimax/MultiThreadMinimaxBot.java:118-142 | the same from (null, +infinity), lowering beta |
| `UnboundedMultiThreadMinimaxBot.MultiThreadMinimaxBot.SearchMoves` | botfarm/src/main/java/io/deeplay/camp/botfarm/bots/matthew_bots/minimax/MultiThreadMinimaxBot.java:95-113 | the outer loop computes `FoldMoves` and stops at a cutoff |
| `UnboundedMultiThreadMinimaxBot.MultiThreadMinimaxBot.SearchOutcomes` | botfarm/src/main/java/io/deeplay/camp/botfarm/bots/matthew_bots/minimax/MultiThreadMinimaxBot.java:97-109 | the inner loop forks and joins one task per outcome and computes `FoldOutcomes`, nodes included |
| `UnboundedMultiThreadMinimaxBot.FoldMovesUnfold` | botfarm/src/main/java/io/deeplay/camp/botfarm/bots/matthew_bots/minimax/MultiThreadMinimaxBot.java:95-113 | one step of the move loop: a rejected move fails, a cutoff stops, otherwise the loop goes on with the tightened window |
| `UnboundedMultiThreadMinimaxBot.FoldOutcomesUnfold` | botfarm/src/main/java/io/deeplay/camp/botfarm/bots/matthew_bots/minimax/MultiThreadMinimaxBot.java:97-109 | one step of the outcome loop: the child is searched with the current window, its weighted score tightens the window, and `beta <= alpha` stops the loop |
| `UnboundedMultiThreadMinimaxBot.ComputeCount` | botfarm/src/main/java/io/deeplay/camp/botfarm/bots/matthew_bots/minimax/MultiThreadMinimaxBot.java:69-89 | the pruned search never visits more nodes than the tree has, and succeeds when no move is rejected |
| `UnboundedMultiThreadMinimaxBot.FoldMovesCount` | botfarm/src/main/java/io/deeplay/camp/botfarm/bots/matthew_bots/minimax/MultiThreadMinimaxBot.java:95-113 | the same bound for the move loop |
| `UnboundedMultiThreadMinimaxBot.FoldOutcomesCount` | botfarm/src/main/java/io/deeplay/camp/botfarm/bots/matthew_bots/minimax/MultiThreadMinimaxBot.java:97-109 | the same bound for one move's outcomes |
| `UnboundedMultiThreadMinimaxBot.VisitsNoMoreThanMinimax` | botfarm/src/main/java/io/deeplay/camp/botfarm/bots/matthew_bots/minimax/MultiThreadMinimaxBot.java:69-89 | from the full window the pruned bot succeeds and visits no more nodes than the unpruned bot of the same package |
| `UnboundedMultiThreadMinimaxBot.OutcomesNarrow` | botfarm/src/main/java/io/deeplay/camp/botfarm/bots/matthew_bots/minimax/MultiThreadMinimaxBot.java:105-132 | the outcome loop only narrows the window: maximizing raises alpha and keeps beta, minimizing lowers beta and keeps alpha, and nothing becomes NaN |
| `UnboundedMultiThreadMinimaxBot.MovesNarrow` | botfarm/src/main/java/io/deeplay/camp/botfarm/bots/matthew_bots/minimax/MultiThreadMinimaxBot.java:95-113 | the same for the move loop |
| `UnboundedMultiThreadMinimaxBot.ComputeInRange` | botfarm/src/main/java/io/deeplay/camp/botfarm/bots/matthew_bots/minimax/MultiThreadMinimaxBot.java:69-89 | on a bounded tree a successful score lies in the extended range without NaN |
| `UnboundedMultiThreadMinimaxBot.FoldMovesInRange` | botfarm/src/main/java/io/deeplay/camp/botfarm/bots/matthew_bots/minimax/MultiThreadMinimaxBot.java:95-113 | the move loop keeps the best in that range |
| `UnboundedMultiThreadMinimaxBot.FoldOutcomesInRange` | botfarm/src/main/java/io/deeplay/camp/botfarm/bots/matthew_bots/minimax/MultiThreadMinimaxBot.java:97-109 | the outcome loop keeps the best in that range |
| `UnboundedMultiThreadMinimaxBot.CutoffSkipsRemainingMoves` | botfarm/src/main/java/io/deeplay/camp/botfarm/bots/matthew_bots/minimax/MultiThreadMinimaxBot.java:106-112 | the first move's child has no moves for either player, so after the pass its empty minimize returns +infinity. Then `beta <= alpha` holds and the second move is never searched (2 nodes) |
| `UnboundedMultiThreadMinimaxBot.MinimaxSearchesEveryMove` | botfarm/src/main/java/io/deeplay/camp/botfarm/bots/matthew_bots/minimax/MinimaxBot.java:77-86 | on the same tree the unpruned bot also searches the second move (3 nodes) and returns the same choice |
| `MinimaxWithSimpleClusterizationBot.MinimaxWithSimpleClusterizationBot.constructor` | botfarm/src/main/java/io/deeplay/camp/botfarm/bots/matthew_bots/movement_stage/MinimaxWithSimpleClusterizationBot.java:48-53 | the bot keeps its depth limit, its clusterer and its cluster amount, with a fresh zeroed tree analyzer |
| `MinimaxWithSimpleClusterizationBot.MinimaxWithSimpleClusterizationBot.GenerateMakeMoveEvent` | botfarm/src/main/java/io/deeplay/camp/botfarm/bots/matthew_bots/movement_stage/MinimaxWithSimpleClusterizationBot.java:62-68 | the move is the root choice of `Minimax`, or an exception when clustering failed. The counter grows by the nodes visited |
| `MinimaxWithSimpleClusterizationBot.MinimaxWithSimpleClusterizationBot.MinimaxSearch` | botfarm/src/main/java/io/deeplay/camp/botfarm/bots/matthew_bots/movement_stage/MinimaxWithSimpleClusterizationBot.java:78-99 | the result and node count are those of `Minimax`: base cases, the pass rule, move filtering, then maximize or minimize |
| `MinimaxWithSimpleClusterizationBot.MinimaxWithSimpleClusterizationBot.Maximize` | botfarm/src/main/java/io/deeplay/camp/botfarm/bots/matthew_bots/movement_stage/MinimaxWithSimpleClusterizationBot.java:109-126 | collects the states, keeps the representatives and searches them (`Expand` for the maximizing side). A `GameException` keeps (null, MIN_COST) |
| `MinimaxWithSimpleClusterizationBot.MinimaxWithSimpleClusterizationBot.Minimize` | botfarm/src/main/java/io/deeplay/camp/botfarm/bots/matthew_bots/movement_stage/MinimaxWithSimpleClusterizationBot.java:136-152 | the same for the minimizing side from (null, MAX_COST) |
| `MinimaxWithSimpleClusterizationBot.MinimaxWithSimpleClusterizationBot.Search` | botfarm/src/main/java/io/deeplay/camp/botfarm/bots/matthew_bots/movement_stage/MinimaxWithSimpleClusterizationBot.java:111-124 | the shared body of maximize and minimize computes `Expand` |
| `MinimaxWithSimpleClusterizationBot.MinimaxWithSimpleClusterizationBot.SearchStates` | botfarm/src/main/java/io/deeplay/camp/botfarm/bots/matthew_bots/movement_stage/MinimaxWithSimpleClusterizationBot.java:114-120 | the loop over the representatives computes `FoldStates`, nodes included |
| `MinimaxWithSimpleClusterizationBot.MinimaxWithSimpleClusterizationBot.GetBestRepresentatives` | botfarm/src/main/java/io/deeplay/camp/botfarm/bots/matthew_bots/movement_stage/MinimaxWithSimpleClusterizationBot.java:159-171 | the method returns `BestRepresentatives` of the states |
| `MinimaxWithSimpleClusterizationBot.BestRepresentativesCases` | botfarm/src/main/java/io/deeplay/camp/botfarm/bots/matthew_bots/movement_stage/MinimaxWithSimpleClusterizationBot.java:159-171 | fewer than six states come back unchanged, and a failed clustering throws. Clusters that partition the states, with at most six representatives asked for, always give representatives |
| `MinimaxWithSimpleClusterizationBot.RepresentativesFromInput` | botfarm/src/main/java/io/deeplay/camp/botfarm/bots/matthew_bots/movement_stage/MinimaxWithSimpleClusterizationBot.java:168-170 | when the clusterer only returns its own input points, every representative is one of the collected states |
| `MinimaxWithSimpleClusterizationBot.FoldStatesUnfold` | botfarm/src/main/java/io/deeplay/camp/botfarm/bots/matthew_bots/movement_stage/MinimaxWithSimpleClusterizationBot.java:114-120 | one step of the loop: a failing child ends the search, otherwise its weighted score replaces the best on a strict improvement |
| `MinimaxWithSimpleClusterizationBot.UnclusteredIsMinimaxBot` | botfarm/src/main/java/io/deeplay/camp/botfarm/bots/matthew_bots/movement_stage/MinimaxWithSimpleClusterizationBot.java:78-152 | when no expanded node collects six or more states, the bot returns the same move, score and node count as the movement-stage `MinimaxBot` |
| `MinimaxWithSimpleClusterizationBot.UnclusteredChildrenAgree` | botfarm/src/main/java/io/deeplay/camp/botfarm/bots/matthew_bots/movement_stage/MinimaxWithSimpleClusterizationBot.java:112-115 | under the same condition each collected child agrees with `MinimaxBot` |
| `MinimaxWithSimpleClusterizationBot.FoldStatesIsMinimaxBot` | botfarm/src/main/java/io/deeplay/camp/botfarm/bots/matthew_bots/movement_stage/MinimaxWithSimpleClusterizationBot.java:114-120 | over agreeing children the loop equals `MinimaxBot`'s loop over states |
| `MinimaxWithSimpleClusterizationBot.FoldStatesSucceeds` | botfarm/src/main/java/io/deeplay/camp/botfarm/bots/matthew_bots/movement_stage/MinimaxWithSimpleClusterizationBot.java:114-120 | the loop succeeds exactly when every representative's search succeeds |
| `MinimaxWithSimpleClusterizationBot.FoldStatesIsFoldBest` | botfarm/src/main/java/io/deeplay/camp/botfarm/bots/matthew_bots/movement_stage/MinimaxWithSimpleClusterizationBot.java:114-120 | a successful loop is the strict-improvement choice over the representatives' weighted scores |
| `MinimaxWithSimpleClusterizationBot.MinimaxInRange` | botfarm/src/main/java/io/deeplay/camp/botfarm/bots/matthew_bots/movement_stage/MinimaxWithSimpleClusterizationBot.java:78-99 | on a bounded tree, with a clusterer that only returns its own input points, a successful score lies in [MIN_COST, MAX_COST] |
| `MinimaxWithSimpleClusterizationBot.FoldStatesInRange` | botfarm/src/main/java/io/deeplay/camp/botfarm/bots/matthew_bots/movement_stage/MinimaxWithSimpleClusterizationBot.java:114-120 | representatives with in-range weighted scores keep the loop's best in range |
| `Placements.FirstHalf` | botfarm/src/main/java/io/deeplay/camp/botfarm/bots/matthew_bots/placement_stage/PlacementCacheGenerator.java:168-176 | the first player's placement has COLUMNS x ROWS / 2 cells, each the board's unit in the same column and row |
| `Placements.ExtractFirstPlayerPlacement` | botfarm/src/main/java/io/deeplay/camp/botfarm/bots/matthew_bots/placement_stage/PlacementCacheGenerator.java:168-176 | the column-by-column copy loop builds exactly `FirstHalf` of the board |
| `CachePlacementBot.InvertPlacement` | botfarm/src/main/java/io/deeplay/camp/botfarm/bots/matthew_bots/placement_stage/CachePlacementBot.java:130-138 | the copy loop builds `Inverted`: cell (col, row) takes the placement's cell (COLUMNS - col - 1, ROWS / 2 - row - 1) |
| `CachePlacementBot.InvertedInvolution` | botfarm/src/main/java/io/deeplay/camp/botfarm/bots/matthew_bots/placement_stage/CachePlacementBot.java:130-138 | inverting twice gives back the placement |
| `CachePlacementBot.GenerateEventsFromPlacements` | botfarm/src/main/java/io/deeplay/camp/botfarm/bots/matthew_bots/placement_stage/CachePlacementBot.java:147-164 | the nested loop pushes exactly `PlacementEvents`, one event per cell in column-major order |
| `CachePlacementBot.PlacementEventsCoverHalf` | botfarm/src/main/java/io/deeplay/camp/botfarm/bots/matthew_bots/placement_stage/CachePlacementBot.java:147-164 | there are COLUMNS * ROWS / 2 events on distinct cells of the player's half (rows shifted by ROWS / 2 for the second player). Each carries the placement's unit, the player and the unit's general flag; only the first is marked not in process |
| `CachePlacementBot.SecondPlayerEventsMirror` | botfarm/src/main/java/io/deeplay/camp/botfarm/bots/matthew_bots/placement_stage/CachePlacementBot.java:116-117 | the second player's events place the cached first-player placement turned half a circle: the unit at (c, r) is the placement's unit at (COLUMNS - 1 - c, ROWS - 1 - r) |
| `CachePlacementBot.CachePlacementBot.constructor` | botfarm/src/main/java/io/deeplay/camp/botfarm/bots/matthew_bots/placement_stage/CachePlacementBot.java:33-37 | the bot keeps both loaded caches and starts with an empty event stack |
| `CachePlacementBot.CachePlacementBot.PreparedRefill` | botfarm/src/main/java/io/deeplay/camp/botfarm/bots/matthew_bots/placement_stage/CachePlacementBot.java:96-119 | refilling an empty stack from a loaded cache gives a full set of events for the current player's half, so the following pop succeeds |
| `CachePlacementBot.CachePlacementBot.GeneratePlaceUnitEvent` | botfarm/src/main/java/io/deeplay/camp/botfarm/bots/matthew_bots/placement_stage/CachePlacementBot.java:94-122 | a non-empty stack is popped. An empty one is refilled with the cached placement at the drawn index (inverted for the second player) and then popped. An empty cache throws and leaves the stack as it was |
| `Instrumentation.TreeAnalyzer.constructor` | botfarm/src/main/java/io/deeplay/camp/botfarm/bots/matthew_bots/TreeAnalyzer.java:10-16 | a new analyzer has counted no nodes, holds zero times and reports a move time of 0 |
| `Instrumentation.TreeAnalyzer.StartMoveStopWatch` | botfarm/src/main/java/io/deeplay/camp/botfarm/bots/matthew_bots/TreeAnalyzer.java:19-21 | the start time becomes the clock reading passed in; nothing else changes |
| `Instrumentation.TreeAnalyzer.EndMoveStopWatch` | botfarm/src/main/java/io/deeplay/camp/botfarm/bots/matthew_bots/TreeAnalyzer.java:24-26 | the end time becomes the clock reading passed in; nothing else changes |
| `Instrumentation.TreeAnalyzer.GetMoveTime` | botfarm/src/main/java/io/deeplay/camp/botfarm/bots/matthew_bots/TreeAnalyzer.java:33-35 | the move time is the span from the start reading to the end reading, and it is non-negative exactly when the end reading is not before the start |
| `Instrumentation.TreeAnalyzer.IncrementNodesCount` | botfarm/src/main/java/io/deeplay/camp/botfarm/bots/matthew_bots/TreeAnalyzer.java:38-40 | the node counter grows by exactly one; nothing else changes |
| `PlacementCacheGenerator.CreatedBoardHalves` | botfarm/src/main/java/io/deeplay/camp/botfarm/bots/matthew_bots/placement_stage/PlacementCacheGenerator.java:316-325 | the created board's first half is the first placement, and the counter placement's cell (col, row) lands on (COLUMNS - col - 1, ROWS - row - 1) |
| `PlacementCacheGenerator.CreateBoard` | botfarm/src/main/java/io/deeplay/camp/botfarm/bots/matthew_bots/placement_stage/PlacementCacheGenerator.java:316-325 | the nested loop fills a new COLUMNS x ROWS array with exactly `CreatedBoard` |
| `PlacementCacheGenerator.CountFrequencies` | botfarm/src/main/java/io/deeplay/camp/botfarm/bots/matthew_bots/placement_stage/PlacementCacheGenerator.java:90-96 | the map's keys are exactly the file's lines, each mapped to the number of times it occurs |
| `PlacementCacheGenerator.Poll` | botfarm/src/main/java/io/deeplay/camp/botfarm/bots/matthew_bots/placement_stage/PlacementCacheGenerator.java:107 | `poll` takes an entry of least count |
| `PlacementCacheGenerator.RemovedMultiset` | botfarm/src/main/java/io/deeplay/camp/botfarm/bots/matthew_bots/placement_stage/PlacementCacheGenerator.java:107 | removing one entry takes exactly that entry out of the queue's contents |
| `PlacementCacheGenerator.PollAfterOffer` | botfarm/src/main/java/io/deeplay/camp/botfarm/bots/matthew_bots/placement_stage/PlacementCacheGenerator.java:105-108 | an entry polled after an offer is no more frequent than anything left, and so are the entries discarded before it |
| `PlacementCacheGenerator.Offer` | botfarm/src/main/java/io/deeplay/camp/botfarm/bots/matthew_bots/placement_stage/PlacementCacheGenerator.java:105-108 | one offer-then-poll step keeps at most three entries. No entry is lost, and every discarded entry is no more frequent than every kept one |
| `PlacementCacheGenerator.OfferAll` | botfarm/src/main/java/io/deeplay/camp/botfarm/bots/matthew_bots/placement_stage/PlacementCacheGenerator.java:101-109 | after all entries the queue holds min(3, entries) of them. Kept and discarded entries together are the input, and nothing discarded beats anything kept |
| `PlacementCacheGenerator.DrainAll` | botfarm/src/main/java/io/deeplay/camp/botfarm/bots/matthew_bots/placement_stage/PlacementCacheGenerator.java:114-117 | draining the queue yields all of its entries in non-decreasing count order |
| `PlacementCacheGenerator.TopThree` | botfarm/src/main/java/io/deeplay/camp/botfarm/bots/matthew_bots/placement_stage/PlacementCacheGenerator.java:101-117 | the drained entries are min(3, entries) of the entries, in non-decreasing count order, and no entry left out has a higher count than an entry kept |
| `PlacementCacheGenerator.DistinctKeysOnce` | botfarm/src/main/java/io/deeplay/camp/botfarm/bots/matthew_bots/placement_stage/PlacementCacheGenerator.java:104 | map entries with distinct keys each occur at most once |
| `PlacementCacheGenerator.RepeatedTwice` | botfarm/src/main/java/io/deeplay/camp/botfarm/bots/matthew_bots/placement_stage/PlacementCacheGenerator.java:104 | an entry that occurs at two positions occurs at least twice (with the previous lemma, the kept entries have distinct keys) |
| `PlacementCacheGenerator.SelectedEntries` | botfarm/src/main/java/io/deeplay/camp/botfarm/bots/matthew_bots/placement_stage/PlacementCacheGenerator.java:101-117 | every selected entry is a line of the file with its true count, and no line is selected twice |
| `PlacementCacheGenerator.UnselectedNoMoreFrequent` | botfarm/src/main/java/io/deeplay/camp/botfarm/bots/matthew_bots/placement_stage/PlacementCacheGenerator.java:104-109 | a line that was not selected occurs no more often than any selected line |
| `PlacementCacheGenerator.SelectedLines` | botfarm/src/main/java/io/deeplay/camp/botfarm/bots/matthew_bots/placement_stage/PlacementCacheGenerator.java:101-117 | the written lines are distinct lines of the file, written in non-decreasing frequency, and no unwritten line is more frequent than a written one |
| `PlacementCacheGenerator.GenerateBestFirstPlacements` | botfarm/src/main/java/io/deeplay/camp/botfarm/bots/matthew_bots/placement_stage/PlacementCacheGenerator.java:89-122 | min(3, distinct lines) distinct lines of the file are written, least frequent first. No line left out occurs more often than a written one |
| `PlacementCacheGenerator.WinRatioBounds` | botfarm/src/main/java/io/deeplay/camp/botfarm/bots/matthew_bots/placement_stage/PlacementCacheGenerator.java:300 | the second player's win share lies in [0, 1] |
| `PlacementCacheGenerator.SimulateBattles` | botfarm/src/main/java/io/deeplay/camp/botfarm/bots/matthew_bots/placement_stage/PlacementCacheGenerator.java:286-303 | the counting loop returns the number of outcomes equal to 2 over all 5000 games, and 0 when a future threw |
| `PlacementCacheGenerator.LastMaximumUnique` | botfarm/src/main/java/io/deeplay/camp/botfarm/bots/matthew_bots/placement_stage/PlacementCacheGenerator.java:240 | at most one position holds the last maximal rate |
| `PlacementCacheGenerator.GenerateCounterPlacement` | botfarm/src/main/java/io/deeplay/camp/botfarm/bots/matthew_bots/placement_stage/PlacementCacheGenerator.java:231-247 | nothing is chosen exactly when there are no candidates. Otherwise the choice is the candidate, owned by the second player, whose win rate is the last maximum (`>=` lets later ties win) |
| `PlacementCacheGenerator.Skipped` | botfarm/src/main/java/io/deeplay/camp/botfarm/bots/matthew_bots/placement_stage/PlacementCacheGenerator.java:209-213 | no more lines are skipped than have been read |
| `PlacementCacheGenerator.LinesToProcess` | botfarm/src/main/java/io/deeplay/camp/botfarm/bots/matthew_bots/placement_stage/PlacementCacheGenerator.java:201-222 | lines count from 1 and those numbered below `startLine` are skipped. Every line is processed when `startLine <= 1`, none when it is past the end |
| `PlacementCacheGenerator.GenerateCsvFromJsonFiles` | botfarm/src/main/java/io/deeplay/camp/botfarm/bots/matthew_bots/placement_stage/PlacementCacheGenerator.java:344-359 | one CSV line per pair of lines until the shorter file runs out, each the first file's line, a comma and the second's |
| `CachePlacementBot.Fields` | botfarm/src/main/java/io/deeplay/camp/botfarm/bots/matthew_bots/placement_stage/CachePlacementBot.java:52 | a line cut at every comma has one field more than it has commas, and no field holds a comma |
| `CachePlacementBot.DropTrailingEmpty` | botfarm/src/main/java/io/deeplay/camp/botfarm/bots/matthew_bots/placement_stage/CachePlacementBot.java:52 | the result is a prefix of the fields that ends in a non-empty field, and everything dropped is empty |
| `CachePlacementBot.Split` | botfarm/src/main/java/io/deeplay/camp/botfarm/bots/matthew_bots/placement_stage/CachePlacementBot.java:52 | `String.split(",")`: no part holds a comma, and a line with a comma never gives a trailing empty part |
| `CachePlacementBot.KeptPairs` | botfarm/src/main/java/io/deeplay/camp/botfarm/bots/matthew_bots/placement_stage/CachePlacementBot.java:51-58 | the loader reads at most one pair per line |
| `CachePlacementBot.LoadCounterPlacements` | botfarm/src/main/java/io/deeplay/camp/botfarm/bots/matthew_bots/placement_stage/CachePlacementBot.java:51-58 | the read loop keeps, in line order, the two parts of exactly the lines that split into two |
| `CachePlacementBot.FieldsAfterFirst` | botfarm/src/main/java/io/deeplay/camp/botfarm/bots/matthew_bots/placement_stage/CachePlacementBot.java:52 | with a comma-free first half, the fields of a joined line are the first half followed by the second half's fields |
| `CachePlacementBot.CommaFreeFields` | botfarm/src/main/java/io/deeplay/camp/botfarm/bots/matthew_bots/placement_stage/CachePlacementBot.java:52 | a comma-free line is one field |
| `CachePlacementBot.LastFieldNonEmpty` | botfarm/src/main/java/io/deeplay/camp/botfarm/bots/matthew_bots/placement_stage/CachePlacementBot.java:52 | a line not ending in a comma has a non-empty last field |
| `CachePlacementBot.SplitJoined` | botfarm/src/main/java/io/deeplay/camp/botfarm/bots/matthew_bots/placement_stage/CachePlacementBot.java:52-53 | a joined line splits back into exactly its two halves if and only if neither half holds a comma and the second is non-empty |
| `CachePlacementBot.CommaInHalfDropped` | botfarm/src/main/java/io/deeplay/camp/botfarm/bots/matthew_bots/placement_stage/CachePlacementBot.java:52-53 | a joined line with a comma inside a half, not ending in a comma, splits into at least three parts and is not loaded |
| `CachePlacementBot.CsvRoundTrip` | botfarm/src/main/java/io/deeplay/camp/botfarm/bots/matthew_bots/placement_stage/CachePlacementBot.java:51-58 | the CSV lines written from comma-free halves, second halves non-empty, load back as all their pairs in order |

## Left out

- The game engine (`GameState`, `Board`, move generation, `makeMove`, combat) is not part of this model. A position is the `Node` tree, and the engine's evaluator reading is the node's value.
- The enumeration of all placements (`generatePossiblePlacements` and its recursion) needs the engine, so it is left out, and so are `createGameState` and `BattleSimulationTask`. `SimulateBattles` takes the games' outcomes as input.
- The fork/join pool, `fork`/`join` and the `AtomicInteger` counter run sequentially in the model. Each task is computed when it is forked, and results are joined in fork order. Interleavings, and the counter's atomicity, are not modelled.
- `synchronized` in the evaluator is concurrency control with no effect on a sequential run.
- Randomness is passed in as parameters: the index drawn by `new Random().nextInt` in `CachePlacementBot`, the games' outcomes in `SimulateBattles`, and each playout's final winner in `MonteCarloFromPlayouts`.
- The random playout loop of `monteCarloEvaluate` (random movement bot, `makeMove`, passing) needs the engine. Only its result, the winner, is modelled.
- The random `generatePlaceUnitEvent` of the older `minimax` bots picks a random engine move and is left out.
- The k-means++ clustering (`ValueClusterization.clusterize`) is a foreign library call. It is an oracle parameter returning clusters, or `None` for the `null` it returns when clustering throws.
- `ClustersAnalyzer.readGameStatesFromFile` and `plotAverageWCSS` (file reading, JFreeChart) are I/O and plotting.
- File and JSON I/O are left out, with file contents taken as sequences of lines and a placement standing for its JSON line. This covers the loaders of `CachePlacementBot` (`loadBestFirstPlayerPlacements`, and in `loadCounterPlacements` the file reading, the JSON parsing of the two parts and the `HashMap` puts, whose line loop and comma split are modelled), `writePlacementsToFile`, `main`, and the readers and writers of `PlacementCacheGenerator`.
- `generateCounterPlacementsFile` is modelled only as its line loop (`LinesToProcess`). The JSON parsing, the log line and the file append of each result are left out.
- Logging and printing (SLF4J, `System.out` in `ExpectimaxBot` and `CachePlacementBot`) are left out.
- `TreeAnalyzer.printStatistics` prints, so it is left out.
- The wall clock (`System.currentTimeMillis`) is a parameter: the bots' methods take the start and end readings.
- Java `double` is modelled as `real`. Rounding error is not modelled. NaN and infinities appear only where a search can produce them: `Doubles.Double` in the expectimax and unbounded bots.
- `BaseEvaluator` divides by each live unit's maximum HP and requires it to be positive (`HpDefined`). The Java NaN or infinity of a zero maximum HP is not modelled. The Monte Carlo share with zero games is NaN, as in Java.
- `ValueClusterization.Round` is `Math.round` on `real`: the nearest integer, halves rounded up. The saturation of the `long` result and of the `(int)` cast is not modelled. It cannot arise, because a share never exceeds the requested amount, itself an `int`.
- Depths are `nat`: the negative depths a Java caller could pass were never reached by the bots and are not modelled.
- `setPlayerTypeForPlacement` mutates the units of the parsed placement in place. The model returns the re-owned placement as a value (`OwnedBy`), since that placement is not shared.
- `invertPlacement` and `enemyPlacement` allocate COLUMNS x ROWS arrays whose rows from ROWS / 2 up stay `null`. The model keeps only the ROWS / 2 rows that are read.
- `PriorityQueue` breaks ties between equal counts in an unspecified order. `Poll` takes the earliest entry of least count, so `TopThree` states only what holds for every tie order.
- `HashMap.entrySet()` iteration order is unspecified. It is the `order` parameter of `GenerateBestFirstPlacements`, a duplicate-free listing of the distinct lines.
- The thin holders and delegations are reused only as datatypes or left out: `MatthewsBot`, `ServerDto`, the `MovementBot`/`PlacementBot`/`Clusterization` interfaces, `State`, `MoveStateProbability`, `EventScore` and `StateClusterable`.
- Timing and node-count figures measured on real games are empirical and not stated.
- The depth-limited searches are not claimed to choose the same move as each other in general. Alpha-beta does not rescale its window by the outcome chance, so it need not agree with minimax. Only the agreements that hold are proved: the fork/join bots against their sequential counterparts, and the clustered bot against minimax when nothing is clustered.

## Findings

| source | as written | input that shows it | evidently intended | confidence | as-written member | corrected member |
|---|---|---|---|---|---|---|
| botfarm/src/main/java/io/deeplay/camp/botfarm/bots/matthew_bots/movement_stage/MultiThreadMinimax.java:143,186 | The join credits forked result i to `possibleMoves.get(i / 2)`. This assumes every move has exactly two outcomes | Two moves with one certain outcome each, the second worth more (credits the first move). One move with three outcomes, the third best (`get(1)` is past the end and throws) | the result is credited to the move whose outcome produced it | not executed | `MultiThreadMinimax.MisattributedChild`, `MultiThreadMinimax.ChildIndexOutOfRange` | `MultiThreadMinimax.CorrectedJoinFoldSound`, `MultiThreadMinimax.PairedTreesAgree` |
| botfarm/src/main/java/io/deeplay/camp/botfarm/bots/matthew_bots/evaluate/MonteCarloEvaluator.java:98-100 | after each playout the code tests `gameState.getWinner()`, the winner of the original state rather than of the playout copy | One playout won and one lost by the player, from an unfinished state: the intended score is 500, while the code gives 0 or 1000 | count the playouts whose copy `gameStateCopy` ends with the player as winner | not executed | `MonteCarloEvaluator.MixedPlayoutsDiffer`, `MonteCarloEvaluator.AsWrittenAllOrNothing` | `MonteCarloEvaluator.MonteCarloEvaluator.MonteCarloFromPlayouts`, `MonteCarloEvaluator.PlayoutShareBounds` |

The bots keep the code as written: `MultiThreadMinimax.MultiThreadMinimax` is proved against the as-written `Compute` and `MonteCarloEvaluator.MonteCarloEvaluator.Evaluate` against the as-written score. The corrected definitions sit beside them with their properties proved.
