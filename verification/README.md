# The hard computer player of a Connect-Four game

This project models in Dafny how the hard computer player (`AIHard` in
`src/AIPlayer.py`) chooses its move, and proves properties of that choice.

The player works in four stages:

- **Walk.** `get_path_score` walks from a candidate landing cell in one of the
  eight directions and scores what it sees:
  - a run of discs of one colour starting at the first step counts 1 per disc;
  - three of the player's own discs score 9;
  - three of the opponent's discs score 6;
  - two equal discs followed by an empty landing cell on the third step score 3.
- **Sum.** `all_path_scores` adds up the eight directional scores.
- **Table.** `decision_function` builds a dictionary from each distinct move
  option to its total, in first-occurrence order. It then sorts the items by
  descending score with Python's stable sort.
- **Pick.** `interpret_scores` takes the leading run of items tied with the top
  score. Among them it picks the one nearest to the board's centre, measured
  by Manhattan distance to `(m / 2, n / 2)`. On equal distance it keeps the
  earliest item.

Modules:

- `BoardView`: the board snapshot the player reads. This covers the grid, the
  dimensions `n` (rows) and `m` (columns), and the results of
  `move_options()`, `is_option()` and `is_board_full()`. It also holds the
  centre distance, doubled so that it stays an integer.
- `PathScorer`: the directional walk. `Walk` is a recursive function with one
  call per loop iteration. `GetPathScore` is the while loop as written, proved
  equal to it. `ExpectedScore` is a loop-free description of the same score,
  and `PathScoreIsExpected` proves the two agree.
- `MoveSelector`: the eight directions and their sum, the score table, the
  tie-break and the whole decision. Each loop of the source also appears as a
  method proved equal to the functional definition. The main theorem is
  `DecisionIsBestNearestFirst`: the chosen option has the highest total score;
  among options with that score it is nearest to the centre; and no option
  with the same score and distance comes before it in `move_options()`.
- `Ranking`: the generic pieces.
  - `Dedup` removes duplicates with `setdefault` semantics.
  - `SortDesc` is a stable descending sort. Its stability is stated per score.
  - `TopRun` is the run of entries tied with the first.
  - `Nearest` is the first nearest entry.
- `Scenarios`: consequences for concrete boards. One example is the opening
  move on an empty 6 by 7 board.

Behaviour of the code that the model reproduces:

- **The walk's bounds.** The walk's guard is `0 < row + y_delta < n` and
  `0 < column + x_delta < m`. So the walk never enters row 0 or column 0. It
  does enter the last row and the last column. `BoardView.Interior` states
  exactly this.
- **The step counter.** The empty-landing-cell rule tests `i > 1`. The score
  equals `i` at the top of every iteration, so the rule only fires on the
  third step. It then yields an unweighted 3.
- **The first-step rule.** The first step always sets the reference colour to
  the first disc read. After that the walk follows whichever colour started
  the run. The condition `ref_colour == self.colour` at a score of 3 decides
  between weights 3 and 2.
- **Termination.** Every iteration that continues adds 1 to the score, and a
  score of 3 stops the walk. So the loop runs at most three times in any
  direction, even for `(0, 0)`. `Walk` is therefore total. It terminates on
  `3 - score`.

One behaviour differs from the code's own documentation, and the model
follows the code:

- **The return value.** `decision_function` is annotated `-> int`, and the
  docstring of `interpret_scores` speaks of returning a column. Both actually
  return a `(row, column)` key from `move_options()`. The model returns
  `Option<Pos>`, with `None` for Python's `None`.

## Model

| member | source | states |
|---|---|---|
| `PathScorer.Walk` | src/AIPlayer.py:109-135 | Each iteration of the walk leaves the score at one of 0, 1, 2, 3, 6 or 9, and the score never decreases. |
| `PathScorer.Saturate` | src/AIPlayer.py:129-135 | At a score of 3 the result is 9 when the reference colour is the player's own and 6 otherwise. At any score the result is a possible path score no smaller than the score so far. |
| `PathScorer.PathScore` | src/AIPlayer.py:105-113 | A directional score is at most 9. It is 0 for a player whose colour is the empty marker. It is 0 when the first step leaves the cells the walk may enter. |
| `PathScorer.PathScoreValues` | src/AIPlayer.py:115-135 | A directional score is one of 0, 1, 2, 3, 6 and 9. |
| `PathScorer.PathScoreIsExpected` | src/AIPlayer.py:105-136 | The walk equals the loop-free score. Take the run of equal discs from the first step, capped at three. A full run scores 9 for own discs and 6 for others'. A run of two followed by an empty landing cell on the third step scores 3. Otherwise the score is the run length. |
| `PathScorer.SelfPathScoresNine` | src/AIPlayer.py:116-132 | A direction scores 9 if and only if the first three steps are all enterable and hold the player's own disc. |
| `PathScorer.BlockingPathScoresSix` | src/AIPlayer.py:116-135 | A direction scores 6 if and only if the first three steps are enterable and hold the same disc, and that disc is neither empty nor the player's own. |
| `PathScorer.OpenPathScoresThree` | src/AIPlayer.py:116-125 | A direction scores 3 if and only if the first two steps hold the same disc and the third step is an empty cell for which `is_option` holds. |
| `PathScorer.ReadsOnlyFirstThreeSteps` | src/AIPlayer.py:109-127 | Two boards of the same size that agree on the first three enterable steps, and on `is_option` there, give the same directional score. |
| `PathScorer.NeverReadsOriginOrEdge` | src/AIPlayer.py:109-113 | For a direction other than (0, 0), the score does not depend on the origin cell, nor on row 0, column 0 or anything outside the grid. |
| `PathScorer.GetPathScore` | src/AIPlayer.py:94-136 | The while loop as written returns the directional score `PathScore`. |
| `BoardView.Dist2` | src/AIPlayer.py:151-157 | The doubled distance is a natural number equal to twice the real-valued Manhattan distance to `(m / 2, n / 2)`. |
| `BoardView.Dist2Ordering` | src/AIPlayer.py:157-158 | Comparing doubled distances gives the same `<` and `==` answers as comparing the real distances. |
| `MoveSelector.DirectionsAreTheEightNeighbours` | src/AIPlayer.py:87-89 | The nested loops visit exactly the eight neighbouring directions, each once. |
| `MoveSelector.SumScores` | src/AIPlayer.py:84-91 | The sum over the first `k` directions is at most `9 * k`, and it is 0 for the empty colour. |
| `MoveSelector.AllPathScores` | src/AIPlayer.py:79-92 | A total path score is at most 72, and it is 0 for the empty colour. |
| `MoveSelector.SumScoresNext` | src/AIPlayer.py:87-91 | Visiting `(x_delta, y_delta)` adds exactly the path score with row step `y_delta` and column step `x_delta`. |
| `MoveSelector.AllPathScoresLoop` | src/AIPlayer.py:79-92 | The two nested loops as written compute `AllPathScores`. |
| `MoveSelector.ColumnPathScores` | src/AIPlayer.py:88-91 | One pass of the inner `y_delta` loop adds the scores of that column's directions, skipping (0, 0). |
| `MoveSelector.AddPathScore` | src/AIPlayer.py:89-91 | One iteration of the inner loop adds the next direction's path score to the running total. |
| `Ranking.FirstIndex` | src/AIPlayer.py:69-72 | Gives the position of the first occurrence of a key in `move_options()`. |
| `Ranking.Dedup` | src/AIPlayer.py:69-72 | The keys `setdefault` leaves in the dictionary are exactly the distinct move options, in the order of their first occurrence. |
| `MoveSelector.FillScores` | src/AIPlayer.py:69-72 | The `setdefault` loop yields the keys of `Dedup` in insertion order, with each key mapped to its total path score. |
| `MoveSelector.ScoreTable` | src/AIPlayer.py:67-73 | The dictionary's items are exactly the pairs (option, its total score), one per distinct option, in first-occurrence order. They are empty exactly when there are no move options. |
| `Ranking.Insert` | src/AIPlayer.py:76 | Inserting into a descending list gives a descending permutation. |
| `Ranking.InsertKeepsScoreOrder` | src/AIPlayer.py:76 | Insertion passes an item only over items with a strictly higher score. So for every score, the items of that score keep their relative order. |
| `Ranking.SortDesc` | src/AIPlayer.py:76 | The sort is descending, a permutation of its input, and stable: for every score, the items of that score appear in input order. |
| `Ranking.WithScoreKeepsOrder` | src/AIPlayer.py:72-76 | Keeping only the items of one score preserves first-occurrence order. |
| `Ranking.TopRun` | src/AIPlayer.py:143-149 | The tie count plus one is the length of the leading run of entries sharing the first entry's score. The entry after the run, if any, scores differently. |
| `Ranking.TopRunIsTopScore` | src/AIPlayer.py:143-149 | In a descending list, the leading tied run is exactly the list of entries with the top score. |
| `MoveSelector.CountTies` | src/AIPlayer.py:143-149 | The tie-counting loop with its `break` returns one less than the length of the top run. |
| `Ranking.Nearest` | src/AIPlayer.py:151-160 | The kept entry is at least as near as every scanned entry and strictly nearer than every earlier one. |
| `Ranking.NearestStep` | src/AIPlayer.py:156-160 | One more scanned entry replaces the kept one exactly when it is strictly nearer. |
| `MoveSelector.NearestLoop` | src/AIPlayer.py:151-160 | The scan with `current` starting at infinity returns the index of `Nearest`. |
| `MoveSelector.InterpretIndex` | src/AIPlayer.py:143-162 | The picked index lies in the top run. It is at least as near as every entry of the run and strictly nearer than every entry before it. |
| `MoveSelector.InterpretScoresLoop` | src/AIPlayer.py:138-162 | `interpret_scores` as written picks that entry's position, and takes the first entry when there is no tie. |
| `MoveSelector.DecisionFunction` | src/AIPlayer.py:64-76 | There is no move exactly when the board is full or there are no move options. Any move returned is one of the options. |
| `MoveSelector.DecisionFunctionLoop` | src/AIPlayer.py:56-76 | `decision_function` as written, with the dictionary and the sort, returns `DecisionFunction`. |
| `MoveSelector.PicksBestOfPermutation` | src/AIPlayer.py:138-162 | Take any descending permutation of a table that keeps the top-score entries in table order. Interpreting it picks a table entry with the maximal score; that entry is nearest among entries of that score, and first in option order among equally near ones. |
| `MoveSelector.InterpretSortedPicksBest` | src/AIPlayer.py:76-162 | The same holds for the stable sort of a table in first-occurrence order. |
| `MoveSelector.ChosenVersusOption` | src/AIPlayer.py:64-76 | Any other option scores no more than the chosen one. If it scores the same, it is no nearer. If it is also equally near, its first occurrence is no earlier. |
| `MoveSelector.DecisionIsBestNearestFirst` | src/AIPlayer.py:56-76 | The chosen option has the maximal total score among all options, and the minimal distance among options with that score. Every option with the same score and distance occurs no earlier than the chosen one in `move_options()`. |
| `MoveSelector.StrictBestIsChosen` | src/AIPlayer.py:64-76 | On a board that is not full, an option whose total strictly beats every other option's is the move chosen. |
| `Scenarios.NoDiscsNoPathScore` | src/AIPlayer.py:116-126 | On a board whose enterable cells are all empty, every directional score is 0. |
| `Scenarios.NoDiscsNoSum` | src/AIPlayer.py:84-91 | On such a board every partial sum of directional scores is 0. |
| `Scenarios.OpeningMoveIsCentreColumn` | src/AIPlayer.py:151-161 | On an empty 6 by 7 board with the seven bottom cells as options, the move is column 3. All options tie at 0, columns 3 and 4 are equally near the centre, and column 3 comes first. |

## Left out

- `AIEasy`: its choice comes from `random()`, which is not part of this model.
- The abstract `AIPlayer` base class (`move`, the abstract
  `decision_function`) and the stub `AIPlayer.py` at the repository root:
  they hold no logic of the hard player.
- The game loop and user interface in `src/inGame.py`.
- The board class is not part of this model. The grid and its dimensions are
  inputs, and so are the answers of `move_options()`, `is_option()` and
  `is_board_full()`. The model does not check that these answers agree with
  the grid.
- Grids of other shapes: the model requires exactly `n` rows of `m` cells
  (`WellFormed`). Python only needs the cells a walk reaches, and raises
  `IndexError` when one of them is missing. Grids with extra or longer rows,
  which Python accepts, are not modelled either.
- Floating-point distances: the centre `(m / 2, n / 2)` and the distances are
  floats in the source. The model compares doubled integer distances, which
  are exact. `Dist2Ordering` shows they order positions as the real distances
  do. Rounding in floating point is not modelled.
- The player's colour is a parameter `own` rather than an attribute of a
  player object.
- Python's dynamic typing (keys that are not pairs, scores that are not
  integers) is not modelled.
