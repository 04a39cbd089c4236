/** The directional walk of the hard computer player (`get_path_score`).

    From a candidate cell the walk steps in one direction, reading one cell
    per step, and keeps a score:
    - a disc of the reference colour (the player's own colour at first) adds 1;
    - on the first step only, a disc of another colour adds 1 and becomes the
      reference colour (an opponent's path, worth blocking);
    - from the third step on, an empty cell that is a legal landing cell adds 1
      and ends the walk;
    - anything else ends the walk;
    - reaching a score of 3 ends the walk and multiplies the score by 3 for the
      player's own colour and by 2 for the opponent's.
    The walk only enters cells with `0 < row < n` and `0 < column < m`.
 */
module PathScorer {
  import opened BoardView

  /** The scores a single direction can produce. */
  predicate IsPathScore(s: int) {
    s == 0 || s == 1 || s == 2 || s == 3 || s == 6 || s == 9
  }

  /** One iteration of the walk, standing at `(row, col)` after `i` steps
      with running score `score` and reference colour `ref`. */
  function Walk(b: Board, own: Cell, ref: Cell, row: int, col: int, dr: int, dc: int,
                score: nat, i: nat): (r: nat)
    requires WellFormed(b)
    requires score < 3
    ensures IsPathScore(r)
    ensures score <= r
    decreases 3 - score, 0
  {
    var row', col' := row + dr, col + dc;
    if !Interior(b, row', col') then score
    else
      var cell := b.grid[row'][col'];
      if cell == ref then
        Saturate(b, own, ref, row', col', dr, dc, score + 1, i + 1)
      else if i == 0 && cell != Empty then
        Saturate(b, own, cell, row', col', dr, dc, score + 1, i + 1)
      else if i > 1 && cell == Empty && IsOption(b, (row', col')) then
        score + 1
      else
        score
  }

  /** The end of an iteration that added to the score: stop with the weight
      at 3, otherwise take the next step. */
  function Saturate(b: Board, own: Cell, ref: Cell, row: int, col: int, dr: int, dc: int,
                    score: nat, i: nat): (r: nat)
    requires WellFormed(b)
    requires 1 <= score <= 3
    ensures IsPathScore(r)
    ensures score <= r
    ensures score == 3 ==> r == (if ref == own then 9 else 6)
    decreases 3 - score, 1
  {
    if score == 3 then
      if ref == own then score * 3 else score * 2
    else
      Walk(b, own, ref, row, col, dr, dc, score, i)
  }

  /** `get_path_score(origin, x_delta = dc, y_delta = dr)` for a player whose
      colour is `own`. */
  function PathScore(b: Board, own: Cell, origin: Pos, dr: int, dc: int): (r: nat)
    requires WellFormed(b)
    ensures r <= 9
    ensures own == Empty ==> r == 0
    ensures !Interior(b, origin.0 + dr, origin.1 + dc) ==> r == 0
  {
    if own == Empty then 0
    else Walk(b, own, own, origin.0, origin.1, dr, dc, 0, 0)
  }

  /** A directional score is one of 0, 1, 2, 3, 6 and 9. */
  lemma PathScoreValues(b: Board, own: Cell, origin: Pos, dr: int, dc: int)
    requires WellFormed(b)
    ensures IsPathScore(PathScore(b, own, origin, dr, dc))
  {
  }

  /** The position reached after `k` steps. */
  function StepPos(origin: Pos, dr: int, dc: int, k: int): Pos {
    (origin.0 + k * dr, origin.1 + k * dc)
  }

  /** Whether the `k`-th step lands on a cell the walk may enter. */
  predicate InStep(b: Board, origin: Pos, dr: int, dc: int, k: int) {
    var p := StepPos(origin, dr, dc, k);
    Interior(b, p.0, p.1)
  }

  /** The cell read at the `k`-th step. */
  function StepCell(b: Board, origin: Pos, dr: int, dc: int, k: int): Cell
    requires WellFormed(b)
    requires InStep(b, origin, dr, dc, k)
  {
    var p := StepPos(origin, dr, dc, k);
    b.grid[p.0][p.1]
  }

  /** How many of the first three steps carry the same disc as the first
      step, stopping at the first step that leaves the interior or differs. */
  function RunLength(b: Board, origin: Pos, dr: int, dc: int): nat
    requires WellFormed(b)
  {
    if !InStep(b, origin, dr, dc, 1) || StepCell(b, origin, dr, dc, 1) == Empty then 0
    else if !InStep(b, origin, dr, dc, 2)
         || StepCell(b, origin, dr, dc, 2) != StepCell(b, origin, dr, dc, 1) then 1
    else if !InStep(b, origin, dr, dc, 3)
         || StepCell(b, origin, dr, dc, 3) != StepCell(b, origin, dr, dc, 1) then 2
    else 3
  }

  /** Whether the third step is an empty cell on which a disc could land. */
  predicate OpenThirdStep(b: Board, origin: Pos, dr: int, dc: int)
    requires WellFormed(b)
  {
    && InStep(b, origin, dr, dc, 3)
    && StepCell(b, origin, dr, dc, 3) == Empty
    && IsOption(b, StepPos(origin, dr, dc, 3))
  }

  /** The directional score stated without a loop: the length of the run of
      equal discs from the first step, weighted at 3, or extended by an open
      third cell. */
  function ExpectedScore(b: Board, own: Cell, origin: Pos, dr: int, dc: int): nat
    requires WellFormed(b)
  {
    if own == Empty then 0
    else
      var k := RunLength(b, origin, dr, dc);
      if k == 3 then
        if StepCell(b, origin, dr, dc, 1) == own then 9 else 6
      else if k == 2 && OpenThirdStep(b, origin, dr, dc) then 3
      else k
  }

  /** The walk computes the closed-form score. */
  lemma PathScoreIsExpected(b: Board, own: Cell, origin: Pos, dr: int, dc: int)
    requires WellFormed(b)
    ensures PathScore(b, own, origin, dr, dc) == ExpectedScore(b, own, origin, dr, dc)
  {
    if own != Empty {
      var p1 := StepPos(origin, dr, dc, 1);
      var p2 := StepPos(origin, dr, dc, 2);
      var p3 := StepPos(origin, dr, dc, 3);
      assert p2 == (p1.0 + dr, p1.1 + dc);
      assert p3 == (p2.0 + dr, p2.1 + dc);
      if InStep(b, origin, dr, dc, 1) {
        var c1 := StepCell(b, origin, dr, dc, 1);
        if c1 != Empty {
          var w2 := Walk(b, own, c1, p1.0, p1.1, dr, dc, 1, 1);
          assert PathScore(b, own, origin, dr, dc) == w2;
          if InStep(b, origin, dr, dc, 2) && StepCell(b, origin, dr, dc, 2) == c1 {
            var w3 := Walk(b, own, c1, p2.0, p2.1, dr, dc, 2, 2);
            assert w2 == w3;
          }
        }
      }
    }
  }

  /** A run of three of the player's own discs next to the origin scores 9,
      and nothing else does. */
  lemma SelfPathScoresNine(b: Board, own: Cell, origin: Pos, dr: int, dc: int)
    requires WellFormed(b)
    ensures PathScore(b, own, origin, dr, dc) == 9 <==>
      && own != Empty
      && InStep(b, origin, dr, dc, 1) && StepCell(b, origin, dr, dc, 1) == own
      && InStep(b, origin, dr, dc, 2) && StepCell(b, origin, dr, dc, 2) == own
      && InStep(b, origin, dr, dc, 3) && StepCell(b, origin, dr, dc, 3) == own
  {
    PathScoreIsExpected(b, own, origin, dr, dc);
  }

  /** A run of three opponent discs starting right next to the origin scores
      6, and nothing else does. */
  lemma BlockingPathScoresSix(b: Board, own: Cell, origin: Pos, dr: int, dc: int)
    requires WellFormed(b)
    ensures PathScore(b, own, origin, dr, dc) == 6 <==>
      && own != Empty
      && InStep(b, origin, dr, dc, 1)
      && StepCell(b, origin, dr, dc, 1) != Empty
      && StepCell(b, origin, dr, dc, 1) != own
      && InStep(b, origin, dr, dc, 2) && StepCell(b, origin, dr, dc, 2) == StepCell(b, origin, dr, dc, 1)
      && InStep(b, origin, dr, dc, 3) && StepCell(b, origin, dr, dc, 3) == StepCell(b, origin, dr, dc, 1)
  {
    PathScoreIsExpected(b, own, origin, dr, dc);
  }

  /** An unmultiplied 3 comes only from a run of two equal discs followed by
      an empty landing cell on the third step. */
  lemma OpenPathScoresThree(b: Board, own: Cell, origin: Pos, dr: int, dc: int)
    requires WellFormed(b)
    ensures PathScore(b, own, origin, dr, dc) == 3 <==>
      && own != Empty
      && InStep(b, origin, dr, dc, 1) && StepCell(b, origin, dr, dc, 1) != Empty
      && InStep(b, origin, dr, dc, 2) && StepCell(b, origin, dr, dc, 2) == StepCell(b, origin, dr, dc, 1)
      && OpenThirdStep(b, origin, dr, dc)
  {
    PathScoreIsExpected(b, own, origin, dr, dc);
  }

  /** The walk reads at most three cells: two boards that agree on the first
      three steps (where those are interior) and on `is_option` there give the
      same score. */
  lemma ReadsOnlyFirstThreeSteps(b1: Board, b2: Board, own: Cell, origin: Pos, dr: int, dc: int)
    requires WellFormed(b1) && WellFormed(b2)
    requires b1.n == b2.n && b1.m == b2.m
    requires forall k :: 1 <= k <= 3 && InStep(b1, origin, dr, dc, k) ==>
      && StepCell(b1, origin, dr, dc, k) == StepCell(b2, origin, dr, dc, k)
      && (IsOption(b1, StepPos(origin, dr, dc, k)) <==> IsOption(b2, StepPos(origin, dr, dc, k)))
    ensures PathScore(b1, own, origin, dr, dc) == PathScore(b2, own, origin, dr, dc)
  {
    PathScoreIsExpected(b1, own, origin, dr, dc);
    PathScoreIsExpected(b2, own, origin, dr, dc);
    assert InStep(b1, origin, dr, dc, 1) ==> StepCell(b1, origin, dr, dc, 1) == StepCell(b2, origin, dr, dc, 1);
    assert InStep(b1, origin, dr, dc, 2) ==> StepCell(b1, origin, dr, dc, 2) == StepCell(b2, origin, dr, dc, 2);
    assert InStep(b1, origin, dr, dc, 3) ==> StepCell(b1, origin, dr, dc, 3) == StepCell(b2, origin, dr, dc, 3);
  }

  /** For a proper direction the walk never reads the origin, nor any cell in
      row 0 or column 0 or outside the grid: the score depends only on the
      interior cells other than the origin. */
  lemma NeverReadsOriginOrEdge(b1: Board, b2: Board, own: Cell, origin: Pos, dr: int, dc: int)
    requires WellFormed(b1) && WellFormed(b2)
    requires b1.n == b2.n && b1.m == b2.m && b1.optionCells == b2.optionCells
    requires dr != 0 || dc != 0
    requires forall r, c :: Interior(b1, r, c) && (r, c) != origin ==> b1.grid[r][c] == b2.grid[r][c]
    ensures PathScore(b1, own, origin, dr, dc) == PathScore(b2, own, origin, dr, dc)
  {
    forall k | 1 <= k <= 3 && InStep(b1, origin, dr, dc, k)
      ensures StepCell(b1, origin, dr, dc, k) == StepCell(b2, origin, dr, dc, k)
    {
      var p := StepPos(origin, dr, dc, k);
      assert p != origin by {
        if dr != 0 {
          assert k * dr != 0;
        } else {
          assert k * dc != 0;
        }
      }
    }
    ReadsOnlyFirstThreeSteps(b1, b2, own, origin, dr, dc);
  }

  /** `get_path_score` as written, with its while loop. */
  method GetPathScore(b: Board, own: Cell, index: Pos, xDelta: int, yDelta: int)
    returns (score: nat)
    requires WellFormed(b)
    ensures score == PathScore(b, own, index, yDelta, xDelta)
  {
    var row, column, i := index.0, index.1, 0;
    score := 0;
    var ref := own;
    if ref == Empty {
      return;
    }
    while Interior(b, row + yDelta, column + xDelta)
      invariant score < 3
      invariant Walk(b, own, ref, row, column, yDelta, xDelta, score, i)
             == PathScore(b, own, index, yDelta, xDelta)
      decreases 3 - score
    {
      ghost var goal := Walk(b, own, ref, row, column, yDelta, xDelta, score, i);
      row := row + yDelta;
      column := column + xDelta;
      var cell := b.grid[row][column];
      if cell == ref {
        score := score + 1;
      } else if i == 0 && cell != ref && cell != Empty {
        score := score + 1;
        ref := cell;
      } else if i > 1 && cell == Empty && IsOption(b, (row, column)) {
        score := score + 1;
        assert score == goal;
        break;
      } else {
        assert score == goal;
        break;
      }
      i := i + 1;
      if score == 3 && ref == own {
        score := score * 3;
        assert score == goal;
        break;
      } else if score == 3 {
        score := score * 2;
        assert score == goal;
        break;
      }
    }
  }
}
