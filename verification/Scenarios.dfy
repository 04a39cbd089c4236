/** Consequences of the model for particular kinds of boards. */
module Scenarios {
  import opened BoardView
  import opened PathScorer
  import opened Ranking
  import opened MoveSelector

  /** Every cell the walk may enter is empty. */
  ghost predicate EmptyInterior(b: Board)
    requires WellFormed(b)
  {
    forall r, c :: Interior(b, r, c) ==> b.grid[r][c] == Empty
  }

  /** On a board without discs every path score is 0: the first cell read is
      empty, and an empty cell only counts from the third step on. */
  lemma NoDiscsNoPathScore(b: Board, own: Cell, index: Pos, dr: int, dc: int)
    requires WellFormed(b) && EmptyInterior(b)
    ensures PathScore(b, own, index, dr, dc) == 0
  {
    PathScoreIsExpected(b, own, index, dr, dc);
    if InStep(b, index, dr, dc, 1) {
      var p := StepPos(index, dr, dc, 1);
      assert StepCell(b, index, dr, dc, 1) == b.grid[p.0][p.1];
    }
  }

  lemma {:induction false} NoDiscsNoSum(b: Board, own: Cell, index: Pos, k: nat)
    requires WellFormed(b) && EmptyInterior(b)
    requires k <= |Directions|
    ensures SumScores(b, own, index, k) == 0
  {
    if k > 0 {
      NoDiscsNoSum(b, own, index, k - 1);
      NoDiscsNoPathScore(b, own, index, Directions[k - 1].0, Directions[k - 1].1);
    }
  }

  /** The opening position on a standard 6 by 7 Connect-Four board without
      discs, where a disc can be dropped in every column and lands in the
      bottom row: every option scores 0, so the tie-break decides.  Columns 3
      and 4 are equally near the centre `(3.5, 3)`, and column 3 is listed
      first, so it is chosen. */
  lemma OpeningMoveIsCentreColumn(b: Board, own: Cell)
    requires WellFormed(b) && EmptyInterior(b)
    requires b.n == 6 && b.m == 7 && !b.full
    requires b.moveOptions == [(5, 0), (5, 1), (5, 2), (5, 3), (5, 4), (5, 5), (5, 6)]
    ensures DecisionFunction(b, own) == Some((5, 3))
  {
    var opts := b.moveOptions;
    var p := DecisionFunction(b, own).value;
    NoDiscsNoSum(b, own, p, |Directions|);
    NoDiscsNoSum(b, own, (5, 3), |Directions|);
    ChosenVersusOption(b, own, (5, 3));
    BottomRowOrder(opts);
    assert p != (5, 4);
    BottomRowNearCentre(b, p);
  }

  /** The bottom-row cells first occur in column order. */
  lemma BottomRowOrder(opts: seq<Pos>)
    requires opts == [(5, 0), (5, 1), (5, 2), (5, 3), (5, 4), (5, 5), (5, 6)]
    ensures FirstIndex(opts, (5, 3)) == 3 && FirstIndex(opts, (5, 4)) == 4
  {
    FirstIndexUnique(opts, (5, 3), 3);
    FirstIndexUnique(opts, (5, 4), 4);
  }

  /** Of the bottom-row cells of a 6 by 7 board only columns 3 and 4 are
      nearest to the centre, so excluding column 4 leaves column 3. */
  lemma BottomRowNearCentre(b: Board, p: Pos)
    requires b.n == 6 && b.m == 7
    requires p in [(5, 0), (5, 1), (5, 2), (5, 3), (5, 4), (5, 5), (5, 6)]
    requires Dist2(b, p) <= Dist2(b, (5, 3))
    requires p != (5, 4)
    ensures p == (5, 3)
  {
  }
}
