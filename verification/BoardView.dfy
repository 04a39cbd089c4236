/** The read-only snapshot of the board that the hard computer player
    consults while it chooses a move.  The board class itself is not part of
    this model: its grid, its dimensions and its three queries
    (`move_options`, `is_option`, `is_board_full`) are taken as given inputs.
 */
module BoardView {

  /** The conventional Some/None datatype; `None` is the player's "no move". */
  datatype Option<+T> = None | Some(value: T)

  /** A cell of the grid: the empty marker ' ' or a disc of one of the two players. */
  datatype Cell = Empty | PlayerA | PlayerB

  /** A (row, column) pair, the shape of the keys `move_options` yields. */
  type Pos = (int, int)

  /** A snapshot of the board.
      - `grid` is indexed `[row][column]`;
      - `n` is the number of rows and `m` the number of columns;
      - `moveOptions` is what `move_options()` returns, in its order;
      - `optionCells` is the set of positions for which `is_option` holds;
      - `full` is what `is_board_full()` returns.
   */
  datatype Board = Board(
    grid: seq<seq<Cell>>,
    n: int,
    m: int,
    moveOptions: seq<Pos>,
    optionCells: set<Pos>,
    full: bool)

  /** The grid really has `n` rows of `m` cells each. */
  predicate WellFormed(b: Board) {
    && |b.grid| == b.n
    && forall r :: 0 <= r < |b.grid| ==> |b.grid[r]| == b.m
  }

  /** The cells the path walk is allowed to enter: row 0 and column 0 are
      excluded, the last row and the last column are not. */
  predicate Interior(b: Board, row: int, col: int) {
    0 < row < b.n && 0 < col < b.m
  }

  /** The `is_option` query. */
  predicate IsOption(b: Board, p: Pos) {
    p in b.optionCells
  }

  /** Twice the Manhattan distance from `p` to the board's centre
      `(m / 2, n / 2)`; doubling keeps the distance an integer. */
  function Dist2(b: Board, p: Pos): (d: int)
    ensures d >= 0
    ensures d as real == 2.0 * RealDistance(b, p)
  {
    Abs(b.m - 2 * p.1) + Abs(b.n - 2 * p.0)
  }

  /** The distance exactly as the player computes it, with real division. */
  ghost function RealDistance(b: Board, p: Pos): real {
    RealAbs(b.m as real / 2.0 - p.1 as real) + RealAbs(b.n as real / 2.0 - p.0 as real)
  }

  /** Comparing doubled distances orders positions as the real distances do. */
  lemma Dist2Ordering(b: Board, p: Pos, q: Pos)
    ensures Dist2(b, p) < Dist2(b, q) <==> RealDistance(b, p) < RealDistance(b, q)
    ensures Dist2(b, p) == Dist2(b, q) <==> RealDistance(b, p) == RealDistance(b, q)
  {
  }

  function Abs(x: int): int {
    if x < 0 then -x else x
  }

  function RealAbs(x: real): real {
    if x < 0.0 then -x else x
  }
}
