/** The move choice of the hard computer player (`all_path_scores`,
    `decision_function` and `interpret_scores`): every move option is scored
    by summing the path scores of its eight directions, the options are sorted
    by score, and among the top-scoring ones the option nearest to the board's
    centre wins, the earliest one on equal distance.
 */
module MoveSelector {
  import opened BoardView
  import opened PathScorer
  import opened Ranking

  /** The eight directions as (row delta, column delta), in the order the
      nested loops visit them: `x_delta` (columns) outside, `y_delta` (rows)
      inside, skipping (0, 0). */
  const Directions: seq<(int, int)> :=
    [(-1, -1), (0, -1), (1, -1), (-1, 0), (1, 0), (-1, 1), (0, 1), (1, 1)]

  /** The directions are exactly the eight neighbours, each once. */
  lemma DirectionsAreTheEightNeighbours()
    ensures |Directions| == 8
    ensures forall d: (int, int) :: d in Directions <==> -1 <= d.0 <= 1 && -1 <= d.1 <= 1 && d != (0, 0)
    ensures forall i, j :: 0 <= i < j < |Directions| ==> Directions[i] != Directions[j]
  {
    forall d: (int, int) | -1 <= d.0 <= 1 && -1 <= d.1 <= 1 && d != (0, 0)
      ensures d in Directions
    {
      if d.1 == -1 {
        assert d == Directions[d.0 + 1];
      } else if d.1 == 0 {
        assert d == Directions[if d.0 < 0 then 3 else 4];
      } else {
        assert d == Directions[d.0 + 6];
      }
    }
  }

  /** The sum of the path scores of `index` over the first `k` directions. */
  function SumScores(b: Board, own: Cell, index: Pos, k: nat): (r: nat)
    requires WellFormed(b)
    requires k <= |Directions|
    ensures r <= 9 * k
    ensures own == Empty ==> r == 0
  {
    if k == 0 then 0
    else SumScores(b, own, index, k - 1) + PathScore(b, own, index, Directions[k - 1].0, Directions[k - 1].1)
  }

  /** `all_path_scores(index)`: the path scores of the eight directions added up. */
  function AllPathScores(b: Board, own: Cell, index: Pos): (r: nat)
    requires WellFormed(b)
    ensures r <= 72
    ensures own == Empty ==> r == 0
  {
    SumScores(b, own, index, |Directions|)
  }

  /** `all_path_scores` as written, with its two nested loops. */
  method AllPathScoresLoop(b: Board, own: Cell, index: Pos) returns (pathScores: nat)
    requires WellFormed(b)
    ensures pathScores == AllPathScores(b, own, index)
  {
    pathScores := 0;
    for xDelta := -1 to 2
      invariant pathScores == SumScores(b, own, index, DirectionIndex(xDelta, -1))
    {
      pathScores := ColumnPathScores(b, own, index, xDelta, pathScores);
    }
  }

  /** One pass of the inner loop of `all_path_scores`: the `y_delta` loop for
      one `x_delta`, adding to the running total `acc`. */
  method ColumnPathScores(b: Board, own: Cell, index: Pos, xDelta: int, acc: nat) returns (pathScores: nat)
    requires WellFormed(b)
    requires -1 <= xDelta <= 1
    requires acc == SumScores(b, own, index, DirectionIndex(xDelta, -1))
    ensures pathScores == SumScores(b, own, index, DirectionIndex(xDelta + 1, -1))
  {
    pathScores := acc;
    for yDelta := -1 to 2
      invariant 0 <= DirectionIndex(xDelta, yDelta) <= |Directions|
      invariant pathScores == SumScores(b, own, index, DirectionIndex(xDelta, yDelta))
    {
      if xDelta == 0 && yDelta == 0 {
        continue;
      }
      pathScores := AddPathScore(b, own, index, xDelta, yDelta, pathScores);
    }
  }

  /** The body of the inner loop for a direction other than (0, 0): add the
      path score in that direction to the running total `acc`. */
  method AddPathScore(b: Board, own: Cell, index: Pos, xDelta: int, yDelta: int, acc: nat) returns (pathScores: nat)
    requires WellFormed(b)
    requires -1 <= xDelta <= 1 && -1 <= yDelta <= 1 && (xDelta, yDelta) != (0, 0)
    requires acc == SumScores(b, own, index, DirectionIndex(xDelta, yDelta))
    ensures pathScores == SumScores(b, own, index, DirectionIndex(xDelta, yDelta) + 1)
  {
    SumScoresNext(b, own, index, xDelta, yDelta);
    var s := PathScorer.GetPathScore(b, own, index, xDelta, yDelta);
    pathScores := acc + s;
  }

  /** How many directions the nested loops have visited before reaching
      `(x_delta, y_delta)`. */
  ghost function DirectionIndex(xDelta: int, yDelta: int): int {
    3 * (xDelta + 1) + (yDelta + 1) - (if xDelta > 0 || (xDelta == 0 && yDelta > 0) then 1 else 0)
  }

  /** Visiting `(x_delta, y_delta)` adds the path score in that direction. */
  lemma SumScoresNext(b: Board, own: Cell, index: Pos, xDelta: int, yDelta: int)
    requires WellFormed(b)
    requires -1 <= xDelta <= 1 && -1 <= yDelta <= 1 && (xDelta, yDelta) != (0, 0)
    ensures var k := DirectionIndex(xDelta, yDelta);
      && 0 <= k < |Directions|
      && SumScores(b, own, index, k + 1) == SumScores(b, own, index, k) + PathScore(b, own, index, yDelta, xDelta)
  {
    DirectionAt(xDelta, yDelta);
  }

  /** The direction the loops visit at `(x_delta, y_delta)`. */
  lemma DirectionAt(xDelta: int, yDelta: int)
    requires -1 <= xDelta <= 1 && -1 <= yDelta <= 1 && (xDelta, yDelta) != (0, 0)
    ensures var k := DirectionIndex(xDelta, yDelta);
      0 <= k < |Directions| && Directions[k] == (yDelta, xDelta)
  {
  }

  /** The items of the `scores` dictionary in insertion order: one entry per
      distinct move option, at the place of its first occurrence, holding that
      option's total path score. */
  function ScoreTable(b: Board, own: Cell): (t: seq<Entry>)
    requires WellFormed(b)
    ensures forall e: Entry :: e in t <==> e.pos in b.moveOptions && e.score == AllPathScores(b, own, e.pos)
    ensures |t| == 0 <==> |b.moveOptions| == 0
    ensures InFirstOccurrenceOrder(b.moveOptions, t)
  {
    var keys := Dedup(b.moveOptions);
    var t := seq(|keys|, i requires 0 <= i < |keys| => Entry(keys[i], AllPathScores(b, own, keys[i])));
    assert forall e: Entry :: e.pos in keys ==> (e in t <==> e.score == AllPathScores(b, own, e.pos)) by {
      forall e: Entry | e.pos in keys
        ensures e in t <==> e.score == AllPathScores(b, own, e.pos)
      {
        var i :| 0 <= i < |keys| && keys[i] == e.pos;
        assert t[i] == Entry(e.pos, AllPathScores(b, own, e.pos));
      }
    }
    assert |b.moveOptions| > 0 ==> b.moveOptions[0] in keys;
    t
  }

  /** The position `interpret_scores` picks, as an index into its sorted
      input: within the leading run of entries tied with the top score, the
      one nearest to the centre, the earliest among equally near ones. */
  function InterpretIndex(b: Board, ss: seq<Entry>): (k: nat)
    requires |ss| >= 1
    ensures k < TopRun(ss)
    ensures forall i :: 0 <= i < TopRun(ss) ==> Dist2(b, ss[k].pos) <= Dist2(b, ss[i].pos)
    ensures forall i :: 0 <= i < k ==> Dist2(b, ss[i].pos) > Dist2(b, ss[k].pos)
  {
    var tied := TopRun(ss) - 1;
    if tied > 0 then Nearest(b, ss[..tied + 1]) else 0
  }

  /** `interpret_scores(sorted_scores)`. */
  function InterpretScores(b: Board, ss: seq<Entry>): Pos
    requires |ss| >= 1
  {
    ss[InterpretIndex(b, ss)].pos
  }

  /** `interpret_scores` as written: count the ties with the top score, then
      scan the tied entries keeping the first strictly nearest one; `None`
      for `current` plays the part of the initial infinity. */
  method InterpretScoresLoop(b: Board, sortedScores: seq<Entry>) returns (p: Pos)
    requires |sortedScores| >= 1
    ensures p == InterpretScores(b, sortedScores)
  {
    var tied := CountTies(sortedScores);
    if tied > 0 {
      var k := NearestLoop(b, sortedScores[..tied + 1]);
      return sortedScores[k].pos;
    } else {
      return sortedScores[0].pos;
    }
  }

  /** The first loop of `interpret_scores`: how many entries after the first
      share its score before the first entry that does not. */
  method CountTies(sortedScores: seq<Entry>) returns (tied: nat)
    requires |sortedScores| >= 1
    ensures tied + 1 == TopRun(sortedScores)
  {
    var highest := sortedScores[0].score;
    tied := 0;
    var i := 1;
    while i < |sortedScores|
      invariant 1 <= i <= |sortedScores|
      invariant tied == i - 1
      invariant forall j :: 0 <= j < i ==> sortedScores[j].score == highest
    {
      if highest != sortedScores[i].score {
        break;
      }
      tied := tied + 1;
      i := i + 1;
    }
  }

  /** The second loop of `interpret_scores`: scan the tied entries keeping the
      first strictly nearest one; `None` for `current` plays the part of the
      initial infinity.  Returns the index of the entry kept. */
  method NearestLoop(b: Board, tiedScores: seq<Entry>) returns (k: nat)
    requires |tiedScores| >= 1
    ensures k == Nearest(b, tiedScores)
  {
    var current: Option<int> := None;
    k := 0;
    for j := 0 to |tiedScores|
      invariant j == 0 <==> current.None?
      invariant j > 0 ==> k == Nearest(b, tiedScores[..j]) && current == Some(Dist2(b, tiedScores[k].pos))
    {
      if j > 0 {
        NearestStep(b, tiedScores, j);
      }
      var dist := Dist2(b, tiedScores[j].pos);
      if current.None? || dist < current.value {
        current := Some(dist);
        k := j;
      }
    }
    assert tiedScores[..|tiedScores|] == tiedScores;
  }

  /** `decision_function()`: no move on a full board or without options,
      otherwise the choice of `interpret_scores` over the score table sorted
      by descending score. */
  function DecisionFunction(b: Board, own: Cell): (r: Option<Pos>)
    requires WellFormed(b)
    ensures r.None? <==> b.full || |b.moveOptions| == 0
    ensures r.Some? ==> r.value in b.moveOptions
  {
    if b.full then None
    else
      var scores := ScoreTable(b, own);
      if |scores| < 1 then None
      else
        var sorted := SortDesc(scores);
        var k := InterpretIndex(b, sorted);
        assert sorted[k] in multiset(scores);
        Some(InterpretScores(b, sorted))
  }

  /** Sorting any table of entries and interpreting it picks an entry of the
      table with the highest score, nearest to the centre among the entries of
      that score, and first in `opts` order among equally near ones. */
  lemma InterpretSortedPicksBest(b: Board, opts: seq<Pos>, t: seq<Entry>)
    requires |t| >= 1
    requires InFirstOccurrenceOrder(opts, t)
    ensures var s := SortDesc(t);
      var e := s[InterpretIndex(b, s)];
      && e in t
      && (forall x :: x in t ==> x.score <= e.score)
      && (forall x :: x in t && x.score == e.score ==> Dist2(b, e.pos) <= Dist2(b, x.pos))
      && (forall x :: x in t && x.score == e.score && Dist2(b, x.pos) == Dist2(b, e.pos) ==>
            FirstIndex(opts, e.pos) <= FirstIndex(opts, x.pos))
  {
    var s := SortDesc(t);
    assert WithScore(s, s[0].score) == WithScore(t, s[0].score);
    PicksBestOfPermutation(b, opts, t, s);
  }

  /** The same for any descending permutation `s` of `t` that keeps the
      entries of the top score in their order in `t`. */
  lemma PicksBestOfPermutation(b: Board, opts: seq<Pos>, t: seq<Entry>, s: seq<Entry>)
    requires |s| >= 1
    requires InFirstOccurrenceOrder(opts, t)
    requires SortedDesc(s) && multiset(s) == multiset(t)
    requires WithScore(s, s[0].score) == WithScore(t, s[0].score)
    ensures var e := s[InterpretIndex(b, s)];
      && e in t
      && (forall x :: x in t ==> x.score <= e.score)
      && (forall x :: x in t && x.score == e.score ==> Dist2(b, e.pos) <= Dist2(b, x.pos))
      && (forall x :: x in t && x.score == e.score && Dist2(b, x.pos) == Dist2(b, e.pos) ==>
            FirstIndex(opts, e.pos) <= FirstIndex(opts, x.pos))
  {
    var idx := InterpretIndex(b, s);
    var k := TopRun(s);
    var top := s[0].score;
    TopRunIsTopScore(s);
    assert s[..k] == WithScore(t, top);
    WithScoreKeepsOrder(opts, t, top);
    NearestFirstOfRun(b, opts, s, k, idx);
    SortedHeadIsMax(s, t);
    WithScoreMembers(t, top);
    assert s[idx] in s[..k];
  }

  /** The entry `InterpretIndex` picks from a run of entries kept in
      first-occurrence order is, among the entries of the run, nearest to the
      centre and first among equally near ones. */
  lemma NearestFirstOfRun(b: Board, opts: seq<Pos>, s: seq<Entry>, k: nat, idx: nat)
    requires idx < k <= |s|
    requires InFirstOccurrenceOrder(opts, s[..k])
    requires forall i :: 0 <= i < k ==> Dist2(b, s[idx].pos) <= Dist2(b, s[i].pos)
    requires forall i :: 0 <= i < idx ==> Dist2(b, s[i].pos) > Dist2(b, s[idx].pos)
    ensures forall x :: x in s[..k] ==> Dist2(b, s[idx].pos) <= Dist2(b, x.pos)
    ensures forall x :: x in s[..k] && Dist2(b, x.pos) == Dist2(b, s[idx].pos) ==>
              FirstIndex(opts, s[idx].pos) <= FirstIndex(opts, x.pos)
  {
    var f := s[..k];
    forall x | x in f
      ensures Dist2(b, s[idx].pos) <= Dist2(b, x.pos)
      ensures Dist2(b, x.pos) == Dist2(b, s[idx].pos) ==> FirstIndex(opts, s[idx].pos) <= FirstIndex(opts, x.pos)
    {
      var j :| 0 <= j < k && f[j] == x;
      assert s[j] == x && f[idx] == s[idx];
      if Dist2(b, x.pos) == Dist2(b, s[idx].pos) && j != idx {
        assert idx < j;
      }
    }
  }

  /** The head of a descending permutation of `t` has the highest score in `t`. */
  lemma SortedHeadIsMax(s: seq<Entry>, t: seq<Entry>)
    requires |s| >= 1 && SortedDesc(s) && multiset(s) == multiset(t)
    ensures s[0] in t
    ensures forall x :: x in t ==> x.score <= s[0].score
  {
    assert s[0] in multiset(t);
    forall x | x in t
      ensures x.score <= s[0].score
    {
      assert x in multiset(s);
      var j :| 0 <= j < |s| && s[j] == x;
      if j > 0 {
        assert s[0].score >= s[j].score;
      }
    }
  }

  /** The chosen option compared with one other option `q`: `q` scores no
      more; if it scores the same it is no nearer to the centre; if it is
      also as near, its first occurrence in `move_options` is no earlier. */
  lemma ChosenVersusOption(b: Board, own: Cell, q: Pos)
    requires WellFormed(b)
    requires DecisionFunction(b, own).Some?
    requires q in b.moveOptions
    ensures var p := DecisionFunction(b, own).value;
      && AllPathScores(b, own, q) <= AllPathScores(b, own, p)
      && (AllPathScores(b, own, q) == AllPathScores(b, own, p) ==> Dist2(b, p) <= Dist2(b, q))
      && (AllPathScores(b, own, q) == AllPathScores(b, own, p) && Dist2(b, q) == Dist2(b, p) ==>
            FirstIndex(b.moveOptions, p) <= FirstIndex(b.moveOptions, q))
  {
    var t := ScoreTable(b, own);
    var s := SortDesc(t);
    var e := s[InterpretIndex(b, s)];
    InterpretSortedPicksBest(b, b.moveOptions, t);
    assert e.pos == DecisionFunction(b, own).value;
    assert e.score == AllPathScores(b, own, e.pos);
    assert Entry(q, AllPathScores(b, own, q)) in t;
  }

  /** The chosen option has the highest total score of all options; among the
      options of that score it is nearest to the centre; and no option of the
      same score and distance occurs before it in `move_options`. */
  lemma DecisionIsBestNearestFirst(b: Board, own: Cell)
    requires WellFormed(b)
    ensures DecisionFunction(b, own).Some? ==>
      var p := DecisionFunction(b, own).value;
      var opts := b.moveOptions;
      && (forall q :: q in opts ==> AllPathScores(b, own, q) <= AllPathScores(b, own, p))
      && (forall q :: q in opts && AllPathScores(b, own, q) == AllPathScores(b, own, p) ==>
            Dist2(b, p) <= Dist2(b, q))
      && (forall j :: (&& 0 <= j < |opts|
                        && AllPathScores(b, own, opts[j]) == AllPathScores(b, own, p)
                        && Dist2(b, opts[j]) == Dist2(b, p)) ==> p in opts[..j + 1])
  {
    if DecisionFunction(b, own).Some? {
      var p := DecisionFunction(b, own).value;
      var opts := b.moveOptions;
      forall q | q in opts
        ensures AllPathScores(b, own, q) <= AllPathScores(b, own, p)
        ensures AllPathScores(b, own, q) == AllPathScores(b, own, p) ==> Dist2(b, p) <= Dist2(b, q)
      {
        ChosenVersusOption(b, own, q);
      }
      forall j | (&& 0 <= j < |opts|
                  && AllPathScores(b, own, opts[j]) == AllPathScores(b, own, p)
                  && Dist2(b, opts[j]) == Dist2(b, p))
        ensures p in opts[..j + 1]
      {
        ChosenVersusOption(b, own, opts[j]);
        FirstIndexWithin(opts, p, j);
      }
    }
  }

  /** An option whose total score beats every other option's is chosen
      whenever the board is not full. */
  lemma StrictBestIsChosen(b: Board, own: Cell, p: Pos)
    requires WellFormed(b)
    requires !b.full
    requires p in b.moveOptions
    requires forall q :: q in b.moveOptions && q != p ==> AllPathScores(b, own, q) < AllPathScores(b, own, p)
    ensures DecisionFunction(b, own) == Some(p)
  {
    DecisionIsBestNearestFirst(b, own);
  }

  /** The `setdefault` loop of `decision_function`: `keys` lists the
      dictionary's keys in insertion order and `scores` maps each to its total
      path score. */
  method FillScores(b: Board, own: Cell, indices: seq<Pos>)
    returns (keys: seq<Pos>, scores: map<Pos, nat>)
    requires WellFormed(b)
    ensures keys == Dedup(indices)
    ensures forall k :: k in scores <==> k in keys
    ensures forall k :: k in scores ==> scores[k] == AllPathScores(b, own, k)
  {
    keys, scores := [], map[];
    for i := 0 to |indices|
      invariant keys == Dedup(indices[..i])
      invariant forall k :: k in scores <==> k in keys
      invariant forall k :: k in scores ==> scores[k] == AllPathScores(b, own, k)
    {
      assert indices[..i + 1][..i] == indices[..i];
      if indices[i] !in scores {
        var s := AllPathScoresLoop(b, own, indices[i]);
        scores := scores[indices[i] := s];
        keys := keys + [indices[i]];
      }
    }
    assert indices[..|indices|] == indices;
  }

  /** `decision_function` as written: fill the score dictionary, give up when
      it is empty, sort its items by descending score and interpret them. */
  method DecisionFunctionLoop(b: Board, own: Cell) returns (r: Option<Pos>)
    requires WellFormed(b)
    ensures r == DecisionFunction(b, own)
  {
    if b.full {
      return None;
    }
    var keys, scores := FillScores(b, own, b.moveOptions);
    // `keys` are the dictionary's keys, so this is `len(scores) < 1`.
    if |keys| < 1 {
      return None;
    }
    var items := seq(|keys|, j requires 0 <= j < |keys| => Entry(keys[j], scores[keys[j]]));
    assert items == ScoreTable(b, own);
    var p := InterpretScoresLoop(b, SortDesc(items));
    return Some(p);
  }
}
