/** The list manipulations behind the move choice: the score dictionary
    built with `setdefault`, the stable descending sort by score, the count of
    entries tied with the top score, and the first entry nearest to the centre.
 */
module Ranking {
  import opened BoardView

  /** One `(key, value)` item of the score dictionary: a landing position and
      its total path score. */
  datatype Entry = Entry(pos: Pos, score: int)

  /** Index of the first occurrence of `x` in `xs`. */
  function FirstIndex(xs: seq<Pos>, x: Pos): (k: nat)
    requires x in xs
    ensures k < |xs| && xs[k] == x
    ensures x !in xs[..k]
  {
    if xs[0] == x then 0
    else
      assert xs == [xs[0]] + xs[1..];
      1 + FirstIndex(xs[1..], x)
  }

  /** An element whose first occurrence is no later than that of the element
      at index `j` occurs within the first `j + 1` elements. */
  lemma FirstIndexWithin(xs: seq<Pos>, x: Pos, j: nat)
    requires j < |xs| && x in xs
    requires FirstIndex(xs, x) <= FirstIndex(xs, xs[j])
    ensures x in xs[..j + 1]
  {
    var y := xs[j];
    var fy := FirstIndex(xs, y);
    assert xs[..j + 1][FirstIndex(xs, x)] == x;
  }

  /** `xs` holds no element twice. */
  predicate Distinct(xs: seq<Pos>) {
    forall i, j :: 0 <= i < j < |xs| ==> xs[i] != xs[j]
  }

  /** The keys of a dictionary filled by `setdefault` over `xs`, in insertion
      order: every element once, at the place of its first occurrence. */
  function Dedup(xs: seq<Pos>): (d: seq<Pos>)
    ensures forall x :: x in d <==> x in xs
    ensures Distinct(d)
    ensures forall i, j :: 0 <= i < j < |d| ==> FirstIndex(xs, d[i]) < FirstIndex(xs, d[j])
  {
    if |xs| == 0 then []
    else
      var ys := xs[..|xs| - 1];
      var x := xs[|xs| - 1];
      assert xs == ys + [x];
      var d' := Dedup(ys);
      FirstIndexExtend(ys, x);
      if x in d' then d' else d' + [x]
  }

  /** The first occurrence is the only index holding `x` with no `x` before it. */
  lemma FirstIndexUnique(xs: seq<Pos>, x: Pos, k: nat)
    requires k < |xs| && xs[k] == x && x !in xs[..k]
    ensures FirstIndex(xs, x) == k
  {
  }

  /** Appending an element does not move the first occurrence of an element
      already present, and places a new element's first occurrence at the end. */
  lemma FirstIndexExtend(ys: seq<Pos>, x: Pos)
    ensures forall y :: y in ys ==> FirstIndex(ys + [x], y) == FirstIndex(ys, y)
    ensures x !in ys ==> FirstIndex(ys + [x], x) == |ys|
  {
    forall y | y in ys
      ensures FirstIndex(ys + [x], y) == FirstIndex(ys, y)
    {
      var k := FirstIndex(ys, y);
      assert (ys + [x])[..k] == ys[..k];
      FirstIndexUnique(ys + [x], y, k);
    }
    if x !in ys {
      assert (ys + [x])[..|ys|] == ys;
      FirstIndexUnique(ys + [x], x, |ys|);
    }
  }

  /** Every entry's position is one of `opts`, and the entries follow the
      order in which their positions first occur in `opts`. */
  predicate InFirstOccurrenceOrder(opts: seq<Pos>, es: seq<Entry>) {
    && (forall i :: 0 <= i < |es| ==> es[i].pos in opts)
    && (forall i, j :: 0 <= i < j < |es| ==>
          FirstIndex(opts, es[i].pos) < FirstIndex(opts, es[j].pos))
  }

  /** Keeping only the entries of one score keeps their order. */
  lemma {:induction false} WithScoreKeepsOrder(opts: seq<Pos>, es: seq<Entry>, s: int)
    requires InFirstOccurrenceOrder(opts, es)
    ensures InFirstOccurrenceOrder(opts, WithScore(es, s))
  {
    if |es| > 0 {
      var e, tail := es[0], es[1..];
      assert es == [e] + tail;
      OrderUncons(opts, e, tail);
      WithScoreKeepsOrder(opts, tail, s);
      var rest := WithScore(tail, s);
      WithScoreMembers(tail, s);
      WithScoreCons(e, tail, s);
      if e.score == s {
        OrderCons(opts, e, rest);
      }
    }
  }

  lemma OrderUncons(opts: seq<Pos>, e: Entry, tail: seq<Entry>)
    requires InFirstOccurrenceOrder(opts, [e] + tail)
    ensures InFirstOccurrenceOrder(opts, tail)
    ensures e.pos in opts
    ensures forall x :: x in tail ==> FirstIndex(opts, e.pos) < FirstIndex(opts, x.pos)
  {
    assert ([e] + tail)[0] == e;
    OrderUnconsTail(opts, e, tail);
    OrderUnconsHead(opts, e, tail);
  }

  lemma OrderUnconsTail(opts: seq<Pos>, e: Entry, tail: seq<Entry>)
    requires InFirstOccurrenceOrder(opts, [e] + tail)
    ensures InFirstOccurrenceOrder(opts, tail)
  {
    var es := [e] + tail;
    forall i | 0 <= i < |tail| ensures tail[i].pos in opts {
      assert tail[i] == es[i + 1];
    }
    forall i, j | 0 <= i < j < |tail|
      ensures FirstIndex(opts, tail[i].pos) < FirstIndex(opts, tail[j].pos)
    {
      assert tail[i] == es[i + 1] && tail[j] == es[j + 1];
    }
  }

  lemma OrderUnconsHead(opts: seq<Pos>, e: Entry, tail: seq<Entry>)
    requires InFirstOccurrenceOrder(opts, [e] + tail)
    ensures e.pos in opts
    ensures forall x :: x in tail ==> x.pos in opts && FirstIndex(opts, e.pos) < FirstIndex(opts, x.pos)
  {
    var es := [e] + tail;
    assert es[0] == e;
    forall x | x in tail ensures x.pos in opts && FirstIndex(opts, e.pos) < FirstIndex(opts, x.pos) {
      var j :| 0 <= j < |tail| && tail[j] == x;
      assert es[j + 1] == x;
    }
  }

  lemma OrderCons(opts: seq<Pos>, e: Entry, rest: seq<Entry>)
    requires InFirstOccurrenceOrder(opts, rest)
    requires e.pos in opts
    requires forall x :: x in rest ==> FirstIndex(opts, e.pos) < FirstIndex(opts, x.pos)
    ensures InFirstOccurrenceOrder(opts, [e] + rest)
  {
    var r := [e] + rest;
    forall i | 0 <= i < |r| ensures r[i].pos in opts {
      if i > 0 {
        assert r[i] == rest[i - 1];
      }
    }
    forall i, j | 0 <= i < j < |r|
      ensures FirstIndex(opts, r[i].pos) < FirstIndex(opts, r[j].pos)
    {
      assert r[j] == rest[j - 1];
      if i > 0 {
        assert r[i] == rest[i - 1];
      } else {
        assert r[j] in rest;
      }
    }
  }

  /** The entries whose score is `s`, in their original order. */
  function WithScore(es: seq<Entry>, s: int): (r: seq<Entry>)
    ensures |r| <= |es|
  {
    if |es| == 0 then []
    else (if es[0].score == s then [es[0]] else []) + WithScore(es[1..], s)
  }

  lemma {:induction false} WithScoreMembers(es: seq<Entry>, s: int)
    ensures forall e :: e in WithScore(es, s) <==> e in es && e.score == s
  {
    if |es| > 0 {
      WithScoreMembers(es[1..], s);
      assert es == [es[0]] + es[1..];
    }
  }

  lemma {:induction false} WithScoreAppend(a: seq<Entry>, b: seq<Entry>, s: int)
    ensures WithScore(a + b, s) == WithScore(a, s) + WithScore(b, s)
  {
    if |a| == 0 {
      assert a + b == b;
    } else {
      var e, tail := a[0], a[1..];
      var head := if e.score == s then [e] else [];
      assert a == [e] + tail;
      assert a + b == [e] + (tail + b);
      WithScoreCons(e, tail + b, s);
      WithScoreCons(e, tail, s);
      WithScoreAppend(tail, b, s);
      assert head + (WithScore(tail, s) + WithScore(b, s))
          == (head + WithScore(tail, s)) + WithScore(b, s);
    }
  }

  /** Scores never increase along `es`. */
  predicate SortedDesc(es: seq<Entry>) {
    forall i, j :: 0 <= i < j < |es| ==> es[i].score >= es[j].score
  }

  /** Inserts `x` before the first entry whose score is not larger, so `x`
      stays ahead of the entries it tied with. */
  function Insert(x: Entry, ys: seq<Entry>): (r: seq<Entry>)
    requires SortedDesc(ys)
    ensures SortedDesc(r)
    ensures multiset(r) == multiset([x] + ys)
  {
    if |ys| == 0 || ys[0].score <= x.score then
      BoundedByHead(ys, x.score);
      SortedCons(x, ys);
      [x] + ys
    else
      var y, tail := ys[0], ys[1..];
      var rest := Insert(x, tail);
      assert ys == [y] + tail;
      BoundedByHead(tail, y.score);
      BoundedAfterInsert(x, tail, rest, y.score);
      SortedCons(y, rest);
      [y] + rest
  }

  /** In a descending list no entry exceeds a bound on the first one. */
  lemma BoundedByHead(ys: seq<Entry>, v: int)
    requires SortedDesc(ys)
    requires |ys| > 0 ==> ys[0].score <= v
    ensures forall e :: e in ys ==> e.score <= v
  {
    forall e | e in ys ensures e.score <= v {
      var j :| 0 <= j < |ys| && ys[j] == e;
      assert ys[0].score >= ys[j].score;
    }
  }

  /** A bound on `x` and on every entry of `tail` bounds every entry of a
      permutation of `[x] + tail`. */
  lemma BoundedAfterInsert(x: Entry, tail: seq<Entry>, rest: seq<Entry>, v: int)
    requires multiset(rest) == multiset([x] + tail)
    requires x.score <= v
    requires forall e :: e in tail ==> e.score <= v
    ensures forall e :: e in rest ==> e.score <= v
  {
    forall e | e in rest ensures e.score <= v {
      assert e in multiset(rest);
      assert e in multiset([x] + tail);
      if e != x {
        assert e in tail;
      }
    }
  }

  lemma SortedCons(y: Entry, rest: seq<Entry>)
    requires SortedDesc(rest)
    requires forall e :: e in rest ==> e.score <= y.score
    ensures SortedDesc([y] + rest)
  {
    var r := [y] + rest;
    forall i, j | 0 <= i < j < |r| ensures r[i].score >= r[j].score {
      assert r[j] == rest[j - 1];
      if i > 0 {
        assert r[i] == rest[i - 1];
      }
    }
  }

  /** Insertion passes `x` only over entries with a strictly larger score, so
      for every score the order of its entries is that of `[x] + ys`. */
  lemma {:induction false} InsertKeepsScoreOrder(x: Entry, ys: seq<Entry>, s: int)
    requires SortedDesc(ys)
    ensures WithScore(Insert(x, ys), s) == WithScore([x] + ys, s)
  {
    if |ys| > 0 && ys[0].score > x.score {
      var y, tail := ys[0], ys[1..];
      assert ys == [y] + tail;
      var rest := Insert(x, tail);
      assert Insert(x, ys) == [y] + rest;
      InsertKeepsScoreOrder(x, tail, s);
      WithScoreSwap(x, y, tail, rest, s);
    }
  }

  /** Passing `x` over an entry of another score does not change the order of
      the entries of any one score. */
  lemma WithScoreSwap(x: Entry, y: Entry, tail: seq<Entry>, rest: seq<Entry>, s: int)
    requires x.score != y.score
    requires WithScore(rest, s) == WithScore([x] + tail, s)
    ensures WithScore([y] + rest, s) == WithScore([x] + ([y] + tail), s)
  {
    var w := WithScore(tail, s);
    WithScoreCons(y, rest, s);
    WithScoreCons(x, [y] + tail, s);
    WithScoreCons(y, tail, s);
    WithScoreCons(x, tail, s);
    if s == x.score {
      calc {
        WithScore([y] + rest, s);
        WithScore(rest, s);
        [x] + w;
        [x] + WithScore([y] + tail, s);
      }
    } else if s == y.score {
      calc {
        WithScore([y] + rest, s);
        [y] + WithScore(rest, s);
        [y] + w;
        WithScore([y] + tail, s);
      }
    } else {
      calc {
        WithScore([y] + rest, s);
        WithScore(rest, s);
        w;
        WithScore([y] + tail, s);
      }
    }
  }

  lemma WithScoreCons(e: Entry, es: seq<Entry>, s: int)
    ensures WithScore([e] + es, s) == (if e.score == s then [e] else []) + WithScore(es, s)
  {
    assert ([e] + es)[1..] == es;
  }

  /** `sorted(items, key=score, reverse=True)`: a stable sort, descending by
      score.  Stability is stated per score: the entries of each score appear
      in the result in exactly the order they had in the input. */
  function SortDesc(es: seq<Entry>): (r: seq<Entry>)
    ensures SortedDesc(r)
    ensures multiset(r) == multiset(es)
    ensures forall s :: WithScore(r, s) == WithScore(es, s)
  {
    if |es| == 0 then []
    else
      var rest := SortDesc(es[1..]);
      assert es == [es[0]] + es[1..];
      forall s ensures WithScore(Insert(es[0], rest), s) == WithScore(es, s) {
        InsertKeepsScoreOrder(es[0], rest, s);
        WithScoreCons(es[0], rest, s);
        WithScoreCons(es[0], es[1..], s);
      }
      Insert(es[0], rest)
  }

  /** How many leading entries share the first entry's score; the source's
      `tied` is one less. */
  function TopRun(ss: seq<Entry>): (k: nat)
    requires |ss| >= 1
    ensures 1 <= k <= |ss|
    ensures forall i :: 0 <= i < k ==> ss[i].score == ss[0].score
    ensures k < |ss| ==> ss[k].score != ss[0].score
  {
    TopRunFrom(ss, 1)
  }

  function TopRunFrom(ss: seq<Entry>, i: nat): (k: nat)
    requires 1 <= i <= |ss|
    requires forall j :: 0 <= j < i ==> ss[j].score == ss[0].score
    ensures i <= k <= |ss|
    ensures forall j :: 0 <= j < k ==> ss[j].score == ss[0].score
    ensures k < |ss| ==> ss[k].score != ss[0].score
    decreases |ss| - i
  {
    if i == |ss| || ss[i].score != ss[0].score then i
    else TopRunFrom(ss, i + 1)
  }

  /** In a descending list the entries tied with the first are exactly the
      entries of the top score. */
  lemma TopRunIsTopScore(ss: seq<Entry>)
    requires |ss| >= 1
    requires SortedDesc(ss)
    ensures ss[..TopRun(ss)] == WithScore(ss, ss[0].score)
  {
    var k := TopRun(ss);
    var top := ss[0].score;
    forall i | k <= i < |ss|
      ensures ss[i].score != top
    {
      assert ss[k].score < top;
    }
    SplitAtScore(ss, k, top);
  }

  /** A list whose first `k` entries have score `s` and whose other entries
      do not: its entries of score `s` are the first `k`. */
  lemma SplitAtScore(ss: seq<Entry>, k: nat, s: int)
    requires k <= |ss|
    requires forall i :: 0 <= i < k ==> ss[i].score == s
    requires forall i :: k <= i < |ss| ==> ss[i].score != s
    ensures ss[..k] == WithScore(ss, s)
  {
    var run, rest := ss[..k], ss[k..];
    assert ss == run + rest;
    assert forall i :: 0 <= i < |rest| ==> rest[i].score != s by {
      forall i | 0 <= i < |rest|
        ensures rest[i].score != s
      {
        assert rest[i] == ss[k + i];
      }
    }
    WithScoreAppend(run, rest, s);
    AllWithScore(run, s);
    NoneWithScore(rest, s);
  }

  lemma AllWithScore(es: seq<Entry>, s: int)
    requires forall i :: 0 <= i < |es| ==> es[i].score == s
    ensures WithScore(es, s) == es
  {
    if |es| > 0 {
      AllWithScore(es[1..], s);
    }
  }

  lemma NoneWithScore(es: seq<Entry>, s: int)
    requires forall i :: 0 <= i < |es| ==> es[i].score != s
    ensures WithScore(es, s) == []
  {
    if |es| > 0 {
      NoneWithScore(es[1..], s);
    }
  }

  /** Index of the entry nearest to the centre, the earliest one among equally
      near entries (the scan replaces its choice only on a strictly smaller
      distance). */
  function Nearest(b: Board, es: seq<Entry>): (k: nat)
    requires |es| >= 1
    ensures k < |es|
    ensures forall i :: 0 <= i < |es| ==> Dist2(b, es[k].pos) <= Dist2(b, es[i].pos)
    ensures forall i :: 0 <= i < k ==> Dist2(b, es[i].pos) > Dist2(b, es[k].pos)
  {
    if |es| == 1 then 0
    else
      var j := Nearest(b, es[..|es| - 1]);
      if Dist2(b, es[|es| - 1].pos) < Dist2(b, es[j].pos) then |es| - 1 else j
  }

  /** Extending the scanned prefix by one entry: the scan moves to it exactly
      when it is strictly nearer than the entry kept so far. */
  lemma NearestStep(b: Board, es: seq<Entry>, j: nat)
    requires 0 < j < |es|
    ensures var k := Nearest(b, es[..j]);
      Nearest(b, es[..j + 1]) == if Dist2(b, es[j].pos) < Dist2(b, es[k].pos) then j else k
  {
    assert es[..j + 1][..j] == es[..j];
  }
}
