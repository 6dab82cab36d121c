/** The list shaping done before the maturity charts are drawn: the radar
    chart's closed outline and the bar chart's ascending order. Drawing itself
    is not part of this model. */
module Charts {
  import opened Common

  /** `stats + [stats[0]]`: the series with its first point repeated at the end,
      so the outline closes. An empty series has no outline: `display_radar_chart`
      reports "No valid scores to display." instead. */
  function CloseOutline<T>(xs: seq<T>): (r: Option<seq<T>>)
    ensures r.None? <==> xs == []
    ensures r.Some? ==> |r.value| == |xs| + 1 && r.value[..|xs|] == xs && r.value[|xs|] == r.value[0] == xs[0]
  {
    if xs == [] then None else Some(xs + [xs[0]])
  }

  /** An (aspect, score) pair of the bar chart, its score present. */
  type Bar = (string, real)

  ghost predicate SortedByScore(s: seq<Bar>)
  {
    forall i, j :: 0 <= i < j < |s| ==> s[i].1 <= s[j].1
  }

  /** Puts `x` before the first bar whose score is not below its own. */
  function Insert(x: Bar, s: seq<Bar>): (r: seq<Bar>)
    ensures |r| == |s| + 1
    ensures multiset(r) == multiset(s) + multiset{x}
  {
    if s == [] || x.1 <= s[0].1 then [x] + s
    else
      assert s == [s[0]] + s[1..];
      [s[0]] + Insert(x, s[1..])
  }

  /** `sorted(scores.items(), key=lambda item: item[1])`. */
  function SortByScore(s: seq<Bar>): (r: seq<Bar>)
    ensures |r| == |s|
  {
    if s == [] then [] else Insert(s[0], SortByScore(s[1..]))
  }

  /** A bound below `x` and every bar of `s` is below every bar of `Insert(x, s)`. */
  lemma {:induction false} InsertLowerBound(x: Bar, s: seq<Bar>, b: real)
    requires b <= x.1 && forall k :: 0 <= k < |s| ==> b <= s[k].1
    ensures forall k :: 0 <= k < |Insert(x, s)| ==> b <= Insert(x, s)[k].1
  {
    if s != [] && x.1 > s[0].1 {
      InsertLowerBound(x, s[1..], b);
      var rest := Insert(x, s[1..]);
      assert Insert(x, s) == [s[0]] + rest;
    }
  }

  lemma {:induction false} InsertSorted(x: Bar, s: seq<Bar>)
    requires SortedByScore(s)
    ensures SortedByScore(Insert(x, s))
  {
    if s != [] && x.1 > s[0].1 {
      InsertSorted(x, s[1..]);
      InsertLowerBound(x, s[1..], s[0].1);
      var rest := Insert(x, s[1..]);
      var r := [s[0]] + rest;
      assert Insert(x, s) == r;
      forall i, j | 0 <= i < j < |r| ensures r[i].1 <= r[j].1 {
        assert r[j] == rest[j - 1];
        if i > 0 {
          assert r[i] == rest[i - 1];
        }
      }
    }
  }

  /** The bars come out in ascending order of score. */
  lemma {:induction false} SortByScoreSorted(s: seq<Bar>)
    ensures SortedByScore(SortByScore(s))
  {
    if s != [] {
      SortByScoreSorted(s[1..]);
      InsertSorted(s[0], SortByScore(s[1..]));
    }
  }

  /** No bar is added or lost. */
  lemma {:induction false} SortByScorePermutes(s: seq<Bar>)
    ensures multiset(SortByScore(s)) == multiset(s)
  {
    if s != [] {
      SortByScorePermutes(s[1..]);
      assert s == [s[0]] + s[1..];
    }
  }

  /** The bars with score `v`, in order. */
  function WithScore(s: seq<Bar>, v: real): seq<Bar>
  {
    if s == [] then []
    else (if s[0].1 == v then [s[0]] else []) + WithScore(s[1..], v)
  }

  lemma WithScoreCons(y: Bar, s: seq<Bar>, v: real)
    ensures WithScore([y] + s, v) == (if y.1 == v then [y] else []) + WithScore(s, v)
  {
    assert ([y] + s)[0] == y && ([y] + s)[1..] == s;
  }

  lemma {:induction false} WithScoreInsert(x: Bar, s: seq<Bar>, v: real)
    ensures WithScore(Insert(x, s), v) == (if x.1 == v then [x] else []) + WithScore(s, v)
  {
    if s == [] || x.1 <= s[0].1 {
      WithScoreCons(x, s, v);
    } else {
      var own := if x.1 == v then [x] else [];
      var head := if s[0].1 == v then [s[0]] else [];
      WithScoreInsert(x, s[1..], v);
      assert Insert(x, s) == [s[0]] + Insert(x, s[1..]);
      WithScoreCons(s[0], Insert(x, s[1..]), v);
      WithScoreCons(s[0], s[1..], v);
      assert s == [s[0]] + s[1..];
      assert head + (own + WithScore(s[1..], v)) == own + (head + WithScore(s[1..], v));
    }
  }

  /** Bars of equal score keep their order (the sort is stable). */
  lemma {:induction false} SortByScoreStable(s: seq<Bar>, v: real)
    ensures WithScore(SortByScore(s), v) == WithScore(s, v)
  {
    if s != [] {
      SortByScoreStable(s[1..], v);
      WithScoreInsert(s[0], SortByScore(s[1..]), v);
    }
  }
}
