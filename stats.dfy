/** pandas' `mean()` with its default `skipna=True`: missing values are left
    out of both the sum and the count, and a mean over no present value is
    itself missing. Values are exact reals, so no rounding is modelled. */
module Stats {
  import opened Common

  /** A score, or `None` for NaN. */
  type Score = Option<real>

  function Count(xs: seq<Score>): (n: nat)
    ensures n <= |xs|
  {
    if xs == [] then 0 else (if xs[0].Some? then 1 else 0) + Count(xs[1..])
  }

  lemma {:induction false} CountZero(xs: seq<Score>)
    ensures Count(xs) == 0 <==> forall i :: 0 <= i < |xs| ==> xs[i].None?
  {
    if xs != [] {
      CountZero(xs[1..]);
      assert forall i :: 1 <= i < |xs| ==> xs[i] == xs[1..][i - 1];
    }
  }

  function Sum(xs: seq<Score>): real
  {
    if xs == [] then 0.0 else (if xs[0].Some? then xs[0].value else 0.0) + Sum(xs[1..])
  }

  /** The mean of the present values of `xs`; missing when none is present. */
  function Mean(xs: seq<Score>): (r: Score)
    ensures r.None? <==> forall i :: 0 <= i < |xs| ==> xs[i].None?
  {
    CountZero(xs);
    var n := Count(xs);
    if n == 0 then None else Some(Sum(xs) / n as real)
  }

  /** The present values of `xs`, in order. */
  function Present(xs: seq<Score>): (r: seq<Score>)
    ensures forall i :: 0 <= i < |r| ==> r[i].Some?
  {
    if xs == [] then []
    else if xs[0].Some? then [xs[0]] + Present(xs[1..])
    else Present(xs[1..])
  }

  /** Missing values do not take part in a mean: dropping them first gives the same mean. */
  lemma {:induction false} MeanSkipsMissing(xs: seq<Score>)
    ensures Mean(Present(xs)) == Mean(xs)
  {
    SumCountOfPresent(xs);
  }

  lemma {:induction false} SumCountOfPresent(xs: seq<Score>)
    ensures Count(Present(xs)) == Count(xs) && Sum(Present(xs)) == Sum(xs)
  {
    if xs != [] {
      SumCountOfPresent(xs[1..]);
      if xs[0].Some? {
        assert ([xs[0]] + Present(xs[1..]))[1..] == Present(xs[1..]);
      }
    }
  }

  /** Each present value lies in `[lo, hi]`. */
  ghost predicate Within(xs: seq<Score>, lo: real, hi: real)
  {
    forall i :: 0 <= i < |xs| && xs[i].Some? ==> lo <= xs[i].value <= hi
  }

  /** A mean of values in `[lo, hi]` lies in `[lo, hi]`. */
  lemma {:induction false} MeanWithin(xs: seq<Score>, lo: real, hi: real)
    requires Within(xs, lo, hi)
    ensures Mean(xs).Some? ==> lo <= Mean(xs).value <= hi
  {
    SumWithin(xs, lo, hi);
    if Count(xs) > 0 {
      QuotientWithin(Sum(xs), Count(xs) as real, lo, hi);
    }
  }

  lemma QuotientWithin(s: real, n: real, lo: real, hi: real)
    requires n > 0.0 && lo * n <= s <= hi * n
    ensures lo <= s / n <= hi
  {
    var m := s / n;
    assert s == m * n;
    if m < lo {
      ProductMonotone(m, lo, n);
    }
    if m > hi {
      ProductMonotone(hi, m, n);
    }
  }

  lemma ProductMonotone(a: real, b: real, n: real)
    requires a < b && n > 0.0
    ensures a * n < b * n
  {
    assert b * n - a * n == (b - a) * n;
  }

  lemma {:induction false} SumWithin(xs: seq<Score>, lo: real, hi: real)
    requires Within(xs, lo, hi)
    ensures lo * (Count(xs) as real) <= Sum(xs) <= hi * (Count(xs) as real)
  {
    SumBetweenRepeats(xs, lo, hi);
    RepeatIsProduct(xs, lo);
    RepeatIsProduct(xs, hi);
  }

  /** `c` added once for every present value of `xs`. */
  function Repeat(xs: seq<Score>, c: real): real
  {
    if xs == [] then 0.0 else (if xs[0].Some? then c else 0.0) + Repeat(xs[1..], c)
  }

  lemma {:induction false} SumBetweenRepeats(xs: seq<Score>, lo: real, hi: real)
    requires Within(xs, lo, hi)
    ensures Repeat(xs, lo) <= Sum(xs) <= Repeat(xs, hi)
  {
    if xs != [] {
      assert Within(xs[1..], lo, hi);
      SumBetweenRepeats(xs[1..], lo, hi);
    }
  }

  lemma {:induction false} RepeatIsProduct(xs: seq<Score>, c: real)
    ensures Repeat(xs, c) == c * (Count(xs) as real)
  {
    if xs != [] {
      RepeatIsProduct(xs[1..], c);
      var n := Count(xs[1..]) as real;
      assert c * (n + 1.0) == c * n + c;
    }
  }

  /** The mean of a single present value is that value. */
  lemma MeanOfOne(x: real)
    ensures Mean([Some(x)]) == Some(x)
  {
    assert [Some(x)][1..] == [];
    assert Count([Some(x)]) == 1;
    assert Sum([Some(x)]) == x;
  }

  /** Leaving out one missing value keeps the mean: such a value takes no part in it. */
  lemma MeanDropMissing(xs: seq<Score>, i: nat)
    requires i < |xs| && xs[i].None?
    ensures Mean(xs[..i] + xs[i + 1..]) == Mean(xs)
  {
    CountSumSplit(xs[..i], xs[i..]);
    CountSumSplit(xs[..i], xs[i + 1..]);
    assert xs[..i] + xs[i..] == xs;
    assert xs[i..][1..] == xs[i + 1..];
  }

  lemma {:induction false} CountSumSplit(xs: seq<Score>, ys: seq<Score>)
    ensures Count(xs + ys) == Count(xs) + Count(ys) && Sum(xs + ys) == Sum(xs) + Sum(ys)
  {
    if xs != [] {
      assert (xs + ys)[1..] == xs[1..] + ys;
      CountSumSplit(xs[1..], ys);
    } else {
      assert xs + ys == ys;
    }
  }
}
