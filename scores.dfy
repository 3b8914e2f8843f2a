/** Aggregates of similarity scores: Python's `max`, numpy's `argmax` and
    `mean`. Scores are reals; NaN is represented only where numpy produces it
    (the mean of an empty list). */
module Scores {
  import opened Results

  /** `max(s)`; Python raises on an empty list, hence the precondition. */
  function Max(s: seq<real>): (m: real)
    requires |s| > 0
    ensures m in s
    ensures forall i :: 0 <= i < |s| ==> s[i] <= m
  {
    if |s| == 1 then s[0]
    else
      var rest := Max(s[1..]);
      if s[0] >= rest then s[0] else rest
  }

  /** `min(s)`. */
  function Min(s: seq<real>): (m: real)
    requires |s| > 0
    ensures m in s
    ensures forall i :: 0 <= i < |s| ==> m <= s[i]
  {
    if |s| == 1 then s[0]
    else
      var rest := Min(s[1..]);
      if s[0] <= rest then s[0] else rest
  }

  /** `np.argmax(s)`: the first index holding the maximum. */
  function ArgMax(s: seq<real>): (k: nat)
    requires |s| > 0
    ensures k < |s|
    ensures forall i :: 0 <= i < |s| ==> s[i] <= s[k]
    ensures forall i :: 0 <= i < k ==> s[i] < s[k]
  {
    if |s| == 1 then 0
    else
      var k := ArgMax(s[..|s| - 1]);
      if s[|s| - 1] > s[k] then |s| - 1 else k
  }

  function Sum(s: seq<real>): real
  {
    if s == [] then 0.0 else s[0] + Sum(s[1..])
  }

  /** `np.mean(s)`; `None` stands for the NaN numpy returns for an empty list. */
  function Mean(s: seq<real>): (m: Option<real>)
    ensures m.None? <==> s == []
  {
    if s == [] then None else Some(Sum(s) / (|s| as real))
  }

  lemma {:induction false} SumBounds(s: seq<real>, lo: real, hi: real)
    requires forall i :: 0 <= i < |s| ==> lo <= s[i] <= hi
    ensures (|s| as real) * lo <= Sum(s) <= (|s| as real) * hi
  {
    if s != [] {
      SumBounds(s[1..], lo, hi);
    }
  }

  /** The mean of a non-empty list lies between its smallest and its largest
      element. */
  lemma MeanWithinRange(s: seq<real>)
    requires s != []
    ensures Min(s) <= Mean(s).value <= Max(s)
  {
    MeanBounds(s, Min(s), Max(s));
  }

  lemma MeanBounds(s: seq<real>, lo: real, hi: real)
    requires s != []
    requires forall i :: 0 <= i < |s| ==> lo <= s[i] <= hi
    ensures lo <= Mean(s).value <= hi
  {
    SumBounds(s, lo, hi);
    QuotientBounds(Sum(s), |s| as real, lo, hi);
  }

  lemma QuotientBounds(sum: real, n: real, lo: real, hi: real)
    requires n > 0.0 && n * lo <= sum <= n * hi
    ensures lo <= sum / n <= hi
  {
    var q := sum / n;
    assert sum == q * n;
    assert n * (q - lo) == sum - n * lo;
    assert n * (hi - q) == n * hi - sum;
  }

  /** The maximum depends only on which values occur, not on their order or
      multiplicity. */
  lemma MaxSameElements(s: seq<real>, t: seq<real>)
    requires |s| > 0 && |t| > 0
    requires forall x :: x in s <==> x in t
    ensures Max(s) == Max(t)
  {
    var ms, mt := Max(s), Max(t);
    assert ms in t;
    var j :| 0 <= j < |t| && t[j] == ms;
    assert mt in s;
    var i :| 0 <= i < |s| && s[i] == mt;
  }
}
