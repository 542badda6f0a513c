/** The robust amount baseline: median, median absolute deviation, and the upward deviation z. */
module Baseline {
  import opened Basics
  import opened Sequences

  predicate AtMost(a: real, b: real) {
    a <= b
  }

  function Median(s: seq<real>): real
    requires s != []
  {
    var d := Sort(s, AtMost);
    var half := |d| / 2;
    if |d| % 2 == 1 then d[half] else (d[half - 1] + d[half]) / 2.0
  }

  function DeviationFrom(center: real): real -> real {
    a => Abs(a - center)
  }

  function Center(logs: seq<real>): real {
    if logs == [] then 0.0 else Median(logs)
  }

  function Mad(logs: seq<real>): real {
    if logs == [] then 0.0
    else
      MapIndex(logs, DeviationFrom(Center(logs)));
      Median(Map(logs, DeviationFrom(Center(logs))))
  }

  const SCALE_FLOOR := 0.1
  const MAD_FACTOR := 1.4826

  function Scale(mad: real): real {
    MaxReal(MAD_FACTOR * mad, SCALE_FLOOR)
  }

  function UpwardZ(x: real, logs: seq<real>): real {
    MaxReal(0.0, (x - Center(logs)) / Scale(Mad(logs)))
  }

  // ---- Order does not matter --------------------------------------------------------------

  lemma AtMostOrders()
    ensures Ordering(AtMost)
  {
  }

  lemma MedianPerm(a: seq<real>, b: seq<real>)
    requires a != [] && b != [] && multiset(a) == multiset(b)
    ensures Median(a) == Median(b)
  {
    AtMostOrders();
    SortPerm(a, b, AtMost);
  }

  lemma CenterPerm(a: seq<real>, b: seq<real>)
    requires multiset(a) == multiset(b)
    ensures Center(a) == Center(b)
  {
    SizePerm(a, b);
    if a != [] {
      hide Median;
      MedianPerm(a, b);
    }
  }

  lemma MadPerm(a: seq<real>, b: seq<real>)
    requires multiset(a) == multiset(b)
    ensures Mad(a) == Mad(b)
  {
    hide Median, Center, Map;
    SizePerm(a, b);
    CenterPerm(a, b);
    if a != [] {
      var f := DeviationFrom(Center(a));
      MapIndex(a, f);
      MapIndex(b, f);
      MapPerm(a, b, f);
      MedianPerm(Map(a, f), Map(b, f));
    }
  }

  lemma UpwardZPerm(x: real, a: seq<real>, b: seq<real>)
    requires multiset(a) == multiset(b)
    ensures UpwardZ(x, a) == UpwardZ(x, b)
  {
    hide Center, Mad, Scale;
    CenterPerm(a, b);
    MadPerm(a, b);
  }

  // ---- Robustness -------------------------------------------------------------------------

  function Within(lo: real, hi: real): real -> bool {
    a => lo <= a <= hi
  }

  /** More than half of the sample lies in `[lo, hi]`. */
  predicate MostWithin(s: seq<real>, lo: real, hi: real) {
    2 * |Filter(s, Within(lo, hi))| > |s|
  }

  lemma FilterSkipsPrefix<T>(s: seq<T>, p: T -> bool, k: nat)
    requires k <= |s| && forall x :: x in s[..k] ==> !p(x)
    ensures |Filter(s, p)| <= |s| - k
  {
    assert s == s[..k] + s[k..];
    FilterConcat(s[..k], s[k..], p);
    FilterNone(s[..k], p);
    FilterLength(s[k..], p);
  }

  lemma FilterSkipsSuffix<T>(s: seq<T>, p: T -> bool, k: nat)
    requires k <= |s| && forall x :: x in s[k..] ==> !p(x)
    ensures |Filter(s, p)| <= k
  {
    assert s == s[..k] + s[k..];
    FilterConcat(s[..k], s[k..], p);
    FilterNone(s[k..], p);
    FilterLength(s[..k], p);
  }

  /** In a sorted sample with a majority in the range, at most half can precede or follow it. */
  lemma MajorityPins(d: seq<real>, lo: real, hi: real, k: nat)
    requires SortedBy(d, AtMost) && MostWithin(d, lo, hi) && k < |d|
    ensures 2 * (k + 1) >= |d| ==> d[k] >= lo
    ensures 2 * (|d| - k) >= |d| ==> d[k] <= hi
  {
    var p := Within(lo, hi);
    if d[k] < lo {
      forall x | x in d[..k + 1]
        ensures !p(x)
      {
        var i :| 0 <= i < k + 1 && d[i] == x;
        assert i < k ==> AtMost(d[i], d[k]);
      }
      FilterSkipsPrefix(d, p, k + 1);
    }
    if d[k] > hi {
      forall x | x in d[k..]
        ensures !p(x)
      {
        var i :| 0 <= i < |d[k..]| && d[k..][i] == x;
        assert i > 0 ==> AtMost(d[k], d[k + i]);
      }
      FilterSkipsSuffix(d, p, k);
    }
  }

  lemma MedianWithin(s: seq<real>, lo: real, hi: real)
    requires s != [] && MostWithin(s, lo, hi)
    ensures lo <= Median(s) <= hi
  {
    var d := Sort(s, AtMost);
    AtMostOrders();
    SortSorts(s, AtMost);
    FilterPerm(s, d, Within(lo, hi));
    SizePerm(Filter(s, Within(lo, hi)), Filter(d, Within(lo, hi)));
    var half := |d| / 2;
    MajorityPins(d, lo, hi, half);
    if |d| % 2 == 0 {
      MajorityPins(d, lo, hi, half - 1);
      assert AtMost(d[half - 1], d[half]);
    }
  }

  /** Where most of the sample is in the range, so is the center, and most deviations fit its width. */
  lemma {:induction false} DeviationsWithin(s: seq<real>, lo: real, hi: real, center: real)
    requires lo <= center <= hi
    ensures |Filter(Map(s, DeviationFrom(center)), Within(0.0, hi - lo))| >= |Filter(s, Within(lo, hi))|
  {
    if s != [] {
      DeviationsWithin(s[1..], lo, hi, center);
      var m := Map(s, DeviationFrom(center));
      assert m[0] == Abs(s[0] - center) && m[1..] == Map(s[1..], DeviationFrom(center));
    }
  }

  /** Main result: once more than half of the compatible log amounts lie in `[lo, hi]`, no choice of
      the others moves the median out of it, the deviation beyond its width, or z outside the stated
      bounds, however extreme they are. */
  lemma RobustBaseline(logs: seq<real>, lo: real, hi: real, x: real)
    requires lo <= hi && MostWithin(logs, lo, hi)
    ensures lo <= Center(logs) <= hi
    ensures 0.0 <= Mad(logs) <= hi - lo
    ensures MaxReal(0.0, (x - hi) / MaxReal(MAD_FACTOR * (hi - lo), SCALE_FLOOR))
            <= UpwardZ(x, logs)
            <= MaxReal(0.0, (x - lo) / SCALE_FLOOR)
  {
    FilterLength(logs, Within(lo, hi));
    MedianWithin(logs, lo, hi);
    var center := Center(logs);
    var deviations := Map(logs, DeviationFrom(center));
    MapIndex(logs, DeviationFrom(center));
    DeviationsWithin(logs, lo, hi, center);
    MedianWithin(deviations, 0.0, hi - lo);
    ZBetween(x, center, lo, hi, Mad(logs));
  }

  lemma ZBetween(x: real, center: real, lo: real, hi: real, mad: real)
    requires lo <= center <= hi && 0.0 <= mad <= hi - lo
    ensures var z := MaxReal(0.0, (x - center) / Scale(mad));
            && MaxReal(0.0, (x - hi) / MaxReal(MAD_FACTOR * (hi - lo), SCALE_FLOOR)) <= z
            && z <= MaxReal(0.0, (x - lo) / SCALE_FLOOR)
  {
    QuotientBounds(x - hi, x - center, Scale(mad), Scale(hi - lo));
    QuotientBounds(x - center, x - lo, SCALE_FLOOR, Scale(mad));
  }

  /** A larger numerator over a smaller positive denominator is at least as large, above zero. */
  lemma QuotientBounds(a: real, b: real, small: real, large: real)
    requires a <= b && 0.0 < small <= large
    ensures MaxReal(0.0, a / large) <= MaxReal(0.0, b / small)
  {
    Quotient(a, large);
    Quotient(b, small);
    if a > 0.0 {
      QuotientOrder(a, b, large);
      Quotient(b, large);
      SmallerDivisor(b / large, b / small, small, large);
    }
  }

  lemma SmallerDivisor(q: real, r: real, small: real, large: real)
    requires q > 0.0 && 0.0 < small <= large && q * large == r * small
    ensures q <= r
  {
    ProductOrder(small, large, q);
    assert q * small <= r * small;
    ProductOrder(q, r, small);
  }
}
