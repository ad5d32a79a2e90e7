/**
 * Frame-rate ranges of a capture format and the two computations the
 * controller makes over them: the largest supported rate (a `reduce` seeded
 * with 0, used by format selection) and the range whose frame durations are
 * applied to the device (sort ascending by maximum rate, take the last).
 */
module FrameRate {
  import opened Wrappers

  /** A media time as a rational value / timescale, as the platform reports it. */
  datatype Duration = Duration(value: int, timescale: int)

  /** One supported frame-rate range. Rates are compared and maxed only, so `real` is exact. */
  datatype FrameRateRange = FrameRateRange(
    maxFrameRate: real,
    minFrameDuration: Duration,
    maxFrameDuration: Duration)

  /**
   * Left fold of `max` over the ranges' maximum rates, starting from `acc`:
   * the result is `acc` or one of the rates, and bounds both.
   */
  function RateFold(acc: real, ranges: seq<FrameRateRange>): (r: real)
    ensures r >= acc
    ensures forall i :: 0 <= i < |ranges| ==> ranges[i].maxFrameRate <= r
    ensures r == acc || exists i :: 0 <= i < |ranges| && r == ranges[i].maxFrameRate
    decreases |ranges|
  {
    if ranges == [] then acc
    else
      var next := if acc < ranges[0].maxFrameRate then ranges[0].maxFrameRate else acc;
      var r := RateFold(next, ranges[1..]);
      assert forall i :: 1 <= i < |ranges| ==> ranges[i] == ranges[1..][i - 1];
      r
  }

  /** The largest rate a format supports: 0 when it has no ranges, otherwise max(0, rates). */
  function MaxFrameRate(ranges: seq<FrameRateRange>): (r: real)
    ensures r >= 0.0
    ensures forall i :: 0 <= i < |ranges| ==> ranges[i].maxFrameRate <= r
    ensures r == 0.0 || exists i :: 0 <= i < |ranges| && r == ranges[i].maxFrameRate
    ensures ranges == [] ==> r == 0.0
  {
    RateFold(0.0, ranges)
  }

  /** Ascending by maximum frame rate. */
  ghost predicate SortedByRate(s: seq<FrameRateRange>)
  {
    forall i, j :: 0 <= i < j < |s| ==> s[i].maxFrameRate <= s[j].maxFrameRate
  }

  /** Every range in `s` has a maximum rate of at least `v`. */
  ghost predicate AllAtLeast(v: real, s: seq<FrameRateRange>)
  {
    forall k :: 0 <= k < |s| ==> v <= s[k].maxFrameRate
  }

  /** A lower bound on the rates carries over to any rearrangement of the same elements. */
  lemma AllAtLeastMultiset(v: real, s: seq<FrameRateRange>, t: seq<FrameRateRange>)
    requires AllAtLeast(v, s)
    requires multiset(t) <= multiset(s)
    ensures AllAtLeast(v, t)
  {
    forall k | 0 <= k < |t| ensures v <= t[k].maxFrameRate {
      assert t[k] in multiset(s);
      var m :| 0 <= m < |s| && s[m] == t[k];
    }
  }

  /** Putting in front a range no faster than any of an ascending list keeps it ascending. */
  lemma SortedCons(y: FrameRateRange, t: seq<FrameRateRange>)
    requires SortedByRate(t) && AllAtLeast(y.maxFrameRate, t)
    ensures SortedByRate([y] + t)
  {
  }

  /** Inserts `x` into an ascending sequence, after every element with a smaller or equal rate. */
  function InsertByRate(x: FrameRateRange, s: seq<FrameRateRange>): (t: seq<FrameRateRange>)
    requires SortedByRate(s)
    ensures SortedByRate(t)
    ensures multiset(t) == multiset(s) + multiset{x}
  {
    if s == [] || x.maxFrameRate < s[0].maxFrameRate then
      SortedCons(x, s);
      [x] + s
    else
      var rest := InsertByRate(x, s[1..]);
      assert s == [s[0]] + s[1..];
      AllAtLeastMultiset(s[0].maxFrameRate, s[1..] + [x], rest);
      SortedCons(s[0], rest);
      [s[0]] + rest
  }

  /** The ranges sorted ascending by maximum frame rate: a sorted permutation of the input. */
  function SortByRate(s: seq<FrameRateRange>): (t: seq<FrameRateRange>)
    ensures SortedByRate(t)
    ensures multiset(t) == multiset(s)
  {
    if s == [] then []
    else
      assert s == [s[0]] + s[1..];
      InsertByRate(s[0], SortByRate(s[1..]))
  }

  /**
   * The range whose durations `configureFrameRate` applies: the last element
   * of the ascending sort, absent exactly when there are no ranges.
   */
  function SelectFrameRateRange(ranges: seq<FrameRateRange>): (r: Option<FrameRateRange>)
    ensures r.None? <==> ranges == []
    ensures r.Some? ==> r.value in ranges
    ensures r.Some? ==> forall i :: 0 <= i < |ranges| ==> ranges[i].maxFrameRate <= r.value.maxFrameRate
  {
    var sorted := SortByRate(ranges);
    if sorted == [] then
      assert |multiset(ranges)| == 0;
      None
    else
      var last := sorted[|sorted| - 1];
      assert last in multiset(ranges);
      assert forall i :: 0 <= i < |ranges| ==> ranges[i].maxFrameRate <= last.maxFrameRate by {
        forall i | 0 <= i < |ranges| ensures ranges[i].maxFrameRate <= last.maxFrameRate {
          assert ranges[i] in multiset(sorted);
          var m :| 0 <= m < |sorted| && sorted[m] == ranges[i];
        }
      }
      Some(last)
  }

  /**
   * The range applied to the device carries the format's largest rate: the
   * two computations over a format's ranges agree whenever some rate is
   * non-negative.
   */
  lemma SelectedRangeHasMaxFrameRate(ranges: seq<FrameRateRange>)
    requires ranges != []
    ensures SelectFrameRateRange(ranges).Some?
    ensures var r := SelectFrameRateRange(ranges).value.maxFrameRate;
            MaxFrameRate(ranges) == if r < 0.0 then 0.0 else r
  {
  }
}
