/**
 * The statistics `FrequencySpectrum::calc_statistics` derives from the bins:
 * a copy is sorted by value (`sort_by`, a stable sort), `min` and `max` are
 * its first and last bin, `average` is the folded sum over the length and
 * `median` is taken from the middle of the sorted copy.
 */
module SpectrumStatistics {
  import opened SpectrumData

  datatype Statistics = Statistics(min: Bin, max: Bin, average: real, median: real)

  ghost predicate SortedByValue(s: seq<Bin>)
  {
    forall i, j :: 0 <= i < j < |s| ==> s[i].value <= s[j].value
  }

  /** Puts `b` before the first bin of `s` whose value is not smaller. */
  function Insert(b: Bin, s: seq<Bin>): (r: seq<Bin>)
    ensures |r| == |s| + 1
  {
    if s == [] then [b]
    else if b.value <= s[0].value then [b] + s
    else [s[0]] + Insert(b, s[1..])
  }

  /** The stable sort of the bins by value that `calc_statistics` works on. */
  function SortByValue(s: seq<Bin>): (r: seq<Bin>)
    ensures |r| == |s|
  {
    if s == [] then [] else Insert(s[0], SortByValue(s[1..]))
  }

  lemma {:induction false} InsertMultiset(b: Bin, s: seq<Bin>)
    ensures multiset(Insert(b, s)) == multiset(s) + multiset{b}
  {
    if s != [] && b.value > s[0].value {
      InsertMultiset(b, s[1..]);
      assert s == [s[0]] + s[1..];
    }
  }

  /** Every bin of `Insert(b, s)` is `b` or a bin of `s`. */
  lemma InsertElements(b: Bin, s: seq<Bin>, k: nat)
    requires k < |Insert(b, s)|
    ensures Insert(b, s)[k] == b || Insert(b, s)[k] in s
  {
    InsertMultiset(b, s);
    assert Insert(b, s)[k] in multiset(Insert(b, s));
  }

  lemma {:induction false} InsertSorted(b: Bin, s: seq<Bin>)
    requires SortedByValue(s)
    ensures SortedByValue(Insert(b, s))
  {
    if s == [] {
    } else if b.value <= s[0].value {
      var r := [b] + s;
      forall i, j | 0 <= i < j < |r| ensures r[i].value <= r[j].value {
        if i > 0 {
          assert r[i] == s[i - 1] && r[j] == s[j - 1];
        } else {
          assert r[j] == s[j - 1];
        }
      }
    } else {
      var t := s[1..];
      InsertSorted(b, t);
      var rest := Insert(b, t);
      forall k | 0 <= k < |rest| ensures s[0].value <= rest[k].value {
        InsertElements(b, t, k);
        if rest[k] != b {
          var j :| 0 <= j < |t| && t[j] == rest[k];
          assert s[j + 1] == rest[k];
        }
      }
      var r := [s[0]] + rest;
      assert r == Insert(b, s);
      forall i, j | 0 <= i < j < |r| ensures r[i].value <= r[j].value {
        if i == 0 {
          assert r[j] == rest[j - 1];
        } else {
          assert r[i] == rest[i - 1] && r[j] == rest[j - 1];
        }
      }
    }
  }

  /** The sorted copy is ordered by value and holds exactly the bins of the spectrum. */
  lemma {:induction false} SortByValueSorted(s: seq<Bin>)
    ensures SortedByValue(SortByValue(s))
    ensures multiset(SortByValue(s)) == multiset(s)
  {
    if s != [] {
      SortByValueSorted(s[1..]);
      InsertSorted(s[0], SortByValue(s[1..]));
      InsertMultiset(s[0], SortByValue(s[1..]));
      assert s == [s[0]] + s[1..];
    }
  }

  /** The sum of the values, folded from the first bin to the last as `fold(0.0, |a, b| a + b)` does. */
  function Sum(s: seq<Bin>): real
  {
    if s == [] then 0.0 else Sum(s[..|s| - 1]) + s[|s| - 1].value
  }

  /** Number of bins whose value lies strictly below `m`. */
  function CountBelow(s: seq<Bin>, m: real): nat
  {
    if s == [] then 0 else (if s[0].value < m then 1 else 0) + CountBelow(s[1..], m)
  }

  /** Number of bins whose value lies strictly above `m`. */
  function CountAbove(s: seq<Bin>, m: real): nat
  {
    if s == [] then 0 else (if s[0].value > m then 1 else 0) + CountAbove(s[1..], m)
  }

  /** `m` is a median of the values: at most half of them lie on either side of it. */
  ghost predicate IsMedian(s: seq<Bin>, m: real)
  {
    CountBelow(s, m) <= |s| / 2 && CountAbove(s, m) <= |s| / 2
  }

  /**
   * The median exactly as the source computes it: the mean of the values at
   * positions `len/2 - 1` and `len/2` of the sorted copy, whatever the parity
   * of the length.
   */
  function MedianAsWritten(sorted: seq<Bin>): real
    requires |sorted| >= 2
  {
    (sorted[|sorted| / 2 - 1].value + sorted[|sorted| / 2].value) / 2.0
  }

  /**
   * The median the statistics are meant to hold: the mean of the two middle
   * values for an even length, the middle value for an odd one.
   */
  function Median(sorted: seq<Bin>): real
    requires |sorted| >= 1
  {
    if |sorted| % 2 == 0 then
      (sorted[|sorted| / 2 - 1].value + sorted[|sorted| / 2].value) / 2.0
    else
      sorted[|sorted| / 2].value
  }

  /** What `calc_statistics` stores in `min`, `max`, `average` and `median`. */
  function StatisticsOf(bins: seq<Bin>): Statistics
    requires |bins| >= 2
  {
    var sorted := SortByValue(bins);
    Statistics(sorted[0], sorted[|sorted| - 1], Sum(sorted) / |sorted| as real, MedianAsWritten(sorted))
  }

  // ---------------------------------------------------------------------
  // Sum

  lemma {:induction false} SumConcat(a: seq<Bin>, b: seq<Bin>)
    ensures Sum(a + b) == Sum(a) + Sum(b)
    decreases |b|
  {
    if b == [] {
      assert a + b == a;
    } else {
      var b' := b[..|b| - 1];
      assert (a + b)[..|a + b| - 1] == a + b';
      SumConcat(a, b');
    }
  }

  lemma {:induction false} SumInsert(b: Bin, s: seq<Bin>)
    ensures Sum(Insert(b, s)) == b.value + Sum(s)
  {
    if s == [] {
      assert Sum([b]) == Sum([]) + b.value by { assert [b][..0] == []; }
    } else if b.value <= s[0].value {
      SumConcat([b], s);
      assert Sum([b]) == Sum([]) + b.value by { assert [b][..0] == []; }
    } else {
      SumInsert(b, s[1..]);
      SumConcat([s[0]], Insert(b, s[1..]));
      SumConcat([s[0]], s[1..]);
      assert s == [s[0]] + s[1..];
      assert Sum([s[0]]) == Sum([]) + s[0].value by { assert [s[0]][..0] == []; }
    }
  }

  /** Sorting does not change the sum: the average may be taken over the sorted copy. */
  lemma {:induction false} SumSortByValue(s: seq<Bin>)
    ensures Sum(SortByValue(s)) == Sum(s)
  {
    if s != [] {
      SumSortByValue(s[1..]);
      SumInsert(s[0], SortByValue(s[1..]));
      SumConcat([s[0]], s[1..]);
      assert s == [s[0]] + s[1..];
      assert Sum([s[0]]) == Sum([]) + s[0].value by { assert [s[0]][..0] == []; }
    }
  }

  /** Values between `lo` and `hi` sum to between `n * lo` and `n * hi`. */
  lemma {:induction false} SumBounds(s: seq<Bin>, lo: real, hi: real)
    requires forall i :: 0 <= i < |s| ==> lo <= s[i].value <= hi
    ensures |s| as real * lo <= Sum(s) <= |s| as real * hi
  {
    if s != [] {
      SumBounds(s[..|s| - 1], lo, hi);
    }
  }

  // ---------------------------------------------------------------------
  // Counting, for the median

  lemma {:induction false} CountBelowInsert(b: Bin, s: seq<Bin>, m: real)
    ensures CountBelow(Insert(b, s), m) == (if b.value < m then 1 else 0) + CountBelow(s, m)
    ensures CountAbove(Insert(b, s), m) == (if b.value > m then 1 else 0) + CountAbove(s, m)
  {
    if s != [] && b.value > s[0].value {
      CountBelowInsert(b, s[1..], m);
      var r := Insert(b, s);
      assert r[1..] == Insert(b, s[1..]);
    } else if s != [] {
      var r := Insert(b, s);
      assert r[1..] == s;
    }
  }

  /** Sorting does not change how many values lie below or above a bound. */
  lemma {:induction false} CountSortByValue(s: seq<Bin>, m: real)
    ensures CountBelow(SortByValue(s), m) == CountBelow(s, m)
    ensures CountAbove(SortByValue(s), m) == CountAbove(s, m)
  {
    if s != [] {
      CountSortByValue(s[1..], m);
      CountBelowInsert(s[0], SortByValue(s[1..]), m);
    }
  }

  lemma {:induction false} CountBelowAtMost(s: seq<Bin>, m: real, k: nat)
    requires k <= |s|
    requires forall i :: k <= i < |s| ==> s[i].value >= m
    ensures CountBelow(s, m) <= k
  {
    if s != [] {
      if k == 0 {
        CountBelowAtMost(s[1..], m, 0);
      } else {
        CountBelowAtMost(s[1..], m, k - 1);
      }
    }
  }

  lemma {:induction false} CountAboveAtMost(s: seq<Bin>, m: real, k: nat)
    requires k <= |s|
    requires forall i :: 0 <= i < k ==> s[i].value <= m
    ensures CountAbove(s, m) <= |s| - k
  {
    if s != [] {
      if k == 0 {
        CountAboveAtMost(s[1..], m, 0);
      } else {
        CountAboveAtMost(s[1..], m, k - 1);
      }
    }
  }

  /** The corrected median is a median of the values, for either parity of the length. */
  lemma MedianIsMedian(bins: seq<Bin>)
    requires |bins| >= 1
    ensures IsMedian(bins, Median(SortByValue(bins)))
  {
    var sorted := SortByValue(bins);
    SortByValueSorted(bins);
    CountSortByValue(bins, Median(sorted));
    SortedMedianCounts(sorted);
  }

  lemma MidpointBetween(x: real, y: real)
    requires x <= y
    ensures x <= (x + y) / 2.0 <= y
  {
  }

  lemma SortedMedianCounts(sorted: seq<Bin>)
    requires |sorted| >= 1 && SortedByValue(sorted)
    ensures CountBelow(sorted, Median(sorted)) <= |sorted| / 2
    ensures CountAbove(sorted, Median(sorted)) <= |sorted| / 2
  {
    var n := |sorted|;
    var m := Median(sorted);
    var lo := if n % 2 == 0 then n / 2 - 1 else n / 2;
    var hi := n / 2;
    if n % 2 == 0 {
      MidpointBetween(sorted[lo].value, sorted[hi].value);
    }
    forall i | hi <= i < n ensures sorted[i].value >= m {
      if i > hi { assert sorted[hi].value <= sorted[i].value; }
    }
    forall i | 0 <= i <= lo ensures sorted[i].value <= m {
      if i < lo { assert sorted[i].value <= sorted[lo].value; }
    }
    CountBelowAtMost(sorted, m, hi);
    CountAboveAtMost(sorted, m, lo + 1);
  }

  // ---------------------------------------------------------------------
  // The statistics

  /** `min` and `max` are bins of the spectrum holding its smallest and largest value. */
  lemma ExtremaProperties(bins: seq<Bin>)
    requires |bins| >= 2
    ensures var st := StatisticsOf(bins);
      && st.min in bins && st.max in bins
      && (forall i :: 0 <= i < |bins| ==> st.min.value <= bins[i].value <= st.max.value)
  {
    var sorted := SortByValue(bins);
    var n := |sorted|;
    var st := StatisticsOf(bins);
    SortByValueSorted(bins);
    assert st.min == sorted[0] && st.max == sorted[n - 1];
    assert st.min in multiset(bins) by { assert sorted[0] in multiset(sorted); }
    assert st.max in multiset(bins) by { assert sorted[n - 1] in multiset(sorted); }
    forall i | 0 <= i < |bins|
      ensures st.min.value <= bins[i].value <= st.max.value
    {
      assert bins[i] in multiset(sorted) by { assert bins[i] in multiset(bins); }
      var j :| 0 <= j < n && sorted[j] == bins[i];
      if j > 0 { assert sorted[0].value <= sorted[j].value; }
      if j < n - 1 { assert sorted[j].value <= sorted[n - 1].value; }
    }
  }

  lemma MeanBetween(sum: real, n: real, lo: real, hi: real)
    requires n > 0.0 && n * lo <= sum <= n * hi
    ensures lo <= sum / n <= hi
  {
    assert sum / n * n == sum;
  }

  /**
   * After `calc_statistics`: `min` and `max` are bins of the spectrum holding
   * the smallest and the largest value, `min.1 <= max.1` (the debug_assert),
   * `average` is the sum of the values over their number and lies between
   * them, and `median` lies between them too and, for an even number of
   * bins, is a median of the values.
   */
  lemma StatisticsProperties(bins: seq<Bin>)
    requires |bins| >= 2
    ensures var st := StatisticsOf(bins);
      && st.min in bins && st.max in bins
      && (forall i :: 0 <= i < |bins| ==> st.min.value <= bins[i].value <= st.max.value)
      && st.min.value <= st.max.value
      && st.average == Sum(bins) / |bins| as real
      && st.min.value <= st.average <= st.max.value
      && st.median == MedianAsWritten(SortByValue(bins))
      && st.min.value <= st.median <= st.max.value
      && (|bins| % 2 == 0 ==> IsMedian(bins, st.median))
  {
    ExtremaProperties(bins);
    AverageProperties(bins);
    MedianProperties(bins);
  }

  lemma MeanOfBounded(s: seq<Bin>, lo: real, hi: real)
    requires |s| > 0
    requires forall i :: 0 <= i < |s| ==> lo <= s[i].value <= hi
    ensures lo <= Sum(s) / |s| as real <= hi
  {
    SumBounds(s, lo, hi);
    MeanBetween(Sum(s), |s| as real, lo, hi);
  }

  lemma AverageIsMean(bins: seq<Bin>)
    requires |bins| >= 2
    ensures StatisticsOf(bins).average == Sum(bins) / |bins| as real
  {
    SumSortByValue(bins);
  }

  lemma AverageProperties(bins: seq<Bin>)
    requires |bins| >= 2
    ensures var st := StatisticsOf(bins);
      && st.average == Sum(bins) / |bins| as real
      && st.min.value <= st.average <= st.max.value
  {
    SumSortByValue(bins);
    ExtremaProperties(bins);
    MeanOfBounded(bins, StatisticsOf(bins).min.value, StatisticsOf(bins).max.value);
  }

  /**
   * The stored median is the mean of the values at positions `len/2 - 1` and
   * `len/2` of the sorted copy, whatever the parity of the length; it lies
   * between min and max, and for an even length it is a median of the values.
   */
  lemma MedianProperties(bins: seq<Bin>)
    requires |bins| >= 2
    ensures var st := StatisticsOf(bins);
      && st.median == MedianAsWritten(SortByValue(bins))
      && st.min.value <= st.median <= st.max.value
      && (|bins| % 2 == 0 ==> IsMedian(bins, st.median))
  {
    var sorted := SortByValue(bins);
    SortByValueSorted(bins);
    MedianAsWrittenBetween(sorted);
    if |bins| % 2 == 0 {
      MedianIsMedian(bins);
      MedianAgreesOnEvenLength(sorted);
    }
  }

  /** On sorted values the as-written median lies between the first and the last value. */
  lemma MedianAsWrittenBetween(sorted: seq<Bin>)
    requires |sorted| >= 2 && SortedByValue(sorted)
    ensures sorted[0].value <= MedianAsWritten(sorted) <= Last(sorted).value
  {
    var n := |sorted|;
    assert sorted[0].value <= sorted[n / 2 - 1].value <= sorted[n / 2].value <= sorted[n - 1].value;
    MidpointBetween(sorted[n / 2 - 1].value, sorted[n / 2].value);
  }

  /**
   * `min` is the first bin (in frequency order) holding the smallest value
   * and `max` the last bin holding the largest, as the stable sort yields.
   */
  lemma {:induction false} MinIsFirstSmallest(bins: seq<Bin>) returns (i: nat)
    requires |bins| >= 1
    ensures i < |bins| && SortByValue(bins)[0] == bins[i]
    ensures forall j :: 0 <= j < i ==> bins[j].value > bins[i].value
  {
    if |bins| == 1 {
      i := 0;
    } else {
      var rest := SortByValue(bins[1..]);
      var k := MinIsFirstSmallest(bins[1..]);
      if bins[0].value <= rest[0].value {
        i := 0;
      } else {
        i := k + 1;
      }
    }
  }

  lemma {:induction false} LastOfInsert(b: Bin, s: seq<Bin>)
    requires SortedByValue(s) && s != []
    ensures Last(Insert(b, s)) == if b.value > Last(s).value then b else Last(s)
  {
    if b.value > s[0].value {
      if |s| == 1 {
        assert Insert(b, s[1..]) == [b];
      } else {
        LastOfInsert(b, s[1..]);
      }
    }
  }

  /** No bin's value exceeds the last value of the sorted copy. */
  lemma {:induction false} AtMostLastOfSorted(s: seq<Bin>, k: nat)
    requires k < |s|
    ensures s[k].value <= Last(SortByValue(s)).value
  {
    if |s| > 1 {
      var rest := SortByValue(s[1..]);
      SortByValueSorted(s[1..]);
      LastOfInsert(s[0], rest);
      if k > 0 {
        AtMostLastOfSorted(s[1..], k - 1);
        assert s[1..][k - 1] == s[k];
      }
    }
  }

  lemma {:induction false} MaxIsLastLargest(bins: seq<Bin>) returns (i: nat)
    requires |bins| >= 1
    ensures i < |bins| && Last(SortByValue(bins)) == bins[i]
    ensures forall j :: i < j < |bins| ==> bins[j].value < bins[i].value
  {
    if |bins| == 1 {
      i := 0;
    } else {
      var rest := SortByValue(bins[1..]);
      var k := MaxIsLastLargest(bins[1..]);
      SortByValueSorted(bins[1..]);
      LastOfInsert(bins[0], rest);
      if bins[0].value > Last(rest).value {
        i := 0;
        forall j | 0 < j < |bins| ensures bins[j].value < bins[0].value {
          AtMostLastOfSorted(bins[1..], j - 1);
        }
      } else {
        i := k + 1;
      }
    }
  }

  // ---------------------------------------------------------------------
  // Statistics after a rescale

  /** A non-decreasing scaling function maps the old extrema to the new ones. */
  lemma ScalingMonotoneExtrema(bins: seq<Bin>, f: real -> real)
    requires |bins| >= 2
    requires forall x, y :: x <= y ==> f(x) <= f(y)
    ensures StatisticsOf(ScaleValues(bins, f)).min.value == f(StatisticsOf(bins).min.value)
    ensures StatisticsOf(ScaleValues(bins, f)).max.value == f(StatisticsOf(bins).max.value)
  {
    var scaled := ScaleValues(bins, f);
    StatisticsProperties(bins);
    StatisticsProperties(scaled);
    var old_st, new_st := StatisticsOf(bins), StatisticsOf(scaled);
    var a :| 0 <= a < |bins| && bins[a] == old_st.min;
    var b :| 0 <= b < |bins| && bins[b] == old_st.max;
    var c :| 0 <= c < |scaled| && scaled[c] == new_st.min;
    var d :| 0 <= d < |scaled| && scaled[d] == new_st.max;
    assert new_st.min.value <= scaled[a].value;
    assert f(old_st.min.value) <= f(bins[c].value);
    assert scaled[b].value <= new_st.max.value;
    assert f(bins[d].value) <= f(old_st.max.value);
  }

  lemma {:induction false} SumAffine(bins: seq<Bin>, f: real -> real, a: real, b: real)
    requires forall x :: f(x) == a * x + b
    ensures Sum(ScaleValues(bins, f)) == a * Sum(bins) + |bins| as real * b
  {
    if bins != [] {
      var n := |bins|;
      var scaled := ScaleValues(bins, f);
      ScaleValuesPrefix(bins, f, n - 1);
      SumAffine(bins[..n - 1], f, a, b);
      assert scaled[n - 1].value == a * bins[n - 1].value + b;
      AffineStep(Sum(bins[..n - 1]), bins[n - 1].value, Sum(scaled[..n - 1]), (n - 1) as real, a, b);
    }
  }

  lemma ScaleValuesPrefix(bins: seq<Bin>, f: real -> real, k: nat)
    requires k <= |bins|
    ensures ScaleValues(bins, f)[..k] == ScaleValues(bins[..k], f)
  {
  }

  lemma AffineStep(prev: real, last: real, scaledPrev: real, m: real, a: real, b: real)
    requires scaledPrev == a * prev + m * b
    ensures scaledPrev + (a * last + b) == a * (prev + last) + (m + 1.0) * b
  {
  }

  lemma AffineMean(total: real, scaledTotal: real, n: real, a: real, b: real)
    requires n > 0.0 && scaledTotal == a * total + n * b
    ensures scaledTotal / n == a * (total / n) + b
  {
  }

  /** An affine rescale `x => a*x + b` turns the average into `a*average + b`. */
  lemma ScalingAffineAverage(bins: seq<Bin>, f: real -> real, a: real, b: real)
    requires |bins| >= 2
    requires forall x :: f(x) == a * x + b
    ensures StatisticsOf(ScaleValues(bins, f)).average == a * StatisticsOf(bins).average + b
  {
    var scaled := ScaleValues(bins, f);
    AverageIsMean(bins);
    AverageIsMean(scaled);
    SumAffine(bins, f, a, b);
    AffineMean(Sum(bins), Sum(scaled), |bins| as real, a, b);
  }

  // ---------------------------------------------------------------------
  // The example of the source's own test

  // The insertion sort of the test's bins, one insertion per lemma.

  lemma SortCons(b: Bin, s: seq<Bin>)
    ensures SortByValue([b] + s) == Insert(b, SortByValue(s))
  {
    assert ([b] + s)[1..] == s;
  }

  lemma InsertPast(b: Bin, x: Bin, s: seq<Bin>)
    requires x.value < b.value
    ensures Insert(b, [x] + s) == [x] + Insert(b, s)
  {
    assert ([x] + s)[1..] == s;
  }

  // Bins with the test's values, sorted from the back: `SortedFromK` sorts bins k..7.

  lemma SortedFrom7(b7: Bin)
    requires b7.value == 200.0
    ensures SortByValue([b7]) == [b7]
  {
    SortCons(b7, []);
    assert [b7] + [] == [b7];
  }

  lemma SortedFrom6(b6: Bin, b7: Bin)
    requires b6.value == 0.0 && b7.value == 200.0
    ensures SortByValue([b6, b7]) == [b6, b7]
  {
    SortedFrom7(b7);
    SortCons(b6, [b7]);
    assert [b6] + [b7] == [b6, b7];
  }

  lemma SortedFrom5(b5: Bin, b6: Bin, b7: Bin)
    requires b5.value == 20.0 && b6.value == 0.0 && b7.value == 200.0
    ensures SortByValue([b5, b6, b7]) == [b6, b5, b7]
  {
    SortedFrom6(b6, b7);
    SortCons(b5, [b6, b7]);
    assert [b5] + [b6, b7] == [b5, b6, b7];
    InsertPast(b5, b6, [b7]);
    assert [b6] + [b7] == [b6, b7];
    assert [b5] + [b7] == [b5, b7];
    assert [b6] + [b5, b7] == [b6, b5, b7];
  }

  lemma SortedFrom4(b4: Bin, b5: Bin, b6: Bin, b7: Bin)
    requires b4.value == 100.0 && b5.value == 20.0 && b6.value == 0.0 && b7.value == 200.0
    ensures SortByValue([b4, b5, b6, b7]) == [b6, b5, b4, b7]
  {
    SortedFrom5(b5, b6, b7);
    SortCons(b4, [b5, b6, b7]);
    assert [b4] + [b5, b6, b7] == [b4, b5, b6, b7];
    InsertPast(b4, b6, [b5, b7]);
    assert [b6] + [b5, b7] == [b6, b5, b7];
    InsertPast(b4, b5, [b7]);
    assert [b5] + [b7] == [b5, b7];
    assert [b4] + [b7] == [b4, b7];
    assert [b5] + [b4, b7] == [b5, b4, b7];
    assert [b6] + [b5, b4, b7] == [b6, b5, b4, b7];
  }

  lemma SortedFrom3(b3: Bin, b4: Bin, b5: Bin, b6: Bin, b7: Bin)
    requires b3.value == 150.0 && b4.value == 100.0 && b5.value == 20.0 && b6.value == 0.0 && b7.value == 200.0
    ensures SortByValue([b3, b4, b5, b6, b7]) == [b6, b5, b4, b3, b7]
  {
    SortedFrom4(b4, b5, b6, b7);
    SortCons(b3, [b4, b5, b6, b7]);
    assert [b3] + [b4, b5, b6, b7] == [b3, b4, b5, b6, b7];
    InsertPast(b3, b6, [b5, b4, b7]);
    assert [b6] + [b5, b4, b7] == [b6, b5, b4, b7];
    InsertPast(b3, b5, [b4, b7]);
    assert [b5] + [b4, b7] == [b5, b4, b7];
    InsertPast(b3, b4, [b7]);
    assert [b4] + [b7] == [b4, b7];
    assert [b3] + [b7] == [b3, b7];
    assert [b4] + [b3, b7] == [b4, b3, b7];
    assert [b5] + [b4, b3, b7] == [b5, b4, b3, b7];
    assert [b6] + [b5, b4, b3, b7] == [b6, b5, b4, b3, b7];
  }

  lemma SortedFrom2(b2: Bin, b3: Bin, b4: Bin, b5: Bin, b6: Bin, b7: Bin)
    requires b2.value == 100.0 && b3.value == 150.0 && b4.value == 100.0 && b5.value == 20.0 && b6.value == 0.0 && b7.value == 200.0
    ensures SortByValue([b2, b3, b4, b5, b6, b7]) == [b6, b5, b2, b4, b3, b7]
  {
    SortedFrom3(b3, b4, b5, b6, b7);
    SortCons(b2, [b3, b4, b5, b6, b7]);
    assert [b2] + [b3, b4, b5, b6, b7] == [b2, b3, b4, b5, b6, b7];
    InsertPast(b2, b6, [b5, b4, b3, b7]);
    assert [b6] + [b5, b4, b3, b7] == [b6, b5, b4, b3, b7];
    InsertPast(b2, b5, [b4, b3, b7]);
    assert [b5] + [b4, b3, b7] == [b5, b4, b3, b7];
    assert [b2] + [b4, b3, b7] == [b2, b4, b3, b7];
    assert [b5] + [b2, b4, b3, b7] == [b5, b2, b4, b3, b7];
    assert [b6] + [b5, b2, b4, b3, b7] == [b6, b5, b2, b4, b3, b7];
  }

  lemma SortedFrom1(b1: Bin, b2: Bin, b3: Bin, b4: Bin, b5: Bin, b6: Bin, b7: Bin)
    requires b1.value == 50.0 && b2.value == 100.0 && b3.value == 150.0 && b4.value == 100.0 && b5.value == 20.0 && b6.value == 0.0 && b7.value == 200.0
    ensures SortByValue([b1, b2, b3, b4, b5, b6, b7]) == [b6, b5, b1, b2, b4, b3, b7]
  {
    SortedFrom2(b2, b3, b4, b5, b6, b7);
    SortCons(b1, [b2, b3, b4, b5, b6, b7]);
    assert [b1] + [b2, b3, b4, b5, b6, b7] == [b1, b2, b3, b4, b5, b6, b7];
    InsertPast(b1, b6, [b5, b2, b4, b3, b7]);
    assert [b6] + [b5, b2, b4, b3, b7] == [b6, b5, b2, b4, b3, b7];
    InsertPast(b1, b5, [b2, b4, b3, b7]);
    assert [b5] + [b2, b4, b3, b7] == [b5, b2, b4, b3, b7];
    assert [b1] + [b2, b4, b3, b7] == [b1, b2, b4, b3, b7];
    assert [b5] + [b1, b2, b4, b3, b7] == [b5, b1, b2, b4, b3, b7];
    assert [b6] + [b5, b1, b2, b4, b3, b7] == [b6, b5, b1, b2, b4, b3, b7];
  }

  lemma SortedFrom0(b0: Bin, b1: Bin, b2: Bin, b3: Bin, b4: Bin, b5: Bin, b6: Bin, b7: Bin)
    requires b0.value == 5.0 && b1.value == 50.0 && b2.value == 100.0 && b3.value == 150.0 && b4.value == 100.0 && b5.value == 20.0 && b6.value == 0.0 && b7.value == 200.0
    ensures SortByValue([b0, b1, b2, b3, b4, b5, b6, b7]) == [b6, b0, b5, b1, b2, b4, b3, b7]
  {
    SortedFrom1(b1, b2, b3, b4, b5, b6, b7);
    SortCons(b0, [b1, b2, b3, b4, b5, b6, b7]);
    assert [b0] + [b1, b2, b3, b4, b5, b6, b7] == [b0, b1, b2, b3, b4, b5, b6, b7];
    InsertPast(b0, b6, [b5, b1, b2, b4, b3, b7]);
    assert [b6] + [b5, b1, b2, b4, b3, b7] == [b6, b5, b1, b2, b4, b3, b7];
    assert [b0] + [b5, b1, b2, b4, b3, b7] == [b0, b5, b1, b2, b4, b3, b7];
    assert [b6] + [b0, b5, b1, b2, b4, b3, b7] == [b6, b0, b5, b1, b2, b4, b3, b7];
  }

  lemma StatisticsFromSorted(bins: seq<Bin>, sorted: seq<Bin>)
    requires |bins| >= 2 && SortByValue(bins) == sorted
    ensures StatisticsOf(bins) == Statistics(sorted[0], Last(sorted), Sum(sorted) / |sorted| as real, MedianAsWritten(sorted))
  {
  }

  /** The values of the sorted test bins add up to 625. */
  lemma SortedTestValuesSum(s: seq<Bin>)
    requires |s| == 8
    requires s[0].value == 0.0 && s[1].value == 5.0 && s[2].value == 20.0 && s[3].value == 50.0
    requires s[4].value == 100.0 && s[5].value == 100.0 && s[6].value == 150.0 && s[7].value == 200.0
    ensures Sum(s) == 625.0
  {
    assert Sum(s[..1]) == 0.0;
    assert Sum(s[..2]) == 5.0 by { assert s[..2][..1] == s[..1]; }
    assert Sum(s[..3]) == 25.0 by { assert s[..3][..2] == s[..2]; }
    assert Sum(s[..4]) == 75.0 by { assert s[..4][..3] == s[..3]; }
    assert Sum(s[..5]) == 175.0 by { assert s[..5][..4] == s[..4]; }
    assert Sum(s[..6]) == 275.0 by { assert s[..6][..5] == s[..5]; }
    assert Sum(s[..7]) == 425.0 by { assert s[..7][..6] == s[..6]; }
    assert s[..7] == s[..|s| - 1];
  }

  /**
   * Bins with the test's values, whatever their frequencies: min is the bin
   * of value 0, max the bin of value 200, the average 78.125 and the median 75.
   */
  lemma TestValuesStatistics(b0: Bin, b1: Bin, b2: Bin, b3: Bin, b4: Bin, b5: Bin, b6: Bin, b7: Bin)
    requires b0.value == 5.0 && b1.value == 50.0 && b2.value == 100.0 && b3.value == 150.0
    requires b4.value == 100.0 && b5.value == 20.0 && b6.value == 0.0 && b7.value == 200.0
    ensures StatisticsOf([b0, b1, b2, b3, b4, b5, b6, b7]) == Statistics(b6, b7, 78.125, 75.0)
  {
    var sorted := [b6, b0, b5, b1, b2, b4, b3, b7];
    SortedFrom0(b0, b1, b2, b3, b4, b5, b6, b7);
    SortedTestValuesSum(sorted);
    StatisticsFromSorted([b0, b1, b2, b3, b4, b5, b6, b7], sorted);
  }

  /** The sorted copy of the test's bins keeps the two bins of value 100 in frequency order. */
  lemma ExampleSorted()
    ensures SortByValue(ExampleBins()) == [Bin(300.0, 0.0), Bin(0.0, 5.0), Bin(250.0, 20.0), Bin(50.0, 50.0), Bin(100.0, 100.0), Bin(200.0, 100.0), Bin(150.0, 150.0), Bin(450.0, 200.0)]
  {
    SortedFrom0(Bin(0.0, 5.0), Bin(50.0, 50.0), Bin(100.0, 100.0), Bin(150.0, 150.0), Bin(200.0, 100.0), Bin(250.0, 20.0), Bin(300.0, 0.0), Bin(450.0, 200.0));
  }

  /** min (300, 0), max (450, 200), range 200, average 78.125, median 75. */
  lemma ExampleStatistics()
    ensures StatisticsOf(ExampleBins()) == Statistics(Bin(300.0, 0.0), Bin(450.0, 200.0), 78.125, 75.0)
  {
    TestValuesStatistics(Bin(0.0, 5.0), Bin(50.0, 50.0), Bin(100.0, 100.0), Bin(150.0, 150.0), Bin(200.0, 100.0), Bin(250.0, 20.0), Bin(300.0, 0.0), Bin(450.0, 200.0));
  }

  // ---------------------------------------------------------------------
  // Finding: the median of an odd number of bins

  /**
   * For three bins of values 1, 2, 3 (what an unfiltered spectrum of four
   * samples has: N/2 + 1 bins) the median as written is 1.5, which has two of
   * the three values above it; the median of these values is 2.
   */
  lemma MedianAsWrittenOddLength()
    ensures var bins := [Bin(0.0, 1.0), Bin(1.0, 2.0), Bin(2.0, 3.0)];
      && MedianAsWritten(SortByValue(bins)) == 1.5
      && !IsMedian(bins, MedianAsWritten(SortByValue(bins)))
      && Median(SortByValue(bins)) == 2.0
      && IsMedian(bins, Median(SortByValue(bins)))
  {
    var bins := [Bin(0.0, 1.0), Bin(1.0, 2.0), Bin(2.0, 3.0)];
    assert SortByValue(bins) == bins;
    assert CountAbove(bins, 1.5) == 2;
    assert CountAbove(bins, 2.0) == 1 && CountBelow(bins, 2.0) == 1;
  }

  /** On an even number of bins the two definitions agree. */
  lemma MedianAgreesOnEvenLength(sorted: seq<Bin>)
    requires |sorted| >= 2 && |sorted| % 2 == 0
    ensures Median(sorted) == MedianAsWritten(sorted)
  {
  }
}
