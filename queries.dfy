/**
 * The read-only queries of a frequency spectrum, stated on the bin sequence:
 * linear interpolation between two points, the exact (interpolated) value at
 * a frequency, the closest bin to a frequency, the DC component and the
 * conversion into an ordered map keyed by unsigned 32-bit frequencies.
 *
 * The source compares floats with a tolerance of 3 ULPs; the model compares
 * reals exactly.
 */
module SpectrumQueries {
  import opened Wrappers
  import opened SpectrumData

  // ---------------------------------------------------------------------
  // Linear interpolation

  /**
   * The y coordinate of the point at `x` on the straight line through `a`
   * and `b`, computed as the source does: slope, then intercept.
   */
  function YCoordBetweenPoints(a: (real, real), b: (real, real), x: real): (y: real)
    requires a.0 != b.0
    ensures (y - a.1) * (b.0 - a.0) == (b.1 - a.1) * (x - a.0)
  {
    var slope := (b.1 - a.1) / (b.0 - a.0);
    var c := a.1 - slope * a.0;
    assert slope * (b.0 - a.0) == b.1 - a.1;
    slope * x + c
  }

  /** The line passes through both of its points. */
  lemma YCoordAtEndpoints(a: (real, real), b: (real, real))
    requires a.0 != b.0
    ensures YCoordBetweenPoints(a, b, a.0) == a.1
    ensures YCoordBetweenPoints(a, b, b.0) == b.1
  {
    var ya := YCoordBetweenPoints(a, b, a.0);
    var yb := YCoordBetweenPoints(a, b, b.0);
    assert (ya - a.1) * (b.0 - a.0) == 0.0;
    assert (yb - b.1) * (b.0 - a.0) == 0.0 by {
      assert (yb - a.1) * (b.0 - a.0) == (b.1 - a.1) * (b.0 - a.0);
    }
  }

  /** Between its two points, the interpolated value lies between their values. */
  lemma YCoordBetween(a: (real, real), b: (real, real), x: real)
    requires a.0 < x < b.0
    ensures a.1 <= b.1 ==> a.1 <= YCoordBetweenPoints(a, b, x) <= b.1
    ensures b.1 <= a.1 ==> b.1 <= YCoordBetweenPoints(a, b, x) <= a.1
  {
    var y := YCoordBetweenPoints(a, b, x);
    var w := b.0 - a.0;
    var t := x - a.0;
    assert 0.0 < t < w;
    assert (y - a.1) * w == (b.1 - a.1) * t;
    if a.1 <= b.1 {
      assert (b.1 - a.1) * t <= (b.1 - a.1) * w;
      ScaledBetween(y - a.1, b.1 - a.1, t, w);
    } else {
      assert (a.1 - b.1) * t <= (a.1 - b.1) * w;
      assert (a.1 - y) * w == (a.1 - b.1) * t;
      ScaledBetween(a.1 - y, a.1 - b.1, t, w);
    }
  }

  /** `u * w == v * t` with `0 < t < w` and `v >= 0` puts `u` between 0 and `v`. */
  lemma ScaledBetween(u: real, v: real, t: real, w: real)
    requires 0.0 < t < w && v >= 0.0
    requires u * w == v * t
    ensures 0.0 <= u <= v
  {
    var q := t / w;
    assert q * w == t;
    assert u == v * q;
    assert 0.0 < q;
    assert (w - t) / w == w / w - t / w;
    assert w / w == 1.0;
    assert 0.0 < 1.0 - q;
    assert v - u == v * (1.0 - q);
  }

  /** Halfway between the two points the value is the mean of theirs. */
  lemma YCoordMidpoint(a: (real, real), b: (real, real))
    requires a.0 != b.0
    ensures YCoordBetweenPoints(a, b, (a.0 + b.0) / 2.0) == (a.1 + b.1) / 2.0
  {
    var y := YCoordBetweenPoints(a, b, (a.0 + b.0) / 2.0);
    assert (y - a.1) * (b.0 - a.0) == (b.1 - a.1) * ((b.0 - a.0) / 2.0);
    assert (y - a.1) * (b.0 - a.0) == ((b.1 - a.1) / 2.0) * (b.0 - a.0);
  }

  /** The two cases of the source's interpolation test, (100, 1) and (200, 0). */
  lemma YCoordExamples()
    ensures YCoordBetweenPoints((100.0, 1.0), (200.0, 0.0), 150.0) == 0.5
    ensures YCoordBetweenPoints((100.0, 1.0), (200.0, 0.0), 180.0) == 0.2
  {
  }

  // ---------------------------------------------------------------------
  // Finding the window

  /**
   * The window the query loops settle on: the first `i >= from` whose upper
   * point `bins[i + 1]` is not below `search`. Such a window exists as soon
   * as `search` does not exceed the last frequency, so the "Here be dragons"
   * panic after the loop cannot be reached.
   */
  function FirstWindow(bins: seq<Bin>, search: real, from: nat): (i: nat)
    requires from < |bins| - 1
    requires search <= Last(bins).freq
    ensures from <= i < |bins| - 1
    ensures search <= bins[i + 1].freq
    ensures forall k :: from < k <= i ==> search > bins[k].freq
    decreases |bins| - from
  {
    if search <= bins[from + 1].freq then from
    else FirstWindow(bins, search, from + 1)
  }

  /** A query frequency the queries reject: outside [first, last], and equal to neither end. */
  predicate OutOfBounds(bins: seq<Bin>, search: real)
    requires |bins| >= 1
  {
    search != bins[0].freq && search != Last(bins).freq &&
    (search < bins[0].freq || search > Last(bins).freq)
  }

  // ---------------------------------------------------------------------
  // freq_val_exact

  /**
   * The value at `search`: the stored value when `search` hits the first or
   * the last bin, a failure outside the covered range, otherwise the value
   * on the straight line between the two bins around `search`.
   */
  function ExactValueAt(bins: seq<Bin>, search: real): (r: Result<real, SpectrumError>)
    requires |bins| >= 2
  {
    if bins[0].freq == search then Success(bins[0].value)
    else if Last(bins).freq == search then Success(Last(bins).value)
    else if search < bins[0].freq || search > Last(bins).freq then Failure(FrequencyOutOfBounds)
    else
      var i := FirstWindow(bins, search, 0);
      var a := bins[i];
      var b := bins[i + 1];
      if a.freq == search then Success(a.value)
      else
        assert a.freq < search by {
          if i > 0 {
            assert search > bins[i].freq;
          }
        }
        Success(YCoordBetweenPoints((a.freq, a.value), (b.freq, b.value), search))
  }

  /** The exact query fails precisely for frequencies out of bounds, and then with that error. */
  lemma ExactFailsIffOutOfBounds(bins: seq<Bin>, search: real)
    requires |bins| >= 2
    ensures ExactValueAt(bins, search).Failure? <==> OutOfBounds(bins, search)
    ensures ExactValueAt(bins, search).Failure? ==> ExactValueAt(bins, search).error == FrequencyOutOfBounds
  {
  }

  /** Asking for a stored frequency gives back its stored value. */
  lemma ExactAtStoredFrequency(bins: seq<Bin>, k: nat)
    requires |bins| >= 2 && StrictlyAscending(bins)
    requires k < |bins|
    ensures ExactValueAt(bins, bins[k].freq) == Success(bins[k].value)
  {
    var search := bins[k].freq;
    if 0 < k < |bins| - 1 {
      assert search != bins[0].freq && search != Last(bins).freq;
      var i := FirstWindow(bins, search, 0);
      assert i + 1 == k;
      assert bins[i].freq < search;
      var a := bins[i];
      var b := bins[i + 1];
      YCoordAtEndpoints((a.freq, a.value), (b.freq, b.value));
    }
  }

  /** Inside the range, the result lies on the segment between the two bins around `search`. */
  lemma ExactIsOnSegment(bins: seq<Bin>, search: real) returns (i: nat)
    requires |bins| >= 2 && StrictlyAscending(bins)
    requires bins[0].freq <= search <= Last(bins).freq
    ensures i < |bins| - 1 && bins[i].freq <= search <= bins[i + 1].freq
    ensures ExactValueAt(bins, search).Success?
    ensures var v := ExactValueAt(bins, search).value;
      (v - bins[i].value) * (bins[i + 1].freq - bins[i].freq)
        == (bins[i + 1].value - bins[i].value) * (search - bins[i].freq)
  {
    if bins[0].freq == search {
      i := 0;
    } else if Last(bins).freq == search {
      i := |bins| - 2;
      assert bins[i].freq < bins[i + 1].freq;
    } else {
      i := FirstWindow(bins, search, 0);
      if i > 0 {
        assert search > bins[i].freq;
      }
    }
  }

  /** An interpolated value never leaves the range spanned by its two neighbours. */
  lemma ExactBetweenNeighbours(bins: seq<Bin>, search: real) returns (i: nat)
    requires |bins| >= 2 && StrictlyAscending(bins)
    requires bins[0].freq <= search <= Last(bins).freq
    ensures i < |bins| - 1 && bins[i].freq <= search <= bins[i + 1].freq
    ensures ExactValueAt(bins, search).Success?
    ensures var v := ExactValueAt(bins, search).value;
      (bins[i].value <= v <= bins[i + 1].value) || (bins[i + 1].value <= v <= bins[i].value)
  {
    i := ExactIsOnSegment(bins, search);
    var a := bins[i];
    var b := bins[i + 1];
    if search == a.freq {
      ExactAtStoredFrequency(bins, i);
    } else if search == b.freq {
      ExactAtStoredFrequency(bins, i + 1);
    } else {
      assert ExactValueAt(bins, search).value == YCoordBetweenPoints((a.freq, a.value), (b.freq, b.value), search);
      YCoordBetween((a.freq, a.value), (b.freq, b.value), search);
    }
  }

  /** The exact-value cases of the source's basic spectrum test, and its two out-of-bounds panics. */
  lemma ExactExamples()
    ensures ExactValueAt(ExampleBins(), 0.0) == Success(5.0)
    ensures ExactValueAt(ExampleBins(), 200.0) == Success(100.0)
    ensures ExactValueAt(ExampleBins(), 375.0) == Success(100.0)
    ensures ExactValueAt(ExampleBins(), 450.0) == Success(200.0)
    ensures ExactValueAt([Bin(0.0, 5.0), Bin(450.0, 200.0)], -1.0) == Failure(FrequencyOutOfBounds)
    ensures ExactValueAt([Bin(0.0, 5.0), Bin(450.0, 200.0)], 451.0) == Failure(FrequencyOutOfBounds)
  {
    var e := ExampleBins();
    assert FirstWindow(e, 200.0, 0) == 3 by {
      assert FirstWindow(e, 200.0, 3) == 3;
    }
    assert FirstWindow(e, 375.0, 0) == 6 by {
      assert FirstWindow(e, 375.0, 6) == 6;
      assert FirstWindow(e, 375.0, 3) == 6;
    }
  }

  // ---------------------------------------------------------------------
  // freq_val_closest

  /**
   * `delta / resolution < 0.5` as floating point evaluates it; a zero
   * resolution divides to an infinity of the sign of `delta`, or to NaN
   * when `delta` is zero, and NaN compares false.
   */
  predicate CloserToLower(delta: real, resolution: real)
  {
    if resolution == 0.0 then delta < 0.0 else delta / resolution < 0.5
  }

  /**
   * The bin closest to `search`: the first or last bin on a hit, a failure
   * outside the covered range, otherwise the lower bin of the window around
   * `search` when `search` is less than half a resolution above it and the
   * upper bin when not.
   */
  function ClosestAt(bins: seq<Bin>, resolution: real, search: real): (r: Result<Bin, SpectrumError>)
    requires |bins| >= 2
  {
    if bins[0].freq == search then Success(bins[0])
    else if Last(bins).freq == search then Success(Last(bins))
    else if search < bins[0].freq || search > Last(bins).freq then Failure(FrequencyOutOfBounds)
    else
      var i := FirstWindow(bins, search, 0);
      var a := bins[i];
      var b := bins[i + 1];
      if a.freq == search then Success(a)
      else if CloserToLower(search - a.freq, resolution) then Success(a)
      else Success(b)
  }

  /** Both queries reject exactly the same frequencies. */
  lemma ClosestFailsIffOutOfBounds(bins: seq<Bin>, resolution: real, search: real)
    requires |bins| >= 2
    ensures ClosestAt(bins, resolution, search).Failure? <==> OutOfBounds(bins, search)
    ensures ClosestAt(bins, resolution, search).Failure? ==> ClosestAt(bins, resolution, search).error == FrequencyOutOfBounds
  {
  }

  /** The closest query always answers with one of the spectrum's own bins. */
  lemma ClosestIsElement(bins: seq<Bin>, resolution: real, search: real)
    requires |bins| >= 2
    ensures ClosestAt(bins, resolution, search).Success? ==> ClosestAt(bins, resolution, search).value in bins
  {
  }

  /**
   * On an evenly spaced spectrum, inside the range: the answer is the lower
   * bin of the window around `search` exactly when `search` lies less than
   * half a resolution above it; a tie goes to the upper bin.
   */
  lemma ClosestRounds(bins: seq<Bin>, resolution: real, search: real) returns (i: nat)
    requires |bins| >= 2 && resolution > 0.0 && EvenlySpaced(bins, resolution)
    requires bins[0].freq <= search <= Last(bins).freq
    ensures i < |bins| - 1 && bins[i].freq <= search <= bins[i + 1].freq
    ensures ClosestAt(bins, resolution, search) ==
      if search - bins[i].freq < resolution / 2.0 then Success(bins[i]) else Success(bins[i + 1])
  {
    EvenlySpacedIsAscending(bins, resolution);
    if bins[0].freq == search {
      i := 0;
    } else if Last(bins).freq == search {
      i := |bins| - 2;
      assert bins[i + 1].freq == bins[i].freq + resolution;
    } else {
      i := FirstWindow(bins, search, 0);
      if i > 0 {
        assert search > bins[i].freq;
      }
      var delta := search - bins[i].freq;
      assert delta / resolution < 0.5 <==> delta < resolution / 2.0 by {
        HalfRatio(delta, resolution);
      }
    }
  }

  lemma HalfRatio(delta: real, resolution: real)
    requires resolution > 0.0
    ensures delta / resolution < 0.5 <==> delta < resolution / 2.0
  {
    assert delta == (delta / resolution) * resolution;
  }

  /** On an evenly spaced spectrum the answer is a bin no farther from `search` than any other. */
  lemma ClosestIsNearest(bins: seq<Bin>, resolution: real, search: real, k: nat)
    requires |bins| >= 2 && resolution > 0.0 && EvenlySpaced(bins, resolution)
    requires bins[0].freq <= search <= Last(bins).freq
    requires k < |bins|
    ensures ClosestAt(bins, resolution, search).Success?
    ensures Distance(ClosestAt(bins, resolution, search).value.freq, search) <= Distance(bins[k].freq, search)
  {
    var i := ClosestRounds(bins, resolution, search);
    EvenlySpacedIsAscending(bins, resolution);
    assert bins[i + 1].freq == bins[i].freq + resolution;
    if k < i {
      assert bins[k].freq < bins[i].freq;
    } else if k > i + 1 {
      assert bins[i + 1].freq < bins[k].freq;
    }
  }

  function Distance(x: real, y: real): (d: real)
    ensures d >= 0.0 && (d == x - y || d == y - x)
  {
    if x >= y then x - y else y - x
  }

  /** A stored frequency is its own closest bin on an evenly spaced spectrum. */
  lemma ClosestAtStoredFrequency(bins: seq<Bin>, resolution: real, k: nat)
    requires |bins| >= 2 && resolution > 0.0 && EvenlySpaced(bins, resolution)
    requires k < |bins|
    ensures ClosestAt(bins, resolution, bins[k].freq) == Success(bins[k])
  {
    EvenlySpacedIsAscending(bins, resolution);
    var i := ClosestRounds(bins, resolution, bins[k].freq);
    if i + 1 == k {
      assert bins[k].freq == bins[i].freq + resolution;
    }
  }

  /** The closest-value cases of the source's basic spectrum test, at and near the ends (resolution 50). */
  lemma ClosestExamplesAtEnds()
    ensures ClosestAt(ExampleBins(), 50.0, 0.0) == Success(Bin(0.0, 5.0))
    ensures ClosestAt(ExampleBins(), 50.0, 50.0) == Success(Bin(50.0, 50.0))
    ensures ClosestAt(ExampleBins(), 50.0, 450.0) == Success(Bin(450.0, 200.0))
    ensures ClosestAt(ExampleBins(), 50.0, 47.3) == Success(Bin(50.0, 50.0))
    ensures ClosestAt(ExampleBins(), 50.0, 51.3) == Success(Bin(50.0, 50.0))
  {
    var e := ExampleBins();
    assert FirstWindow(e, 51.3, 0) == 1 by {
      assert FirstWindow(e, 51.3, 1) == 1;
    }
  }

  /** The closest-value cases of the source's basic spectrum test in its widest window, 300 to 450 Hz. */
  lemma ClosestExamplesInGap()
    ensures ClosestAt(ExampleBins(), 50.0, 448.0) == Success(Bin(450.0, 200.0))
    ensures ClosestAt(ExampleBins(), 50.0, 400.0) == Success(Bin(450.0, 200.0))
  {
    var e := ExampleBins();
    assert FirstWindow(e, 448.0, 0) == 6 by {
      assert FirstWindow(e, 448.0, 6) == 6;
      assert FirstWindow(e, 448.0, 3) == 6;
    }
    assert FirstWindow(e, 400.0, 0) == 6 by {
      assert FirstWindow(e, 400.0, 6) == 6;
      assert FirstWindow(e, 400.0, 3) == 6;
    }
  }
  /**
   * In the same window, 340 Hz goes to the 450 Hz bin although the 300 Hz
   * bin is nearer: the source measures the distance against the resolution,
   * not the width of the window.
   */
  lemma ClosestInGapNotNearest()
    ensures ClosestAt(ExampleBins(), 50.0, 340.0) == Success(Bin(450.0, 200.0))
    ensures Distance(340.0, 300.0) < Distance(340.0, 450.0)
  {
    var e := ExampleBins();
    assert FirstWindow(e, 340.0, 0) == 6 by {
      assert FirstWindow(e, 340.0, 6) == 6;
      assert FirstWindow(e, 340.0, 3) == 6;
    }
  }


  /** The example of the source's documentation: 100, 200, 300, 400 Hz, and 320 Hz gives the 300 Hz bin. */
  lemma ClosestDocumentedExample()
    ensures ClosestAt([Bin(100.0, 0.0), Bin(200.0, 1.0), Bin(300.0, 0.5), Bin(400.0, 0.1)], 100.0, 320.0)
      == Success(Bin(300.0, 0.5))
  {
    var d := [Bin(100.0, 0.0), Bin(200.0, 1.0), Bin(300.0, 0.5), Bin(400.0, 0.1)];
    assert FirstWindow(d, 320.0, 0) == 2 by {
      assert FirstWindow(d, 320.0, 2) == 2;
    }
  }

  // ---------------------------------------------------------------------
  // dc_component

  /** The value at 0 Hz, present only when the first bin sits at 0 Hz. */
  function DcComponentOf(bins: seq<Bin>): (r: Option<real>)
    requires |bins| >= 1
  {
    if bins[0].freq == 0.0 then Some(bins[0].value) else None
  }

  /** The DC component is what the exact query reports at 0 Hz. */
  lemma DcComponentIsValueAtZero(bins: seq<Bin>)
    requires |bins| >= 2
    ensures DcComponentOf(bins).Some? ==> ExactValueAt(bins, 0.0) == Success(DcComponentOf(bins).value)
    ensures DcComponentOf(bins).None? <==> bins[0].freq != 0.0
  {
  }

  /** The source's two DC component tests. */
  lemma DcComponentExamples()
    ensures DcComponentOf(ExampleBins()) == Some(5.0)
    ensures DcComponentOf([Bin(150.0, 150.0), Bin(200.0, 100.0)]) == None
  {
  }

  // ---------------------------------------------------------------------
  // to_map

  const U32Max: nat := 0xFFFF_FFFF

  type U32 = k: nat | k <= U32Max

  /**
   * The key `fr as u32` gives: the whole part of the frequency, saturated at
   * 0 below and at the largest 32-bit value above.
   */
  function DefaultKey(fr: real): (k: U32)
    ensures fr <= 0.0 ==> k == 0
    ensures 0.0 <= fr < U32Max as real ==> k as real <= fr < k as real + 1.0
    ensures fr >= U32Max as real ==> k == U32Max
  {
    if fr <= 0.0 then 0
    else if fr >= U32Max as real then U32Max
    else fr.Floor
  }

  /** The map the bins are collected into: one entry per key, a later bin overwriting an earlier one. */
  function BinsToMap(bins: seq<Bin>, key: real -> U32): (m: map<U32, real>)
    ensures m.Keys == set i | 0 <= i < |bins| :: key(bins[i].freq)
  {
    if bins == [] then map[]
    else
      var init := bins[..|bins| - 1];
      var m := BinsToMap(init, key)[key(Last(bins).freq) := Last(bins).value];
      assert m.Keys == set i | 0 <= i < |bins| :: key(bins[i].freq) by {
        forall i | 0 <= i < |bins| - 1
          ensures key(bins[i].freq) == key(init[i].freq)
        {
        }
      }
      m
  }

  /** The key of a frequency: the given scaling function, or `fr as u32` when none is given. */
  function KeyFunction(scaleFn: Option<real -> U32>): real -> U32
  {
    if scaleFn.Some? then scaleFn.value else DefaultKey
  }

  /** `to_map` on the bins. */
  function ToMap(bins: seq<Bin>, scaleFn: Option<real -> U32>): (m: map<U32, real>)
  {
    BinsToMap(bins, KeyFunction(scaleFn))
  }

  /** Each key maps to the value of the last bin carrying that key. */
  lemma {:induction false} BinsToMapLastWins(bins: seq<Bin>, key: real -> U32, i: nat)
    requires i < |bins|
    requires forall j :: i < j < |bins| ==> key(bins[j].freq) != key(bins[i].freq)
    ensures key(bins[i].freq) in BinsToMap(bins, key)
    ensures BinsToMap(bins, key)[key(bins[i].freq)] == bins[i].value
  {
    if i < |bins| - 1 {
      var init := bins[..|bins| - 1];
      assert init[i] == bins[i];
      assert forall j :: i < j < |init| ==> key(init[j].freq) != key(init[i].freq) by {
        forall j | i < j < |init|
          ensures key(init[j].freq) != key(init[i].freq)
        {
          assert init[j] == bins[j];
        }
      }
      BinsToMapLastWins(init, key, i);
    }
  }

  /** No bin after bin `i` carries the same key. */
  predicate LastWithKey(bins: seq<Bin>, key: real -> U32, i: nat)
    requires i < |bins|
  {
    forall j :: i < j < |bins| ==> key(bins[j].freq) != key(bins[i].freq)
  }

  /** Every bin that is the last of its key supplies the value stored under that key. */
  lemma ToMapValues(bins: seq<Bin>, key: real -> U32)
    ensures forall i :: 0 <= i < |bins| && LastWithKey(bins, key, i) ==>
      key(bins[i].freq) in BinsToMap(bins, key) && BinsToMap(bins, key)[key(bins[i].freq)] == bins[i].value
  {
    forall i | 0 <= i < |bins| && LastWithKey(bins, key, i)
      ensures key(bins[i].freq) in BinsToMap(bins, key) && BinsToMap(bins, key)[key(bins[i].freq)] == bins[i].value
    {
      BinsToMapLastWins(bins, key, i);
    }
  }

  /** When no two bins share a key, the map holds every bin's value under its key. */
  lemma ToMapKeepsEveryBin(bins: seq<Bin>, key: real -> U32)
    requires forall i, j :: 0 <= i < j < |bins| ==> key(bins[i].freq) != key(bins[j].freq)
    ensures |BinsToMap(bins, key)| == |bins|
    ensures forall i :: 0 <= i < |bins| ==> BinsToMap(bins, key)[key(bins[i].freq)] == bins[i].value
  {
    forall i | 0 <= i < |bins|
      ensures BinsToMap(bins, key)[key(bins[i].freq)] == bins[i].value
    {
      BinsToMapLastWins(bins, key, i);
    }
    KeyCount(bins, key);
  }

  lemma {:induction false} KeyCount(bins: seq<Bin>, key: real -> U32)
    requires forall i, j :: 0 <= i < j < |bins| ==> key(bins[i].freq) != key(bins[j].freq)
    ensures |set i | 0 <= i < |bins| :: key(bins[i].freq)| == |bins|
  {
    if bins != [] {
      var init := bins[..|bins| - 1];
      KeyCount(init, key);
      var s := set i | 0 <= i < |init| :: key(init[i].freq);
      var t := set i | 0 <= i < |bins| :: key(bins[i].freq);
      assert t == s + {key(Last(bins).freq)} by {
        forall i | 0 <= i < |init|
          ensures key(init[i].freq) == key(bins[i].freq)
        {
        }
      }
      assert key(Last(bins).freq) !in s;
    }
  }
}
