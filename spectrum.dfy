/**
 * `FrequencySpectrum`: the bins of an analysed signal together with their
 * statistics (min, max, average, median), which every change of the bins
 * recomputes. The bins live in a fixed-size array that scaling updates in
 * place; the statistics are fields the object rewrites.
 */
module Spectrum {
  import opened Wrappers
  import opened SpectrumData
  import opened SpectrumStatistics
  import SpectrumQueries

  class FrequencySpectrum {
    /** The bins, lowest frequency first, scaled by every scaling applied so far. */
    const data: array<Bin>
    /** The distance in Hertz between two neighbouring bins. */
    const frequencyResolution: real
    var average: real
    var median: real
    /** The bin of smallest value (the first of them in sorted order). */
    var min: Bin
    /** The bin of largest value (the last of them in sorted order). */
    var max: Bin

    /** The statistics fields describe the current bins. */
    ghost predicate Valid()
      reads this, data
    {
      data.Length >= 2 &&
      Statistics(min, max, average, median) == StatisticsOf(data[..])
    }

    /** Takes over the bins and computes their statistics. */
    constructor (bins: seq<Bin>, resolution: real)
      requires |bins| >= 2
      ensures Valid()
      ensures fresh(data) && data[..] == bins && frequencyResolution == resolution
    {
      data := new Bin[|bins|](i requires 0 <= i < |bins| => bins[i]);
      frequencyResolution := resolution;
      // placeholders, overwritten right away
      average := -1.0;
      median := -1.0;
      min := Bin(-1.0, -1.0);
      max := Bin(-1.0, -1.0);
      new;
      assert data[..] == bins;
      CalcStatistics();
    }

    /** `FrequencySpectrum::new`: fails on fewer than two bins, where the source panics. */
    static method New(bins: seq<Bin>, resolution: real) returns (r: Result<FrequencySpectrum, SpectrumError>)
      ensures r.Failure? <==> |bins| < 2
      ensures r.Failure? ==> r.error == TooFewBins
      ensures r.Success? ==> fresh(r.value) && fresh(r.value.data) && r.value.Valid()
      ensures r.Success? ==> r.value.data[..] == bins && r.value.frequencyResolution == resolution
    {
      if |bins| < 2 {
        return Failure(TooFewBins);
      }
      var s := new FrequencySpectrum(bins, resolution);
      return Success(s);
    }

    /**
     * Sorts a copy of the bins by value and reads min, max and median off it;
     * the average is the running sum over the sorted copy divided by the count.
     */
    method CalcStatistics()
      requires data.Length >= 2
      modifies this
      ensures Valid()
      ensures Statistics(min, max, average, median) == StatisticsOf(data[..])
    {
      var sorted := SortByValue(data[..]);
      var sum := 0.0;
      var i := 0;
      while i < |sorted|
        invariant 0 <= i <= |sorted|
        invariant sum == Sum(sorted[..i])
      {
        assert sorted[..i + 1][..i] == sorted[..i];
        sum := sum + sorted[i].value;
        i := i + 1;
      }
      assert sorted[..|sorted|] == sorted;
      average := sum / |sorted| as real;
      median := MedianAsWritten(sorted);
      min := sorted[0];
      max := sorted[|sorted| - 1];
    }

    /**
     * Builds the per-value function from the current statistics, applies it
     * to every bin in place, and recomputes the statistics.
     */
    method ApplyComplexScalingFn(factory: ComplexScalingFunction)
      requires Valid()
      modifies this, data
      ensures Valid()
      ensures data[..] == ScaleValues(old(data[..]), factory(old(min).value, old(max).value, old(average), old(median)))
    {
      var scale := factory(min.value, max.value, average, median);
      var i := 0;
      while i < data.Length
        invariant 0 <= i <= data.Length
        invariant forall k :: 0 <= k < i ==> data[k] == Bin(old(data[k]).freq, scale(old(data[k]).value))
        invariant forall k :: i <= k < data.Length ==> data[k] == old(data[k])
      {
        data[i] := Bin(data[i].freq, scale(data[i].value));
        i := i + 1;
      }
      assert data[..] == ScaleValues(old(data[..]), scale);
      CalcStatistics();
    }

    /** The spread of the values: no two bins differ in value by more. */
    function Range(): (r: real)
      reads this, data
      requires Valid()
      ensures r >= 0.0
      ensures forall i, j :: 0 <= i < data.Length && 0 <= j < data.Length ==> data[i].value - data[j].value <= r
      ensures exists i, j :: 0 <= i < data.Length && 0 <= j < data.Length && data[i].value - data[j].value == r
    {
      ExtremaProperties(data[..]);
      var i :| 0 <= i < data.Length && data[i] == max;
      var j :| 0 <= j < data.Length && data[j] == min;
      assert data[i].value - data[j].value == max.value - min.value;
      max.value - min.value
    }

    /** The lowest frequency of the spectrum: no bin lies below it when the bins ascend. */
    function MinFr(): (r: real)
      reads this, data
      requires Valid()
      ensures StrictlyAscending(data[..]) ==> forall i :: 0 <= i < data.Length ==> r <= data[i].freq
    {
      data[0].freq
    }

    /** The highest frequency of the spectrum: no bin lies above it when the bins ascend. */
    function MaxFr(): (r: real)
      reads this, data
      requires Valid()
      ensures StrictlyAscending(data[..]) ==> forall i :: 0 <= i < data.Length ==> data[i].freq <= r
    {
      data[data.Length - 1].freq
    }

    /** The value at 0 Hz when the spectrum starts there. */
    function DcComponent(): (r: Option<real>)
      reads this, data
      requires Valid()
      ensures r.Some? <==> data[0].freq == 0.0
      ensures r.Some? ==> exists i :: 0 <= i < data.Length && data[i] == Bin(0.0, r.value)
      ensures r.Some? ==> SpectrumQueries.ExactValueAt(data[..], 0.0) == Success(r.value)
    {
      SpectrumQueries.DcComponentIsValueAtZero(data[..]);
      SpectrumQueries.DcComponentOf(data[..])
    }

    /** `freq_val_exact`: walks the windows until `search` is no longer above the upper point. */
    method FreqValExact(search: real) returns (r: Result<real, SpectrumError>)
      requires Valid()
      ensures r == SpectrumQueries.ExactValueAt(data[..], search)
    {
      var first := data[0];
      var last := data[data.Length - 1];
      if first.freq == search {
        return Success(first.value);
      }
      if last.freq == search {
        return Success(last.value);
      }
      if search < first.freq || search > last.freq {
        return Failure(FrequencyOutOfBounds);
      }
      var i := FindWindow(search);
      var a := data[i];
      var b := data[i + 1];
      if a.freq == search {
        return Success(a.value);
      }
      return Success(SpectrumQueries.YCoordBetweenPoints((a.freq, a.value), (b.freq, b.value), search));
    }

    /** `freq_val_closest`: the same walk, then half a resolution decides between the two points. */
    method FreqValClosest(search: real) returns (r: Result<Bin, SpectrumError>)
      requires Valid()
      ensures r == SpectrumQueries.ClosestAt(data[..], frequencyResolution, search)
    {
      var first := data[0];
      var last := data[data.Length - 1];
      if first.freq == search {
        return Success(first);
      }
      if last.freq == search {
        return Success(last);
      }
      if search < first.freq || search > last.freq {
        return Failure(FrequencyOutOfBounds);
      }
      var i := FindWindow(search);
      var a := data[i];
      var b := data[i + 1];
      if a.freq == search {
        return Success(a);
      }
      var deltaToA := search - a.freq;
      if frequencyResolution == 0.0 {
        r := if deltaToA < 0.0 then Success(a) else Success(b);
      } else {
        r := if deltaToA / frequencyResolution < 0.5 then Success(a) else Success(b);
      }
    }

    /** The loop shared by both queries: the first window whose upper point is not below `search`. */
    method FindWindow(search: real) returns (i: nat)
      requires data.Length >= 2
      requires search <= data[data.Length - 1].freq
      ensures i == SpectrumQueries.FirstWindow(data[..], search, 0)
    {
      i := 0;
      while search > data[i + 1].freq
        invariant 0 <= i < data.Length - 1
        invariant SpectrumQueries.FirstWindow(data[..], search, i) == SpectrumQueries.FirstWindow(data[..], search, 0)
        decreases data.Length - i
      {
        i := i + 1;
      }
    }

    /** `to_map`: the bins keyed by `scaleFn(frequency)`, or by `frequency as u32` without one. */
    function ToMap(scaleFn: Option<real -> SpectrumQueries.U32>): (m: map<SpectrumQueries.U32, real>)
      reads this, data
      requires Valid()
      ensures forall i :: 0 <= i < data.Length ==> SpectrumQueries.KeyFunction(scaleFn)(data[i].freq) in m
      ensures forall k :: k in m ==> exists i :: 0 <= i < data.Length && SpectrumQueries.KeyFunction(scaleFn)(data[i].freq) == k
      ensures forall i :: 0 <= i < data.Length && SpectrumQueries.LastWithKey(data[..], SpectrumQueries.KeyFunction(scaleFn), i) ==>
        m[SpectrumQueries.KeyFunction(scaleFn)(data[i].freq)] == data[i].value
    {
      SpectrumQueries.ToMapValues(data[..], SpectrumQueries.KeyFunction(scaleFn));
      SpectrumQueries.ToMap(data[..], scaleFn)
    }
  }
}
