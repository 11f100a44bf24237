/**
 * From FFT output to spectrum: the frequency of each FFT index, the
 * selection of the indices 0 to N/2 that lie inside the frequency limits,
 * the magnitude with an optional per-value scale, construction of the
 * spectrum and an optional total scaling; and the conversion of the input
 * samples into complex numbers for the FFT.
 *
 * The complex norm (a square root) and every caller-supplied function are
 * parameters.
 */
module BinMapper {
  import opened Wrappers
  import opened ComplexNumbers
  import opened SpectrumData
  import opened SpectrumStatistics
  import SpectrumQueries
  import Spectrum

  // ---------------------------------------------------------------------
  // fft_calc_frequency_resolution

  /** The distance in Hertz between neighbouring FFT indices: sampling rate over sample count. */
  function FrequencyResolution(samplingRate: nat, samplesLen: nat): (r: real)
    requires samplesLen > 0
    ensures r * samplesLen as real == samplingRate as real
    ensures r >= 0.0 && (r > 0.0 <==> samplingRate > 0)
  {
    samplingRate as real / samplesLen as real
  }

  /** Index `samplesLen / 2` of an even-length FFT sits at half the sampling rate, the Nyquist frequency. */
  lemma NyquistIndex(samplingRate: nat, samplesLen: nat)
    requires samplesLen > 0 && samplesLen % 2 == 0
    ensures (samplesLen / 2) as real * FrequencyResolution(samplingRate, samplesLen) == samplingRate as real / 2.0
  {
    var r := FrequencyResolution(samplingRate, samplesLen);
    var h := (samplesLen / 2) as real;
    assert samplesLen as real == 2.0 * h;
    assert 2.0 * (h * r) == samplingRate as real;
  }

  // ---------------------------------------------------------------------
  // The iterator pipeline of fft_result_to_spectrum

  /** `take(n / 2 + 1)`: how many FFT values are looked at, never more than there are. */
  function TakeCount(n: nat): (c: nat)
    ensures c <= n && c <= n / 2 + 1
    ensures n >= 1 ==> c == n / 2 + 1
  {
    if n < n / 2 + 1 then n else n / 2 + 1
  }

  /** A frequency and the FFT value at its index, before the magnitude is taken. */
  type Candidate = (real, Complex)

  /** The frequency of FFT index `i`. */
  function IndexFrequency(i: nat, resolution: real): real
  {
    i as real * resolution
  }

  /** `enumerate().map(...)`: index `i` of the FFT result is paired with frequency `i * resolution`. */
  function Candidates(fft: seq<Complex>, resolution: real): (r: seq<Candidate>)
    ensures |r| == TakeCount(|fft|)
  {
    seq(TakeCount(|fft|), i requires 0 <= i < TakeCount(|fft|) => (IndexFrequency(i, resolution), fft[i]))
  }

  /** Keeps the elements satisfying `p`, in order. */
  function Filter<T>(s: seq<T>, p: T -> bool): (r: seq<T>)
    ensures |r| <= |s|
    ensures forall x :: x in r ==> x in s && p(x)
  {
    if s == [] then []
    else (if p(s[0]) then [s[0]] else []) + Filter(s[1..], p)
  }

  /** The lower limit, inclusive; no limit keeps everything. */
  function AboveMin(minFr: Option<real>): Candidate -> bool
  {
    (c: Candidate) => minFr.None? || c.0 >= minFr.value
  }

  /** The upper limit, inclusive; no limit keeps everything. */
  function BelowMax(maxFr: Option<real>): Candidate -> bool
  {
    (c: Candidate) => maxFr.None? || c.0 <= maxFr.value
  }

  /** A frequency inside both limits. */
  predicate InLimits(fr: real, minFr: Option<real>, maxFr: Option<real>)
  {
    (minFr.None? || fr >= minFr.value) && (maxFr.None? || fr <= maxFr.value)
  }

  /** The per-value scale, the identity when none is given. */
  function ScaleOrIdentity(perElement: Option<real -> real>): real -> real
  {
    if perElement.Some? then perElement.value else x => x
  }

  /** The bin of a kept candidate: its frequency and the scaled magnitude of its FFT value. */
  function ToBin(c: Candidate, norm: Complex -> real, perElement: Option<real -> real>): Bin
  {
    Bin(c.0, ScaleOrIdentity(perElement)(norm(c.1)))
  }

  /** The bins `fft_result_to_spectrum` builds the spectrum from. */
  function FftResultToBins(fft: seq<Complex>, resolution: real, minFr: Option<real>, maxFr: Option<real>,
                           norm: Complex -> real, perElement: Option<real -> real>): (bins: seq<Bin>)
    ensures |bins| <= TakeCount(|fft|)
  {
    var kept := Kept(fft, resolution, minFr, maxFr);
    seq(|kept|, i requires 0 <= i < |kept| => ToBin(kept[i], norm, perElement))
  }

  /** The two `filter` steps: the candidates at or above the lower limit, then at or below the upper one. */
  function Kept(fft: seq<Complex>, resolution: real, minFr: Option<real>, maxFr: Option<real>): (kept: seq<Candidate>)
    ensures |kept| <= TakeCount(|fft|)
  {
    Filter(Filter(Candidates(fft, resolution), AboveMin(minFr)), BelowMax(maxFr))
  }

  // ---------------------------------------------------------------------
  // Filtering a monotone condition

  lemma {:induction false} FilterAll<T>(s: seq<T>, p: T -> bool)
    requires forall i :: 0 <= i < |s| ==> p(s[i])
    ensures Filter(s, p) == s
  {
    if s != [] {
      FilterAll(s[1..], p);
    }
  }

  lemma {:induction false} FilterNone<T>(s: seq<T>, p: T -> bool)
    requires forall i :: 0 <= i < |s| ==> !p(s[i])
    ensures Filter(s, p) == []
  {
    if s != [] {
      FilterNone(s[1..], p);
    }
  }

  /** A condition that, once true, stays true along `s` keeps a suffix of `s`. */
  lemma {:induction false} FilterUpwardClosed<T>(s: seq<T>, p: T -> bool) returns (lo: nat)
    requires forall i, j :: 0 <= i <= j < |s| && p(s[i]) ==> p(s[j])
    ensures lo <= |s| && Filter(s, p) == s[lo..]
    ensures forall i :: 0 <= i < |s| ==> (p(s[i]) <==> lo <= i)
  {
    if s == [] {
      lo := 0;
    } else if p(s[0]) {
      FilterAll(s, p);
      lo := 0;
    } else {
      var rest := s[1..];
      var l := FilterUpwardClosed(rest, p);
      lo := l + 1;
      assert rest[l..] == s[lo..];
      forall i | 0 < i < |s|
        ensures p(s[i]) <==> lo <= i
      {
        assert s[i] == rest[i - 1];
      }
    }
  }

  /** A condition that, once false, stays false along `s` keeps a prefix of `s`. */
  lemma {:induction false} FilterDownwardClosed<T>(s: seq<T>, p: T -> bool) returns (hi: nat)
    requires forall i, j :: 0 <= i <= j < |s| && p(s[j]) ==> p(s[i])
    ensures hi <= |s| && Filter(s, p) == s[..hi]
    ensures forall i :: 0 <= i < |s| ==> (p(s[i]) <==> i < hi)
  {
    if s == [] {
      hi := 0;
    } else if !p(s[0]) {
      FilterNone(s, p);
      hi := 0;
    } else {
      var rest := s[1..];
      var h := FilterDownwardClosed(rest, p);
      hi := h + 1;
      assert [s[0]] + rest[..h] == s[..hi];
      forall i | 0 < i < |s|
        ensures p(s[i]) <==> i < hi
      {
        assert s[i] == rest[i - 1];
      }
    }
  }

  /** Filtering by an upward-closed condition and then by a downward-closed one keeps a run `lo..hi`. */
  lemma FilterTwiceRun<T>(s: seq<T>, p: T -> bool, q: T -> bool) returns (lo: nat, hi: nat)
    requires forall i, j :: 0 <= i <= j < |s| ==> (p(s[i]) ==> p(s[j])) && (q(s[j]) ==> q(s[i]))
    ensures lo <= hi <= |s| && Filter(Filter(s, p), q) == s[lo..hi]
    ensures forall i :: 0 <= i < |s| ==> (p(s[i]) && q(s[i]) <==> lo <= i < hi)
  {
    lo := FilterUpwardClosed(s, p);
    var tail := s[lo..];
    SuffixDownwardClosed(s, q, lo);
    var h := FilterDownwardClosed(tail, q);
    hi := lo + h;
    assert tail[..h] == s[lo..hi];
    forall i | lo <= i < |s|
      ensures q(s[i]) <==> i < hi
    {
      assert tail[i - lo] == s[i];
    }
  }

  lemma SuffixDownwardClosed<T>(s: seq<T>, q: T -> bool, lo: nat)
    requires lo <= |s|
    requires forall i, j :: 0 <= i <= j < |s| && q(s[j]) ==> q(s[i])
    ensures forall i, j :: 0 <= i <= j < |s[lo..]| && q(s[lo..][j]) ==> q(s[lo..][i])
  {
    var tail := s[lo..];
    forall i, j | 0 <= i <= j < |tail| && q(tail[j])
      ensures q(tail[i])
    {
      assert tail[i] == s[lo + i] && tail[j] == s[lo + j];
    }
  }

  lemma MulMonotone(i: nat, j: nat, resolution: real)
    requires i <= j && resolution >= 0.0
    ensures i as real * resolution <= j as real * resolution
  {
    assert j as real * resolution - i as real * resolution == (j - i) as real * resolution;
  }

  // ---------------------------------------------------------------------
  // What the pipeline produces

  /** Along the candidates the lower limit, once met, stays met, and the upper one, once broken, stays broken. */
  lemma LimitsMonotone(fft: seq<Complex>, resolution: real, minFr: Option<real>, maxFr: Option<real>)
    requires resolution >= 0.0
    ensures var cands := Candidates(fft, resolution);
      forall i, j :: 0 <= i <= j < |cands| ==>
        (AboveMin(minFr)(cands[i]) ==> AboveMin(minFr)(cands[j])) &&
        (BelowMax(maxFr)(cands[j]) ==> BelowMax(maxFr)(cands[i]))
  {
    var cands := Candidates(fft, resolution);
    forall i, j | 0 <= i <= j < |cands|
      ensures AboveMin(minFr)(cands[i]) ==> AboveMin(minFr)(cands[j])
      ensures BelowMax(maxFr)(cands[j]) ==> BelowMax(maxFr)(cands[i])
    {
      CandidatesAscend(fft, resolution, i, j);
      LimitsOrdered(minFr, maxFr, cands[i], cands[j]);
    }
  }

  /** With a non-negative resolution, later candidates lie at no lower frequency. */
  lemma CandidatesAscend(fft: seq<Complex>, resolution: real, i: nat, j: nat)
    requires resolution >= 0.0 && i <= j < TakeCount(|fft|)
    ensures Candidates(fft, resolution)[i].0 <= Candidates(fft, resolution)[j].0
  {
    var cands := Candidates(fft, resolution);
    assert cands[i] == (IndexFrequency(i, resolution), fft[i]);
    assert cands[j] == (IndexFrequency(j, resolution), fft[j]);
    MulMonotone(i, j, resolution);
  }

  lemma LimitsOrdered(minFr: Option<real>, maxFr: Option<real>, c: Candidate, d: Candidate)
    requires c.0 <= d.0
    ensures AboveMin(minFr)(c) ==> AboveMin(minFr)(d)
    ensures BelowMax(maxFr)(d) ==> BelowMax(maxFr)(c)
  {
  }

  /** The two filters, applied in turn to monotone conditions, keep one run `lo..hi` of the candidates. */
  lemma FiltersKeepRun(fft: seq<Complex>, resolution: real, minFr: Option<real>, maxFr: Option<real>) returns (lo: nat, hi: nat)
    requires resolution >= 0.0
    ensures lo <= hi <= TakeCount(|fft|)
    ensures Kept(fft, resolution, minFr, maxFr) == Candidates(fft, resolution)[lo..hi]
    ensures var cands := Candidates(fft, resolution);
      forall i :: 0 <= i < |cands| ==> (AboveMin(minFr)(cands[i]) && BelowMax(maxFr)(cands[i]) <==> lo <= i < hi)
  {
    LimitsMonotone(fft, resolution, minFr, maxFr);
    lo, hi := FilterTwiceRun(Candidates(fft, resolution), AboveMin(minFr), BelowMax(maxFr));
  }

  /** With a non-negative resolution the kept candidates are one run `lo..hi`, the indices inside the limits. */
  lemma KeptIsRun(fft: seq<Complex>, resolution: real, minFr: Option<real>, maxFr: Option<real>) returns (lo: nat, hi: nat)
    requires resolution >= 0.0
    ensures lo <= hi <= TakeCount(|fft|)
    ensures Kept(fft, resolution, minFr, maxFr) == Candidates(fft, resolution)[lo..hi]
    ensures forall i :: 0 <= i < TakeCount(|fft|) ==> (InLimits(IndexFrequency(i, resolution), minFr, maxFr) <==> lo <= i < hi)
  {
    lo, hi := FiltersKeepRun(fft, resolution, minFr, maxFr);
    var cands := Candidates(fft, resolution);
    forall i | 0 <= i < TakeCount(|fft|)
      ensures InLimits(IndexFrequency(i, resolution), minFr, maxFr) <==> lo <= i < hi
    {
      assert cands[i].0 == IndexFrequency(i, resolution);
    }
  }

  /**
   * With a non-negative resolution an index is kept exactly when its
   * frequency lies inside the limits, and the kept indices form one run
   * `lo..hi`: the bins are those indices in order, each at its frequency
   * with the scaled magnitude of its FFT value.
   */
  lemma MapperKeepsIndicesInLimits(fft: seq<Complex>, resolution: real, minFr: Option<real>, maxFr: Option<real>,
                                   norm: Complex -> real, perElement: Option<real -> real>) returns (lo: nat, hi: nat)
    requires resolution >= 0.0
    ensures lo <= hi <= TakeCount(|fft|)
    ensures forall i :: 0 <= i < TakeCount(|fft|) ==> (InLimits(IndexFrequency(i, resolution), minFr, maxFr) <==> lo <= i < hi)
    ensures var bins := FftResultToBins(fft, resolution, minFr, maxFr, norm, perElement);
      && |bins| == hi - lo
      && forall k :: 0 <= k < |bins| ==>
           bins[k] == Bin(IndexFrequency(lo + k, resolution), ScaleOrIdentity(perElement)(norm(fft[lo + k])))
  {
    lo, hi := KeptIsRun(fft, resolution, minFr, maxFr);
    var kept := Kept(fft, resolution, minFr, maxFr);
    var cands := Candidates(fft, resolution);
    var bins := FftResultToBins(fft, resolution, minFr, maxFr, norm, perElement);
    forall k | 0 <= k < |bins|
      ensures bins[k] == Bin(IndexFrequency(lo + k, resolution), ScaleOrIdentity(perElement)(norm(fft[lo + k])))
    {
      assert kept[k] == cands[lo + k];
    }
  }

  /** At most N/2 + 1 bins, all inside the limits. */
  lemma MapperBounds(fft: seq<Complex>, resolution: real, minFr: Option<real>, maxFr: Option<real>,
                     norm: Complex -> real, perElement: Option<real -> real>)
    requires resolution >= 0.0
    ensures var bins := FftResultToBins(fft, resolution, minFr, maxFr, norm, perElement);
      && |bins| <= |fft| / 2 + 1
      && forall k :: 0 <= k < |bins| ==> InLimits(bins[k].freq, minFr, maxFr)
  {
    var lo, hi := MapperKeepsIndicesInLimits(fft, resolution, minFr, maxFr, norm, perElement);
  }

  /** Bins at the frequencies of consecutive indices are `resolution` apart. */
  lemma IndexRunEvenlySpaced(bins: seq<Bin>, lo: nat, resolution: real)
    requires forall k :: 0 <= k < |bins| ==> bins[k].freq == IndexFrequency(lo + k, resolution)
    ensures EvenlySpaced(bins, resolution)
  {
    forall k | 0 <= k < |bins| - 1
      ensures bins[k + 1].freq == bins[k].freq + resolution
    {
      assert IndexFrequency(lo + k + 1, resolution) == IndexFrequency(lo + k, resolution) + resolution;
    }
  }

  /** The bins are `resolution` apart, hence strictly ascending when the resolution is positive. */
  lemma MapperEvenlySpaced(fft: seq<Complex>, resolution: real, minFr: Option<real>, maxFr: Option<real>,
                           norm: Complex -> real, perElement: Option<real -> real>)
    requires resolution >= 0.0
    ensures EvenlySpaced(FftResultToBins(fft, resolution, minFr, maxFr, norm, perElement), resolution)
    ensures resolution > 0.0 ==> StrictlyAscending(FftResultToBins(fft, resolution, minFr, maxFr, norm, perElement))
  {
    var bins := FftResultToBins(fft, resolution, minFr, maxFr, norm, perElement);
    var lo, hi := MapperKeepsIndicesInLimits(fft, resolution, minFr, maxFr, norm, perElement);
    IndexRunEvenlySpaced(bins, lo, resolution);
    if resolution > 0.0 {
      EvenlySpacedIsAscending(bins, resolution);
    }
  }

  /** Without limits every index from 0 to N/2 becomes a bin. */
  lemma MapperWithoutLimits(fft: seq<Complex>, resolution: real, norm: Complex -> real, perElement: Option<real -> real>)
    requires resolution >= 0.0
    ensures var bins := FftResultToBins(fft, resolution, None, None, norm, perElement);
      && |bins| == TakeCount(|fft|)
      && forall i :: 0 <= i < |bins| ==> bins[i] == Bin(IndexFrequency(i, resolution), ScaleOrIdentity(perElement)(norm(fft[i])))
  {
    var lo, hi := MapperKeepsIndicesInLimits(fft, resolution, None, None, norm, perElement);
    if TakeCount(|fft|) > 0 {
      assert InLimits(IndexFrequency(0, resolution), None, None);
      assert InLimits(IndexFrequency(TakeCount(|fft|) - 1, resolution), None, None);
    }
  }

  /**
   * Without limits, an even-length FFT of at least two values spans 0 Hz to
   * half the sampling rate, and the spectrum has a DC component.
   */
  lemma MapperSpansZeroToNyquist(fft: seq<Complex>, samplingRate: nat, norm: Complex -> real, perElement: Option<real -> real>)
    requires |fft| >= 2 && |fft| % 2 == 0
    ensures var bins := FftResultToBins(fft, FrequencyResolution(samplingRate, |fft|), None, None, norm, perElement);
      && |bins| == |fft| / 2 + 1
      && bins[0].freq == 0.0
      && Last(bins).freq == samplingRate as real / 2.0
      && SpectrumQueries.DcComponentOf(bins) == Some(ScaleOrIdentity(perElement)(norm(fft[0])))
  {
    var resolution := FrequencyResolution(samplingRate, |fft|);
    MapperWithoutLimits(fft, resolution, norm, perElement);
    NyquistIndex(samplingRate, |fft|);
  }

  // ---------------------------------------------------------------------
  // fft_result_to_spectrum

  /** The per-value function the total scaling factory builds from the statistics of `bins`. */
  function TotalScale(bins: seq<Bin>, factory: ComplexScalingFunction): real -> real
    requires |bins| >= 2
  {
    var st := StatisticsOf(bins);
    factory(st.min.value, st.max.value, st.average, st.median)
  }

  /**
   * Builds the spectrum from the selected bins, which fails with fewer than
   * two of them, then applies the total scaling, if any, exactly once.
   */
  method FftResultToSpectrum(fft: seq<Complex>, samplingRate: nat, minFr: Option<real>, maxFr: Option<real>,
                             norm: Complex -> real, perElement: Option<real -> real>,
                             total: Option<ComplexScalingFunction>)
    returns (r: Result<Spectrum.FrequencySpectrum, SpectrumError>)
    ensures |fft| == 0 ==> r == Failure(TooFewBins)
    ensures |fft| > 0 ==>
      var resolution := FrequencyResolution(samplingRate, |fft|);
      var bins := FftResultToBins(fft, resolution, minFr, maxFr, norm, perElement);
      && (r.Failure? <==> |bins| < 2)
      && (r.Failure? ==> r.error == TooFewBins)
      && (r.Success? ==>
            && fresh(r.value) && fresh(r.value.data) && r.value.Valid()
            && r.value.frequencyResolution == resolution
            && r.value.data[..] == if total.None? then bins else ScaleValues(bins, TotalScale(bins, total.value)))
  {
    if |fft| == 0 {
      // no values: no bins, and the spectrum cannot be built
      return Failure(TooFewBins);
    }
    var resolution := FrequencyResolution(samplingRate, |fft|);
    var bins := FftResultToBins(fft, resolution, minFr, maxFr, norm, perElement);
    var created := Spectrum.FrequencySpectrum.New(bins, resolution);
    if created.Failure? {
      return Failure(created.error);
    }
    var spectrum := created.value;
    if total.Some? {
      spectrum.ApplyComplexScalingFn(total.value);
    }
    return Success(spectrum);
  }

  // ---------------------------------------------------------------------
  // samples_to_complex

  /**
   * An array of `n` complex numbers holding the samples as real parts, with
   * imaginary part zero, and zero in every slot after the samples.
   */
  method SamplesToComplex(samples: seq<real>, n: nat) returns (complex: array<Complex>)
    requires |samples| <= n
    ensures fresh(complex) && complex.Length == n
    ensures forall i :: 0 <= i < |samples| ==> complex[i] == Complex(samples[i], 0.0)
    ensures forall i :: |samples| <= i < n ==> complex[i] == Zero
  {
    complex := new Complex[n](_ => Zero);
    for i := 0 to |samples|
      invariant forall k :: 0 <= k < i ==> complex[k] == Complex(samples[k], 0.0)
      invariant forall k :: i <= k < n ==> complex[k] == Zero
    {
      complex[i] := Complex(samples[i], 0.0);
    }
  }
}
