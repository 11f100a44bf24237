# spectrum-analyzer core in Dafny

This project models the spectrum engine of the `spectrum-analyzer` Rust library.
The engine turns FFT output into a frequency spectrum and answers questions about it.
It has three parts.

- **`FrequencySpectrum`** (`spectrum.dfy`, with `statistics.dfy` and `queries.dfy`) is a class.
  - It holds an array of (frequency, value) bins, a frequency resolution, and four cached statistics: min bin, max bin, average and median.
  - `Valid()` is its invariant: the cached statistics describe the current bins.
  - Construction establishes it. The in-place rescale keeps it.
  - The exact-value and closest-bin lookups are loops, proved equal to the functions `ExactValueAt` and `ClosestAt`.
  - Lemmas about those functions state what the lookups promise: bounds failures, interpolation on the bracketing segment, nearest bin with the tie going up, and the source's test values.
- **The bin mapper** (`bin_mapper.dfy`) builds the bins.
  - It keeps FFT indices 0 to N/2.
  - Index `i` gets frequency `i * rate / N`.
  - Bins outside the inclusive limits are dropped.
  - Each kept value is the norm of the complex value, optionally scaled per element.
  - It then builds the spectrum and applies the optional total scaling once.
  - The main lemma shows that the kept indices form exactly one run `lo..hi`: the indices whose frequency lies inside the limits.
  - `samples_to_complex` is an array loop.
- **The real-FFT back end** (`microfft_real.dfy`) dispatches on the sample count (powers of two from 2 to 16384).
  - It moves the Nyquist coefficient out of the imaginary part of the DC bin into a new last bin.

Modelling choices:

- `f32` is modelled as `real`, and the 3-ULP `approx_eq!` comparison as exact equality.
- Panics become `Result` failures: `TooFewBins`, `FrequencyOutOfBounds` and `UnsupportedLength`.
- These are function-valued parameters: the FFT routines (`rfft`), the complex norm, and every caller-supplied closure (per-element scale, total-scaling factory, `to_map` key function).
- The stable `sort_by` on values is modelled as a stable insertion sort, `SortByValue`.

Two points of the statistics are decided by the code itself:

- **Median length.** The comment at src/spectrum.rs:444-445 assumes the sorted copy has an even length. But the mapper keeps N/2 + 1 bins (src/lib.rs:206), which is odd for every N ≥ 4. The model stores the median exactly as the code computes it (`MedianAsWritten`), and proves a corrected `Median` separately. See "Findings".
- **Sort stability.** The `sort_by` at src/spectrum.rs:429 is a stable sort, and so is the model's `SortByValue`. This decides which of several equal-valued bins becomes `min` or `max`.

## Model

| member | source | states |
|---|---|---|
| SpectrumData.EvenlySpacedIsAscending | src/spectrum.rs:64-71 | bins spaced by a positive resolution are strictly ascending in frequency |
| SpectrumData.ScalingKeepsFrequencies | src/spectrum.rs:47-48 | rescaling changes values only: every frequency, and hence the ascending order, is kept |
| SpectrumData.ScaleValues | src/spectrum.rs:143-145 | every bin keeps its frequency and gets `f(value)` as its value, in the same order; the length is kept |
| SpectrumStatistics.SortByValueSorted | src/spectrum.rs:428-432 | the sorted copy is ordered by value and is a permutation of the bins |
| SpectrumStatistics.Insert | src/spectrum.rs:428-432 | one step of the stable sort: the bin goes before the first bin whose value is not smaller, so equal values keep their order; the length grows by one |
| SpectrumStatistics.SortByValue | src/spectrum.rs:428-432 | the stable sort by value, as insertion of each bin into the sorted rest; keeps the length (order and permutation in `SortByValueSorted`) |
| SpectrumStatistics.Sum | src/spectrum.rs:435-438 | the left fold `0.0 + v0 + v1 + ...` over the values, first bin first (its properties in `SumSortByValue`, `SumBounds`) |
| SpectrumStatistics.StatisticsOf | src/spectrum.rs:427-464 | the four statistics of the bins: first and last bin of the sorted copy, sum over count, and the as-written median (properties in `StatisticsProperties`) |
| SpectrumStatistics.MedianAsWritten | src/spectrum.rs:443-449 | the code's median, the mean of the sorted values at positions len/2 - 1 and len/2 for every length (the as-written half of "Findings") |
| SpectrumStatistics.Median | src/spectrum.rs:443-449 | the corrected median: the middle value for an odd length, the mean of the two middle values for an even one (proved a median by `MedianIsMedian`) |
| SpectrumStatistics.SumSortByValue | src/spectrum.rs:435-438 | summing the sorted copy gives the sum of the bins in their own order |
| SpectrumStatistics.ExtremaProperties | src/spectrum.rs:454-460 | `min` and `max` are bins of the spectrum whose values bound every value |
| SpectrumStatistics.MinIsFirstSmallest | src/spectrum.rs:428-432 | `min` is the first bin, in frequency order, that has the smallest value (stable sort) |
| SpectrumStatistics.MaxIsLastLargest | src/spectrum.rs:428-432 | `max` is the last bin, in frequency order, that has the largest value (stable sort) |
| SpectrumStatistics.AverageProperties | src/spectrum.rs:434-441 | `average` is the sum of the values over the count, and lies between min and max |
| SpectrumStatistics.MedianIsMedian | src/spectrum.rs:443-449 | the corrected median has at most half of the values strictly below it and at most half strictly above it |
| SpectrumStatistics.MedianProperties | src/spectrum.rs:443-449 | the stored median is the mean of the sorted values at positions len/2 - 1 and len/2, for every length; it lies between min and max, and for an even length it is a median of the values |
| SpectrumStatistics.StatisticsProperties | src/spectrum.rs:427-464 | all four statistics together, including `min.1 <= max.1`; the median is the as-written mean of the two middle positions, between min and max, and a median of the values for an even length |
| SpectrumStatistics.ScalingMonotoneExtrema | src/spectrum.rs:131-149 | after a non-decreasing rescale the new min and max values are the images of the old ones |
| SpectrumStatistics.ScalingAffineAverage | src/spectrum.rs:131-149 | after an affine rescale `a*x + b` the new average is `a * average + b` |
| SpectrumStatistics.ExampleSorted | src/spectrum.rs:428-432 | the sorted copy of the test's eight bins, with the tie at 100 kept in frequency order |
| SpectrumStatistics.ExampleStatistics | src/spectrum.rs:613-625 | the test spectrum has min (300, 0), max (450, 200), average 78.125 and median 75 |
| SpectrumStatistics.TestValuesStatistics | src/spectrum.rs:427-456 | any eight bins with the test's values have as min the bin of value 0, as max the bin of value 200, average 78.125 and median 75, whatever their frequencies |
| SpectrumStatistics.MedianAsWrittenOddLength | src/spectrum.rs:443-449 | for three bins of values 1, 2, 3 the as-written median is 1.5, which is not a median; the corrected one is 2 |
| SpectrumStatistics.MedianAgreesOnEvenLength | src/spectrum.rs:443-449 | on an even number of bins the corrected median equals the as-written one |
| SpectrumQueries.YCoordBetweenPoints | src/spectrum.rs:494-508 | the result lies on the straight line through the two points |
| SpectrumQueries.YCoordAtEndpoints | src/spectrum.rs:494-508 | the line gives `y1` at `x1` and `y2` at `x2` |
| SpectrumQueries.YCoordMidpoint | src/spectrum.rs:494-508 | halfway between the points the value is `(y1 + y2) / 2` |
| SpectrumQueries.YCoordBetween | src/spectrum.rs:482-492 | strictly between the points, the value lies between their values |
| SpectrumQueries.YCoordExamples | src/spectrum.rs:516-541 | (100, 1) and (200, 0) give 0.5 at 150 and 0.2 at 180 |
| SpectrumQueries.FirstWindow | src/spectrum.rs:283-296 | the window search stops at the first window whose upper frequency is not below the search frequency; one exists, so the panic after the loop is unreachable |
| SpectrumQueries.ExactValueAt | src/spectrum.rs:255-310 | `freq_val_exact`: the first or last value at an end, failure outside the range, otherwise the stored value at the window's lower point or the interpolation in the first window reaching the search (properties in the `Exact…` lemmas) |
| SpectrumQueries.ExactFailsIffOutOfBounds | src/spectrum.rs:264-278 | `freq_val_exact` fails exactly when the frequency is outside [first, last] and hits neither end |
| SpectrumQueries.ExactAtStoredFrequency | src/spectrum.rs:255-310 | on ascending bins, a stored frequency gives back its stored value |
| SpectrumQueries.ExactIsOnSegment | src/spectrum.rs:283-307 | inside the range, the result lies on the segment between the two bins bracketing the frequency |
| SpectrumQueries.ExactBetweenNeighbours | src/spectrum.rs:236-253 | an interpolated value never leaves the range of its two neighbours' values |
| SpectrumQueries.ExactExamples | src/spectrum.rs:633-742 | the test values at 0, 200, 375 and 450 Hz, and the failures at -1 and 451 Hz |
| SpectrumQueries.CloserToLower | src/spectrum.rs:376-382 | `delta_to_a / resolution < 0.5`, with IEEE division when the resolution is zero |
| SpectrumQueries.ClosestAt | src/spectrum.rs:331-387 | `freq_val_closest`: the end bins by equality, failure outside the range, otherwise the window's lower bin when the search is less than half a resolution above it, else the upper bin (properties in the `Closest…` lemmas) |
| SpectrumQueries.ClosestFailsIffOutOfBounds | src/spectrum.rs:340-355 | `freq_val_closest` fails exactly for the frequencies `freq_val_exact` rejects |
| SpectrumQueries.ClosestIsElement | src/spectrum.rs:357-384 | the answer is always one of the spectrum's bins |
| SpectrumQueries.ClosestRounds | src/spectrum.rs:365-382 | on evenly spaced bins the answer is the lower bin of the bracketing window iff the frequency is less than half a resolution above it; a tie goes to the upper bin |
| SpectrumQueries.ClosestIsNearest | src/spectrum.rs:312-330 | on evenly spaced bins no bin is closer to the frequency than the answer |
| SpectrumQueries.ClosestAtStoredFrequency | src/spectrum.rs:331-387 | on evenly spaced bins a stored frequency is its own closest bin |
| SpectrumQueries.ClosestExamplesAtEnds | src/spectrum.rs:669-698 | the test values at 0, 50, 450, 47.3 and 51.3 Hz |
| SpectrumQueries.ClosestExamplesInGap | src/spectrum.rs:683-690 | 448 Hz and 400 Hz both give the 450 Hz bin |
| SpectrumQueries.ClosestInGapNotNearest | src/spectrum.rs:370-383 | in the 300-450 Hz window, 340 Hz gives the 450 Hz bin although the 300 Hz bin is nearer |
| SpectrumQueries.ClosestDocumentedExample | src/spectrum.rs:312-319 | on 100, 200, 300, 400 Hz, a search at 320 Hz gives (300, 0.5) |
| SpectrumQueries.DcComponentIsValueAtZero | src/spectrum.rs:226-234 | the DC component is present iff the first bin is at 0 Hz, and then it is the exact value at 0 Hz |
| SpectrumQueries.DcComponentExamples | src/spectrum.rs:808-821 | the test spectrum has DC component 5; one starting at 150 Hz has none |
| SpectrumQueries.DcComponentOf | src/spectrum.rs:226-234 | the first bin's value when that bin lies at exactly 0 Hz, otherwise none (properties in `DcComponentIsValueAtZero`) |
| SpectrumQueries.DefaultKey | src/spectrum.rs:411 | `fr as u32` is the whole part of the frequency, saturated at 0 and at 2^32 - 1 |
| SpectrumQueries.BinsToMap | src/spectrum.rs:401-417 | the map's keys are exactly the keys of the bins' frequencies |
| SpectrumQueries.KeyFunction | src/spectrum.rs:401-417 | the key of a frequency: the given scaling function, or `fr as u32` (`DefaultKey`) without one |
| SpectrumQueries.ToMap | src/spectrum.rs:401-417 | `to_map`: the bins collected in order under their keys; the keys are exactly the bins' keys (values in `ToMapValues`) |
| SpectrumQueries.ToMapValues | src/spectrum.rs:401-417 | every bin with no later bin of the same key has its value stored under its key, as collecting into a `BTreeMap` overwrites earlier entries |
| SpectrumQueries.BinsToMapLastWins | src/spectrum.rs:401-417 | each key holds the value of the last bin with that key |
| SpectrumQueries.ToMapKeepsEveryBin | src/spectrum.rs:401-417 | with distinct keys, the map has one entry per bin, holding that bin's value |
| Spectrum.FrequencySpectrum.constructor | src/spectrum.rs:97-123 | the bins are taken over unchanged and the statistics describe them |
| Spectrum.FrequencySpectrum.New | src/spectrum.rs:97-123 | construction fails iff there are fewer than two bins; otherwise the new spectrum is valid and holds the bins in their order |
| Spectrum.FrequencySpectrum.CalcStatistics | src/spectrum.rs:427-464 | the loop's sum over the sorted copy gives the fields `StatisticsOf` the bins, with the median as the code computes it for every length; the bins are not touched |
| Spectrum.FrequencySpectrum.ApplyComplexScalingFn | src/spectrum.rs:131-149 | the factory is applied once to the old statistics, every value is replaced in place by the resulting function, and the statistics are recomputed |
| Spectrum.FrequencySpectrum.Range | src/spectrum.rs:179-181 | the largest difference between two values of the spectrum, hence non-negative |
| Spectrum.FrequencySpectrum.MinFr | src/spectrum.rs:206-209 | on ascending bins, no bin lies below the first frequency |
| Spectrum.FrequencySpectrum.MaxFr | src/spectrum.rs:198-201 | on ascending bins, no bin lies above the last frequency |
| Spectrum.FrequencySpectrum.DcComponent | src/spectrum.rs:226-234 | present iff the first bin is at 0 Hz; then it is a stored value at 0 Hz and the exact value there |
| Spectrum.FrequencySpectrum.FindWindow | src/spectrum.rs:283-296 | the window loop stops at `FirstWindow` |
| Spectrum.FrequencySpectrum.FreqValExact | src/spectrum.rs:255-310 | the method equals `ExactValueAt` on the current bins |
| Spectrum.FrequencySpectrum.FreqValClosest | src/spectrum.rs:331-387 | the method equals `ClosestAt` on the current bins and resolution |
| Spectrum.FrequencySpectrum.ToMap | src/spectrum.rs:401-417 | every bin's key is in the map, every key comes from a bin, and a bin with no later bin of the same key has its value stored under its key |
| BinMapper.FrequencyResolution | src/lib.rs:277-297 | resolution times sample count is the sampling rate; it is positive iff the rate is |
| BinMapper.NyquistIndex | src/lib.rs:284-293 | for an even N, index N/2 lies at half the sampling rate |
| BinMapper.TakeCount | src/lib.rs:206 | for a non-empty FFT result, exactly N/2 + 1 values are looked at |
| BinMapper.Candidates | src/lib.rs:194-246 | the first N/2 + 1 FFT values, index `i` paired with frequency `i * resolution` |
| BinMapper.Filter | src/lib.rs:194-246 | keeps, in order, the elements that satisfy the condition; never longer than its input |
| BinMapper.AboveMin | src/lib.rs:194-246 | the lower limit test, inclusive; true for every candidate without a limit |
| BinMapper.BelowMax | src/lib.rs:194-246 | the upper limit test, inclusive; true for every candidate without a limit |
| BinMapper.Kept | src/lib.rs:194-246 | the candidates kept by the lower limit filter and then the upper one (one run by `KeptIsRun`) |
| BinMapper.ScaleOrIdentity | src/lib.rs:194-246 | the per-element scale, or the identity when none is given |
| BinMapper.ToBin | src/lib.rs:194-246 | a kept candidate becomes the bin at its frequency holding the scaled norm of its FFT value |
| BinMapper.FftResultToBins | src/lib.rs:194-246 | the bins `fft_result_to_spectrum` builds: the kept candidates mapped by `ToBin`, at most N/2 + 1 of them (characterised by `MapperKeepsIndicesInLimits`) |
| BinMapper.FilterTwiceRun | src/lib.rs:221-237 | filtering by the lower limit and then by the upper limit keeps one contiguous run |
| BinMapper.KeptIsRun | src/lib.rs:206-237 | the kept candidates are the run of indices whose frequency lies inside the inclusive limits |
| BinMapper.MapperKeepsIndicesInLimits | src/lib.rs:194-246 | index `i` is kept iff `i * resolution` is inside the limits; the bins are the kept indices in order, each holding `scale(norm(fft[i]))` |
| BinMapper.MapperBounds | src/lib.rs:206-237 | at most N/2 + 1 bins, every frequency inside the inclusive limits |
| BinMapper.MapperEvenlySpaced | src/lib.rs:206-246 | the bins are one resolution apart, so strictly ascending when the rate is positive |
| BinMapper.MapperWithoutLimits | src/lib.rs:206-243 | without limits every index 0..N/2 becomes a bin, with the identity scale when none is given |
| BinMapper.MapperSpansZeroToNyquist | src/lib.rs:199-206 | without limits an even-length FFT gives N/2 + 1 bins from 0 Hz to half the sampling rate, and a DC component |
| BinMapper.TotalScale | src/spectrum.rs:132-138 | the per-value function the total scaling factory builds from min value, max value, average and median of the bins |
| BinMapper.FftResultToSpectrum | src/lib.rs:175-260 | fails iff fewer than two bins are kept; otherwise the spectrum holds the mapped bins, rescaled once by the total scaling built from their statistics when one is given |
| BinMapper.SamplesToComplex | src/lib.rs:151-157 | slot `i` holds `(samples[i], 0)` for every sample, and every later slot holds `(0, 0)` |
| MicrofftReal.SupportedLengthIsPowerOfTwo | src/fft/microfft_real.rs:47-93 | the accepted lengths are exactly the powers of two from 2 to 16384 |
| MicrofftReal.SupportedLength | src/fft/microfft_real.rs:47-93 | the sample counts the dispatch chain has a transform for: 2, 4, 8, ..., 16384 |
| MicrofftReal.RelevantResSamplesCount | src/fft/microfft_real.rs:105-120 | the count is `n/2 + 1`, the one value with `2(r-1) <= n < 2r` |
| MicrofftReal.FftApply | src/fft/microfft_real.rs:44-102 | fails iff the length is unsupported; otherwise `n/2 + 1` values: bin 0 keeps its real part with imaginary part 0, the old imaginary part becomes a real last bin, and the values in between are unchanged |

## Left out

- The FFT computations themselves, `Radix4::process` and `microfft::real::rfft_*`, are foreign library calls. `FftApply` takes the transform as a parameter `rfft` and requires it to return `n/2` values for a supported length. `samples_fft_to_spectrum`, which chains the complex FFT and the mapper, is not part of this model.
- The NaN and infinity checks on the samples, and the NaN-safety test, are left out: `real` has no NaN or infinity.
- The 3-ULP tolerance of `approx_eq!` is modelled as exact equality, so the model never treats two nearly equal frequencies as equal.
- SpectrumStatistics.MedianProperties: promises that the stored median is a median of the values only for an even number of bins. The stored value is the code's mean of positions len/2 - 1 and len/2, which is not a median on odd lengths (see "Findings").
- SpectrumStatistics.StatisticsProperties: its median conjunct is limited to even lengths in the same way as MedianProperties.
- Float rounding is not modelled: interpolation, resolution, average and median are exact real arithmetic. For example, `YCoordExamples` proves 0.2 exactly, where the source tests it within 3 ULPs.
- The square root inside `Complex32::norm` is not modelled. The norm is a parameter `norm`.
- `RefCell`/`Cell` borrow checking and `Box<dyn Fn>` allocation are not modelled. Fields are plain class fields, and closures are Dafny function values.
- The const-generic array length `N` of the spectrum is the length of the bin sequence given to the constructor, copied into a new array.
- `FrequencyLimit`, `Frequency` and `FrequencyValue` are in modules that are not part of this model. Limits are `Option<real>`, and both wrappers are `real`.
- The window and scaling modules are not part of this model.
- The sampling rate is a `nat`, not a `u32`. The key function of `to_map` returns values in the 32-bit range, `U32`.
- The standard library's in-place stable sort in `calc_statistics` is modelled by the function `SortByValue` applied to a copy of the bins, not as an in-place array algorithm.
- The "Here be dragons" panic after the window loops is not modelled, because `FirstWindow` proves it cannot be reached.
- SpectrumQueries.YCoordBetweenPoints: requires `x1 != x2`. The source would divide by zero and produce an infinity or NaN. Only `freq_val_exact` calls it (src/spectrum.rs:301), and only on a window whose lower frequency is strictly below the search frequency and whose upper frequency is at or above it.
- BinMapper.FrequencyResolution: requires a non-zero sample count. The source would divide by zero; `FftResultToSpectrum` fails for an empty FFT result before it computes the resolution, as the source's `new` would.
- BinMapper.SamplesToComplex: requires at most `n` samples. The source panics on the out-of-bounds write otherwise.
- SpectrumQueries.CloserToLower: for a zero resolution, `delta / resolution < 0.5` follows IEEE division (an infinity of the sign of `delta`, or NaN for `delta = 0`). A negative zero resolution is not distinguished.
- Spectrum.FrequencySpectrum.MinFr, Spectrum.FrequencySpectrum.MaxFr: state their bound only for strictly ascending bins, because the source does not check the order of the bins it is given.
- SpectrumQueries.ClosestIsNearest, SpectrumQueries.ClosestRounds, SpectrumQueries.ClosestAtStoredFrequency: hold only for bins spaced exactly one resolution apart. The source compares against the resolution, not the width of the window, so in the test spectrum's wider 300-450 Hz window, 340 Hz goes to the 450 Hz bin although the 300 Hz bin is nearer (`ClosestInGapNotNearest`).

## Findings

| source | as written | input that shows it | evidently intended | confidence | as-written member | corrected member |
|---|---|---|---|---|---|---|
| src/spectrum.rs:443-449 | the median is always the mean of the values at positions `len/2 - 1` and `len/2`, on the stated assumption that the length is even | an unfiltered spectrum has N/2 + 1 bins, odd for every N ≥ 4; values 1, 2, 3 (N = 4) give 1.5, with two of the three values above it | the middle value for an odd length, the mean of the two middle values for an even one (`Median`; the spectrum stores `MedianAsWritten`, the code's value) | high; not executed | SpectrumStatistics.MedianAsWrittenOddLength | SpectrumStatistics.MedianIsMedian |
