/**
 * The data the spectrum is made of: a bin is a (frequency, frequency value)
 * pair, the `(Frequency, FrequencyValue)` tuple of the source. `f32` is
 * modelled as `real`.
 */
module SpectrumData {

  datatype Bin = Bin(freq: real, value: real)

  /** The conditions under which the spectrum engine fails instead of answering. */
  datatype SpectrumError =
    | TooFewBins            // fewer than two bins given to the constructor
    | FrequencyOutOfBounds  // a query frequency outside [min_fr, max_fr]

  /** The total scaling function factory: (min, max, average, median) -> per-element function. */
  type ComplexScalingFunction = (real, real, real, real) -> (real -> real)

  function Last(bins: seq<Bin>): Bin
    requires |bins| > 0
  {
    bins[|bins| - 1]
  }

  /** Bins ordered by strictly ascending frequency. */
  ghost predicate StrictlyAscending(bins: seq<Bin>)
  {
    forall i, j :: 0 <= i < j < |bins| ==> bins[i].freq < bins[j].freq
  }

  /** Adjacent bins are exactly `resolution` Hertz apart. */
  ghost predicate EvenlySpaced(bins: seq<Bin>, resolution: real)
  {
    forall i :: 0 <= i < |bins| - 1 ==> bins[i + 1].freq == bins[i].freq + resolution
  }

  /** Every value replaced by `f(value)`; frequencies and order are kept. */
  function ScaleValues(bins: seq<Bin>, f: real -> real): (r: seq<Bin>)
    ensures |r| == |bins|
  {
    seq(|bins|, i requires 0 <= i < |bins| => Bin(bins[i].freq, f(bins[i].value)))
  }

  /** Evenly spaced bins with a positive spacing are strictly ascending. */
  lemma {:induction false} EvenlySpacedIsAscending(bins: seq<Bin>, resolution: real)
    requires EvenlySpaced(bins, resolution) && resolution > 0.0
    ensures StrictlyAscending(bins)
  {
    if |bins| > 1 {
      var rest := bins[1..];
      assert EvenlySpaced(rest, resolution) by {
        forall i | 0 <= i < |rest| - 1
          ensures rest[i + 1].freq == rest[i].freq + resolution
        {
          assert rest[i] == bins[i + 1] && rest[i + 1] == bins[i + 2];
        }
      }
      EvenlySpacedIsAscending(rest, resolution);
      forall i, j | 0 <= i < j < |bins|
        ensures bins[i].freq < bins[j].freq
      {
        if i == 0 {
          assert bins[1].freq == bins[0].freq + resolution;
          if j > 1 {
            assert rest[0].freq < rest[j - 1].freq;
          }
        } else {
          assert rest[i - 1].freq < rest[j - 1].freq;
        }
      }
    }
  }

  /** Scaling never moves a bin: the frequency order survives every rescale. */
  lemma ScalingKeepsFrequencies(bins: seq<Bin>, f: real -> real)
    ensures forall i :: 0 <= i < |bins| ==> ScaleValues(bins, f)[i].freq == bins[i].freq
    ensures StrictlyAscending(bins) ==> StrictlyAscending(ScaleValues(bins, f))
  {
  }

  /** The eight bins of the source's basic spectrum test (resolution 50 Hz, with a gap at 350 Hz). */
  function ExampleBins(): seq<Bin>
  {
    [Bin(0.0, 5.0), Bin(50.0, 50.0), Bin(100.0, 100.0), Bin(150.0, 150.0),
     Bin(200.0, 100.0), Bin(250.0, 20.0), Bin(300.0, 0.0), Bin(450.0, 200.0)]
  }
}
