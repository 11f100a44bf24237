/**
 * The real-input FFT back end: dispatch on the number of samples to the
 * transform of that size, then unpack the Nyquist coefficient that the
 * transform stores in the imaginary part of the DC bin into a bin of its own.
 *
 * The transform itself is a parameter `rfft`; for the supported sizes it
 * returns `n / 2` complex values.
 */
module MicrofftReal {
  import opened Wrappers
  import opened ComplexNumbers

  datatype FftError = UnsupportedLength(len: nat)

  /** The sizes with a transform: 2, 4, 8, ..., 16384. */
  predicate SupportedLength(n: nat)
  {
    n == 2 || n == 4 || n == 8 || n == 16 || n == 32 || n == 64 || n == 128 ||
    n == 256 || n == 512 || n == 1024 || n == 2048 || n == 4096 || n == 8192 || n == 16384
  }

  predicate IsPowerOfTwo(n: nat)
  {
    n == 1 || (n > 1 && n % 2 == 0 && IsPowerOfTwo(n / 2))
  }

  /** The supported sizes are exactly the powers of two from 2 to 16384. */
  lemma {:induction false} SupportedLengthIsPowerOfTwo(n: nat)
    ensures SupportedLength(n) <==> IsPowerOfTwo(n) && 2 <= n <= 16384
  {
    if n > 2 && n % 2 == 0 {
      SupportedLengthIsPowerOfTwo(n / 2);
    }
  }

  /** The number of values `FftApply` returns for `samplesLen` samples. */
  function RelevantResSamplesCount(samplesLen: nat): (r: nat)
    ensures r >= 1 && 2 * (r - 1) <= samplesLen < 2 * r
  {
    samplesLen / 2 + 1
  }

  /**
   * `fft_apply`: fails for an unsupported size; otherwise the transform's
   * values with the DC bin's imaginary part cleared and the Nyquist value,
   * taken from there, appended as a real-valued last bin.
   */
  method FftApply(samples: seq<real>, rfft: seq<real> -> seq<Complex>) returns (r: Result<seq<Complex>, FftError>)
    requires SupportedLength(|samples|) ==> |rfft(samples)| == |samples| / 2
    ensures r.Failure? <==> !SupportedLength(|samples|)
    ensures r.Failure? ==> r.error == UnsupportedLength(|samples|)
    ensures r.Success? ==> |r.value| == RelevantResSamplesCount(|samples|)
    ensures r.Success? ==> r.value[0] == Complex(rfft(samples)[0].re, 0.0)
    ensures r.Success? ==> r.value[|r.value| - 1] == Complex(rfft(samples)[0].im, 0.0)
    ensures r.Success? ==> forall k :: 1 <= k < |samples| / 2 ==> r.value[k] == rfft(samples)[k]
  {
    if !SupportedLength(|samples|) {
      return Failure(UnsupportedLength(|samples|));
    }
    var res := rfft(samples);
    var nyquist := res[0].im;
    res := res[0 := Complex(res[0].re, 0.0)];
    res := res + [Complex(nyquist, 0.0)];
    return Success(res);
  }
}
