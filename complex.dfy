/** The `Complex32` value the FFT libraries hand over: a real and an imaginary part. */
module ComplexNumbers {

  datatype Complex = Complex(re: real, im: real)

  /** `Complex32::default()`. */
  const Zero := Complex(0.0, 0.0)
}
