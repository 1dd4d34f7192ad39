/** Worked conversions, on the model's state and through the `Converter` class. */
module Scenarios {
  import opened PixelKind
  import opened Fill
  import opened ConvertTypeFunctor

  /** An unsigned char 200 converted to a signed char saturates at 127. */
  lemma ByteToSignedByteSaturates()
    ensures var s := State(Scalar, Scalar, 1, true, -128.0, 127.0, 1, 1, 1);
            Accepts(s, [ScalarValue(200.0)]) && Converted(s, [ScalarValue(200.0)]) == [ScalarValue(127.0)]
  {
    var s := State(Scalar, Scalar, 1, true, -128.0, 127.0, 1, 1, 1);
    ConvertedComponentwise(s, [ScalarValue(200.0)], 0);
  }

  /** A variable-length vector [300.5, -50] saturated to [0, 255] gives [255, 0]. */
  lemma VectorSaturatesBothWays()
    ensures var s := State(VecOfScalar, VecOfScalar, 0, true, 0.0, 255.0, 2, 2, 2);
            var input := [ScalarValue(300.5), ScalarValue(-50.0)];
            Accepts(s, input) && Converted(s, input) == [ScalarValue(255.0), ScalarValue(0.0)]
  {
    var s := State(VecOfScalar, VecOfScalar, 0, true, 0.0, 255.0, 2, 2, 2);
    var input := [ScalarValue(300.5), ScalarValue(-50.0)];
    ConvertedComponentwise(s, input, 0);
    ConvertedComponentwise(s, input, 1);
  }

  /** The complex value (5, -300) bounded to [-100, 100] becomes (5, -100): each part on its own. */
  lemma ComplexPartsSaturateIndependently()
    ensures var s := State(Complex, Complex, 2, false, -100.0, 100.0, 1, 2, 1);
            var input := [ComplexValue(5.0, -300.0)];
            Accepts(s, input) && Converted(s, input) == [ComplexValue(5.0, -100.0)]
  {
    var s := State(Complex, Complex, 2, false, -100.0, 100.0, 1, 2, 1);
    ConvertedComponentwise(s, [ComplexValue(5.0, -300.0)], 0);
  }

  /** Three scalars into a variable-length vector of complex numbers: two components, the third
      scalar paired with a zero imaginary part. */
  lemma OddScalarsIntoComplexVector()
    ensures var s := State(VecOfScalar, VecOfComplex, 0, false, -10.0, 10.0, 3, 3, 2);
            var input := [ScalarValue(1.0), ScalarValue(2.0), ScalarValue(3.0)];
            Accepts(s, input) && Converted(s, input) == [ComplexValue(1.0, 2.0), ComplexValue(3.0, 0.0)]
  {
    var s := State(VecOfScalar, VecOfComplex, 0, false, -10.0, 10.0, 3, 3, 2);
    var input := [ScalarValue(1.0), ScalarValue(2.0), ScalarValue(3.0)];
    assert input[..3] == input;
    FlattenStep(input, 0);
    FlattenStep(input, 1);
    FlattenStep(input, 2);
    assert input[..0] == [];
  }

  /** The class driven through its life cycle: construct, declare the input size, negotiate,
      narrow the bounds, convert. */
  method ConfigureAndConvert() {
    var f := new Converter(VecOfScalar, VecOfComplex, 0, false, -1000.0, 1000.0);
    f.SetInputComponents(3);
    var n := f.GetOutputSize();
    assert n == 2;
    f.SetLowest(-10.0);
    f.SetHighest(10.0);
    var input := [ScalarValue(1.0), ScalarValue(2.0), ScalarValue(3.0)];
    OddScalarsIntoComplexVector();
    assert f.Snapshot() == State(VecOfScalar, VecOfComplex, 0, false, -10.0, 10.0, 3, 3, 2);
    var out := f.Apply(input);
    assert out == [ComplexValue(1.0, 2.0), ComplexValue(3.0, 0.0)];
  }
}
