/** Pixel kinds and pixel values.
    The C++ functor tells pixel types apart at compile time with `std::is_arithmetic`,
    `boost::is_complex` and `itk::NumericTraits<T>::ValueType`; here the outcome of that
    classification is an ordinary value of type `Kind`. */
module PixelKind {

  datatype Option<+T> = None | Some(value: T)

  /** The four shapes of pixel type the conversion distinguishes. */
  datatype Kind = Scalar | Complex | VecOfScalar | VecOfComplex

  /** `boost::is_complex` of the pixel type itself (`m_cInPix`, `m_cOutPix`). */
  predicate IsComplexPix(k: Kind) {
    k == Complex
  }

  /** `boost::is_complex` of `NumericTraits<T>::ValueType` (`m_cInInternalPix`, `m_cOutInternalPix`). */
  predicate IsComplexInternal(k: Kind) {
    k == VecOfComplex
  }

  /** The innermost numbers of the pixel are complex: one of the two flags above. */
  predicate LeafIsComplex(k: Kind) {
    IsComplexPix(k) || IsComplexInternal(k)
  }

  /** Number of buffer slots taken by `n` components of kind `k`. */
  function Needed(k: Kind, n: nat): nat {
    if LeafIsComplex(k) then 2 * n else n
  }

  /** What `NumericTraits<T>::GetLength` reports for a default-constructed pixel of kind `k`:
      1 for a number, 2 for a complex number, and for a vector its fixed length
      or 0 when its length is chosen at run time. */
  predicate ValidLength(k: Kind, length: nat) {
    match k
    case Scalar => length == 1
    case Complex => length == 2
    case _ => true
  }

  /** One component of a pixel value. */
  datatype Component = ScalarValue(v: real) | ComplexValue(re: real, im: real)

  /** Every component has the shape of the kind's leaf. */
  predicate Uniform(k: Kind, p: seq<Component>) {
    forall j :: 0 <= j < |p| ==> p[j].ComplexValue? == LeafIsComplex(k)
  }

  /** `p` is a value of a pixel type of kind `k`: numbers and complex numbers have one component. */
  predicate Conforms(k: Kind, p: seq<Component>) {
    (k == Scalar || k == Complex ==> |p| == 1) && Uniform(k, p)
  }

  /** C++ pixel types as the overload sets of `FillIn` and `FillOut` see them:
      an arithmetic type, a `std::complex`, or a container (`itk::VariableLengthVector`,
      `itk::FixedArray`, ...) whose `NumericTraits::ValueType` is `valueType`. */
  datatype CppType = Arithmetic | StdComplex | Container(valueType: CppType)

  /** `itk::NumericTraits<T>::ValueType`: the element type of a container, the component type
      of a complex number, and the type itself for an arithmetic type. */
  function ValueType(t: CppType): CppType {
    match t
    case Container(e) => e
    case _ => Arithmetic
  }

  /** The innermost type reached by following `ValueType` through containers. */
  function Leaf(t: CppType): CppType {
    match t
    case Container(e) => Leaf(e)
    case _ => t
  }

  /** The classification the functor's four static flags (lines 165-168) make of a type. The
      flags look one `ValueType` level deep, so a container of containers has no kind. */
  function KindOf(t: CppType): (k: Option<Kind>)
    ensures k.Some? <==> !(t.Container? && t.valueType.Container?)
    ensures k.Some? ==> (IsComplexPix(k.value) <==> t == StdComplex)
    ensures k.Some? ==> (IsComplexInternal(k.value) <==> ValueType(t) == StdComplex)
    ensures k.Some? ==> (LeafIsComplex(k.value) <==> Leaf(t) == StdComplex)
    ensures k.Some? ==> (t.Container? <==> k.value == VecOfScalar || k.value == VecOfComplex)
  {
    match t
    case Arithmetic => Some(Scalar)
    case StdComplex => Some(Complex)
    case Container(Arithmetic) => Some(VecOfScalar)
    case Container(StdComplex) => Some(VecOfComplex)
    case Container(Container(_)) => None
  }
}
