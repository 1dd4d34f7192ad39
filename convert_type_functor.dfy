/** `otb::Functor::ConvertTypeFunctor` (lines 151-288): converts one pixel to another pixel
    type by flattening it into a buffer of doubles, padding the buffer for a complex
    destination, saturating every slot and rebuilding the destination pixel. */
module ConvertTypeFunctor {
  import opened PixelKind
  import opened Fill
  import opened Saturation

  /** The functor's fields at one moment: the two pixel kinds, what `GetLength` reports for a
      default-constructed destination pixel (0 for a variable-length one), whether the
      destination's value type is an integer type, the bounds `m_LowestBD`/`m_HighestBD`, and the
      negotiated sizes `m_CompIn`, `m_Scal`, `m_CompOut`. */
  datatype State = State(inKind: Kind, outKind: Kind, outLength: nat, outIntegral: bool,
                         lowest: real, highest: real,
                         compIn: nat, scal: nat, compOut: nat)

  /** `m_CompIn` after `SetInputComponents(sizeIn)`: ITK counts one complex number as two components. */
  function InputComponents(k: Kind, sizeIn: nat): nat {
    if IsComplexPix(k) then sizeIn / 2 else sizeIn
  }

  /** `m_Scal` as `GetOutputSize` sets it, from the two input flags of lines 202-205. On a kind
      this is `Needed(k, compIn)`, so the assertion at line 244 amounts to `Needed` and
      `ScalarCount` agreeing (see `FlattenedLengthIsScalarCount`). */
  function ScalarCount(k: Kind, compIn: nat): nat {
    if IsComplexInternal(k) || IsComplexPix(k) then 2 * compIn else compIn
  }

  /** `m_CompOut` as `GetOutputSize` sets it. */
  function OutputSize(k: Kind, length: nat, scal: nat): nat {
    if length == 0 then
      if IsComplexInternal(k) then (scal + 1) / 2 else scal
    else if IsComplexPix(k) then 1
    else length
  }

  /** The sizes are those `GetOutputSize` computes from the current `m_CompIn`. */
  predicate Negotiated(s: State) {
    && ValidLength(s.outKind, s.outLength)
    && s.scal == ScalarCount(s.inKind, s.compIn)
    && s.compOut == OutputSize(s.outKind, s.outLength, s.scal)
  }

  /** Every read of the padded buffer made by the `FillOut` loop is in range. */
  predicate Fits(s: State) {
    Needed(s.outKind, s.compOut) <= PadLength(s.outKind, s.scal)
  }

  /** What `operator()` needs: negotiated sizes, reads in range, and an input pixel with at least
      `m_CompIn` components of the input kind. */
  predicate Accepts(s: State, input: seq<Component>) {
    Negotiated(s) && Fits(s) && s.compIn <= |input| && Conforms(s.inKind, input)
  }

  /** The pixel `operator()` returns. */
  function Converted(s: State, input: seq<Component>): (out: seq<Component>)
    requires Accepts(s, input)
    ensures |out| == s.compOut && Conforms(s.outKind, out)
  {
    var p := input[..s.compIn];
    FlattenLength(s.inKind, p);
    var buf := ClampAll(Pad(s.outKind, Flatten(p)), s.lowest, s.highest);
    RebuildUniform(s.outKind, s.outIntegral, buf, s.compOut);
    Rebuild(s.outKind, s.outIntegral, buf, s.compOut)
  }

  /** Flattening `m_CompIn` components yields exactly `m_Scal` slots (the assertion at line 244). */
  lemma {:induction false} FlattenedLengthIsScalarCount(k: Kind, p: seq<Component>)
    requires Uniform(k, p)
    ensures |Flatten(p)| == ScalarCount(k, |p|)
  {
    FlattenLength(k, p);
  }

  /** For a variable-length destination the negotiated output consumes the padded buffer
      exactly, so every read of the `FillOut` loop is in range and no slot is dropped. */
  lemma VariableSizeConsumesBuffer(s: State)
    requires Negotiated(s) && s.outLength == 0
    ensures Needed(s.outKind, s.compOut) == PadLength(s.outKind, s.scal)
    ensures Fits(s)
  {
  }

  /** For a number or a complex number as destination, the single component's reads are in
      range as soon as one input component is declared: its slot, or its two slots after
      padding. */
  lemma FixedLeafFits(s: State)
    requires Negotiated(s) && (s.outKind == Scalar || s.outKind == Complex) && s.compIn >= 1
    ensures s.compOut == 1
    ensures Fits(s)
  {
  }

  /** A variable-length destination carries every slot of the saturated buffer. */
  lemma VariableSizeKeepsEverySlot(s: State, input: seq<Component>)
    requires Negotiated(s) && s.outLength == 0 && s.compIn <= |input| && Conforms(s.inKind, input)
    ensures Fits(s) && Accepts(s, input)
    ensures Flatten(Converted(s, input))
         == CastAll(s.outIntegral, ClampAll(Pad(s.outKind, Flatten(input[..s.compIn])), s.lowest, s.highest))
  {
    VariableSizeConsumesBuffer(s);
    var p := input[..s.compIn];
    FlattenLength(s.inKind, p);
    var buf := ClampAll(Pad(s.outKind, Flatten(p)), s.lowest, s.highest);
    FlattenRebuild(s.outKind, s.outIntegral, buf, s.compOut);
    assert buf[..Needed(s.outKind, s.compOut)] == buf;
  }

  /** One component converted on its own: every part saturated, then cast. */
  function ConvertComponent(integral: bool, lowest: real, highest: real, c: Component): Component {
    match c
    case ScalarValue(v) => ScalarValue(Cast(integral, Saturate(v, lowest, highest)))
    case ComplexValue(re, im) =>
      ComplexValue(Cast(integral, Saturate(re, lowest, highest)), Cast(integral, Saturate(im, lowest, highest)))
  }

  /** With the same leaf on both sides, output component `i` is input component `i` converted
      on its own: real and imaginary parts are saturated independently and never swapped. */
  lemma ConvertedComponentwise(s: State, input: seq<Component>, i: nat)
    requires Accepts(s, input)
    requires LeafIsComplex(s.inKind) == LeafIsComplex(s.outKind)
    requires i < s.compOut
    ensures i < s.compIn
    ensures Converted(s, input)[i] == ConvertComponent(s.outIntegral, s.lowest, s.highest, input[i])
  {
    var p := input[..s.compIn];
    FlattenLength(s.inKind, p);
    assert Pad(s.outKind, Flatten(p)) == Flatten(p);
    FlattenAt(s.inKind, p, i);
  }

  /** Round trip: with the same leaf on both sides, as many output as input components, and
      values the destination holds exactly, conversion returns the input components. */
  lemma RoundTrip(s: State, input: seq<Component>)
    requires Negotiated(s) && s.compIn <= |input| && Conforms(s.inKind, input)
    requires LeafIsComplex(s.inKind) == LeafIsComplex(s.outKind)
    requires s.compOut == s.compIn
    requires forall j :: 0 <= j < s.compIn ==> WithinBounds(input[j], s.lowest, s.highest)
    requires forall j :: 0 <= j < s.compIn ==> Exact(s.outIntegral, input[j])
    ensures Accepts(s, input)
    ensures Converted(s, input) == input[..s.compIn]
  {
    forall j | 0 <= j < s.compIn
      ensures Converted(s, input)[j] == input[j]
    {
      ConvertedComponentwise(s, input, j);
    }
  }

  /** Every part of `c` lies within the bounds. */
  predicate WithinBounds(c: Component, lowest: real, highest: real) {
    match c
    case ScalarValue(v) => lowest <= v <= highest
    case ComplexValue(re, im) => lowest <= re <= highest && lowest <= im <= highest
  }

  /** Truncation toward zero keeps a value within whole-number bounds. */
  lemma CastWithin(integral: bool, x: real, lowest: real, highest: real)
    requires lowest <= x <= highest
    requires integral ==> IsWhole(lowest) && IsWhole(highest)
    ensures lowest <= Cast(integral, x) <= highest
  {
    if integral {
      FloorBounds(x);
      WholeOf(x.Floor);
      if x >= 0.0 {
        assert lowest.Floor <= x.Floor;
      } else if !IsWhole(x) {
        assert x.Floor < highest.Floor;
      }
    }
  }

  /** Saturation bounds hold of the converted pixel: every part of every output component lies
      within `[lowest, highest]`, provided the bounds are ordered and, for an integer destination
      type, whole numbers (as the numeric limits of such a type are). */
  lemma ConvertedWithinBounds(s: State, input: seq<Component>)
    requires Accepts(s, input)
    requires s.lowest <= s.highest
    requires s.outIntegral ==> IsWhole(s.lowest) && IsWhole(s.highest)
    ensures forall i :: 0 <= i < s.compOut ==> WithinBounds(Converted(s, input)[i], s.lowest, s.highest)
  {
    var p := input[..s.compIn];
    FlattenLength(s.inKind, p);
    var buf := ClampAll(Pad(s.outKind, Flatten(p)), s.lowest, s.highest);
    ClampAllBounds(Pad(s.outKind, Flatten(p)), s.lowest, s.highest);
    forall i | 0 <= i < s.compOut
      ensures WithinBounds(Converted(s, input)[i], s.lowest, s.highest)
    {
      if LeafIsComplex(s.outKind) {
        CastWithin(s.outIntegral, buf[2 * i], s.lowest, s.highest);
        CastWithin(s.outIntegral, buf[2 * i + 1], s.lowest, s.highest);
      } else {
        CastWithin(s.outIntegral, buf[i], s.lowest, s.highest);
      }
    }
  }

  /** A default-constructed destination component. */
  function Zero(k: Kind): Component {
    if LeafIsComplex(k) then ComplexValue(0.0, 0.0) else ScalarValue(0.0)
  }

  /** `NumericTraits<OutputPixelType>::SetLength(out, length)`: ITK counts a complex pixel as
      length 2, so a request of `length` holds `length / 2` complex components. */
  function Resized(k: Kind, length: nat): seq<Component> {
    seq(if IsComplexPix(k) then length / 2 else length, _ => Zero(k))
  }

  class Converter {
    const inKind: Kind
    const outKind: Kind
    /** `GetLength` of a default-constructed output pixel; 0 for a variable-length container. */
    const outLength: nat
    /** The output's value type is an integer type. */
    const outIntegral: bool
    var lowest: real
    var highest: real
    var compIn: nat
    var compOut: nat
    var scal: nat

    /** The destination length is one `GetLength` can report, and for an integer value type the
        bounds are values of that type, hence whole numbers. */
    predicate Valid()
      reads this
    {
      && ValidLength(outKind, outLength)
      && (outIntegral ==> IsWhole(lowest) && IsWhole(highest))
    }

    function Snapshot(): State
      reads this
    {
      State(inKind, outKind, outLength, outIntegral, lowest, highest, compIn, scal, compOut)
    }

    /** The bounds start as the numeric limits of the output's value type, given here as
        `typeLowest` and `typeHighest`. The sizes are left unset, as in the C++ constructor. */
    constructor (inKind: Kind, outKind: Kind, outLength: nat, outIntegral: bool,
                 typeLowest: real, typeHighest: real)
      requires ValidLength(outKind, outLength)
      requires outIntegral ==> IsWhole(typeLowest) && IsWhole(typeHighest)
      ensures Valid()
      ensures this.inKind == inKind && this.outKind == outKind
      ensures this.outLength == outLength && this.outIntegral == outIntegral
      ensures lowest == typeLowest && highest == typeHighest
    {
      this.inKind := inKind;
      this.outKind := outKind;
      this.outLength := outLength;
      this.outIntegral := outIntegral;
      lowest := typeLowest;
      highest := typeHighest;
    }

    method SetInputComponents(sizeIn: nat)
      modifies this`compIn
      ensures compIn == InputComponents(inKind, sizeIn)
      ensures IsComplexPix(inKind) ==> compIn == sizeIn / 2
      ensures !IsComplexPix(inKind) ==> compIn == sizeIn
      ensures Snapshot() == old(Snapshot()).(compIn := compIn)
    {
      compIn := sizeIn;
      if IsComplexPix(inKind) {
        compIn := compIn / 2;
      }
    }

    method GetOutputSize() returns (size: nat)
      requires Valid()
      modifies this`scal, this`compOut
      ensures Valid() && Negotiated(Snapshot())
      ensures scal == ScalarCount(inKind, compIn)
      ensures size == compOut == OutputSize(outKind, outLength, scal)
      ensures Snapshot() == old(Snapshot()).(scal := scal, compOut := compOut)
    {
      if IsComplexInternal(inKind) || IsComplexPix(inKind) {
        scal := 2 * compIn;
      } else {
        scal := compIn;
      }
      var length := outLength;
      if length == 0 {
        if IsComplexInternal(outKind) {
          compOut := (scal + 1) / 2;
        } else {
          compOut := scal;
        }
      } else if IsComplexPix(outKind) {
        compOut := 1;
      } else {
        compOut := length;
      }
      size := compOut;
    }

    /** The argument is an `OutputPixelValueType`: a whole number for an integer value type. */
    method SetLowest(lowest: real)
      requires Valid() && (outIntegral ==> IsWhole(lowest))
      modifies this`lowest
      ensures Valid() && this.lowest == lowest
      ensures Snapshot() == old(Snapshot()).(lowest := lowest)
    {
      this.lowest := lowest;
    }

    /** The argument is an `OutputPixelValueType`: a whole number for an integer value type. */
    method SetHighest(highest: real)
      requires Valid() && (outIntegral ==> IsWhole(highest))
      modifies this`highest
      ensures Valid() && this.highest == highest
      ensures Snapshot() == old(Snapshot()).(highest := highest)
    {
      this.highest := highest;
    }

    /** `operator()`: it modifies nothing, as the C++ `const` promises. */
    method Apply(input: seq<Component>) returns (out: seq<Component>)
      requires Accepts(Snapshot(), input)
      ensures out == Converted(Snapshot(), input)
      ensures |out| == compOut && Conforms(outKind, out)
      ensures Valid() && lowest <= highest ==>
                forall j :: 0 <= j < |out| ==> WithinBounds(out[j], lowest, highest)
    {
      var vPixel: seq<real> := [];
      var i: nat := 0;
      while i < compIn
        invariant i <= compIn
        invariant vPixel == Flatten(input[..i])
      {
        FlattenStep(input, i);
        vPixel := FillIn(inKind, i, input, vPixel);
        i := i + 1;
      }
      assert input[..compIn] == input[..i];
      FlattenLength(inKind, input[..compIn]);
      assert |vPixel| == scal;
      if LeafIsComplex(outKind) && |vPixel| % 2 == 1 {
        vPixel := vPixel + [0.0];
      }
      assert vPixel == Pad(outKind, Flatten(input[..compIn]));
      vPixel := Clamp(vPixel);
      assert vPixel == ClampAll(Pad(outKind, Flatten(input[..compIn])), lowest, highest);

      var hack := 1;
      if IsComplexPix(outKind) {
        hack := hack + 1;
      }
      assert hack * compOut == if IsComplexPix(outKind) then 2 * compOut else compOut;
      out := Resized(outKind, hack * compOut);
      assert |out| == compOut;
      out := FillOutAll(outKind, outIntegral, out, vPixel);
      assert out == Converted(Snapshot(), input);
      assert Valid() && lowest <= highest ==>
               forall j :: 0 <= j < |out| ==> WithinBounds(out[j], lowest, highest) by {
        if Valid() && lowest <= highest {
          ConvertedWithinBounds(Snapshot(), input);
        }
      }
    }

    /** `Clamp`: saturates every slot of the buffer to the current bounds. */
    method Clamp(v: seq<real>) returns (w: seq<real>)
      ensures w == ClampAll(v, lowest, highest)
      ensures |w| == |v|
      ensures lowest <= highest ==> forall m :: 0 <= m < |w| ==> lowest <= w[m] <= highest
    {
      w := v;
      var i := 0;
      while i < |w|
        invariant |w| == |v| && i <= |w|
        invariant forall m :: 0 <= m < i ==> w[m] == Saturate(v[m], lowest, highest)
        invariant forall m :: i <= m < |w| ==> w[m] == v[m]
      {
        if w[i] >= highest {
          w := w[i := highest];
        } else if w[i] <= lowest {
          w := w[i := lowest];
        }
        i := i + 1;
      }
    }
  }
}
