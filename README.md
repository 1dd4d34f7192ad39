# ConvertTypeFunctor in Dafny

A model of `otb::Functor::ConvertTypeFunctor` from the Orfeo Toolbox, together with its helper
templates `FillIn` and `FillOut`. The functor converts one pixel value to another pixel
representation. A pixel of either side is a number, a complex number, or a vector of either,
and the vector may have a fixed or a variable length.

Each conversion takes four steps:

1. **Flatten.** The first `m_CompIn` input components go into a buffer of doubles, in ascending
   order. A number takes one slot. A complex number takes two: the real part, then the imaginary part.
2. **Pad.** When the destination is complex and the buffer length is odd, one zero is appended.
3. **Saturate.** Every slot is clamped to `[m_LowestBD, m_HighestBD]`.
4. **Rebuild.** The destination pixel is rebuilt from the buffer. Scalar component `i` takes
   slot `i`. Complex component `i` takes slots `2i` and `2i+1`.

The functor also holds the size-negotiation state:

- `m_CompIn` is set by `SetInputComponents`.
- `m_Scal` and `m_CompOut` are set by `GetOutputSize`.
- The bounds start at the numeric limits of the destination value type, and `SetLowest` and
  `SetHighest` override them.

Files:

- `pixel_kind.dfy` (module `PixelKind`): the C++ overloads tell pixel types apart with
  compile-time type traits. Here that choice is an explicit `Kind` value, along with the four
  complexity flags and the component datatype. The classification `KindOf` maps a C++ type
  shape to a kind.
- `saturation.dfy` (module `Saturation`): the saturation of one slot and of a buffer, with
  their lemmas.
- `fill.dfy` (module `Fill`): the fill-in and fill-out sections.
  - `Flatten`, `Pad`, `Cast` and `Rebuild` are the reference definitions.
  - `FillIn` and `FillOut` are the methods that append to or write into their buffer.
    `FillOutAll` is the loop of `operator()` that calls `FillOut` for every destination
    component.
  - Lemmas prove that rebuilding inverts flattening, in both directions.
- `convert_type_functor.dfy` (module `ConvertTypeFunctor`): the functor itself.
  - `State` is a snapshot of its fields.
  - `InputComponents`, `ScalarCount` and `OutputSize` compute the negotiated sizes.
  - `Converted` is the specification of `operator()`.
  - The class `Converter` has the C++ fields and methods. `Apply` models `operator()`, with
    its `FillIn` loop and a call to `Fill.FillOutAll` for its `FillOut` loop. `Clamp` models the
    in-place saturation loop.
  - Lemmas cover the buffer length, the in-range reads, the saturation bounds and the round trip.
- `template_dispatch.dfy` (module `TemplateDispatch`): how the C++ overload sets actually
  select an overload (see Findings).
- `scenarios.dfy` (module `Scenarios`) has worked conversions:
  - an unsigned char 200 converted to a signed char gives 127;
  - a vector [300.5, -50] bounded to [0, 255] gives [255, 0];
  - the complex value (5, -300) bounded to [-100, 100] gives (5, -100);
  - three scalars converted to a complex vector give two complex values.

  The method `ConfigureAndConvert` drives the `Converter` class through its whole life cycle.

Modelling choices:

- Pixel values are sequences of `Component`s over `real`.
- `DefaultConvertPixelTraits::GetNthComponent` and `SetNthComponent` are modelled as sequence
  indexing and update.
- `NumericTraits::SetLength` is modelled by `Resized`. Following ITK's convention, a complex
  pixel is counted as length 2, which is why the source doubles the requested length
  (`hack`, lines 252-257).
- Converting a double to an integer destination value type truncates toward zero (see `Cast`).
- The constructor takes the destination's numeric limits as parameters, and it leaves the three
  counters unset, as the C++ constructor does.
- `operator()` is `const` in the source. `Apply` has no `modifies` clause, so it changes no field.
- `SetInputComponents` halves the count only when the input pixel type itself is a complex
  number (`m_cInPix`, line 192), not for a vector of complex numbers.
- Nothing reports an unconfigured functor or a buffer-length mismatch: the count check at
  line 244 (`m_Scal == vPixel.size()`) is a debug `assert`. The model states the condition under
  which the sizes are those `GetOutputSize` computes from the current `m_CompIn` as the
  precondition `Negotiated`, and proves the assertion from it.
- The bounds are values of `OutputPixelValueType` (lines 176-177 and the parameters of
  `SetLowest` and `SetHighest`), so for an integer value type they are whole numbers. The class
  invariant `Converter.Valid` keeps this, and `Apply` uses it to prove its output within bounds.

## Model

| member | source | states |
|---|---|---|
| `PixelKind.KindOf` | Modules/Filtering/ImageManipulation/include/otbConvertTypeFunctor.h:165-168 | A number, a complex number and a one-level container each get a kind. The kind's `IsComplexPix` flag holds exactly for `std::complex`. Its `IsComplexInternal` flag holds exactly when `ValueType` is complex. Its leaf is complex exactly when the innermost type is. A container of containers gets no kind. |
| `Saturation.ClampAllBounds` | Modules/Filtering/ImageManipulation/include/otbConvertTypeFunctor.h:268-277 | When `lowest <= highest`, clamping keeps the length and puts every slot in `[lowest, highest]`. Slots strictly inside are untouched. Slots `>= highest` become `highest`, and slots `<= lowest` become `lowest`. |
| `Saturation.ClampAllIdempotent` | Modules/Filtering/ImageManipulation/include/otbConvertTypeFunctor.h:268-277 | When `lowest <= highest`, clamping an already clamped buffer changes nothing. |
| `Saturation.ClampAllNotIdempotentWhenBoundsCross` | Modules/Filtering/ImageManipulation/include/otbConvertTypeFunctor.h:272-275 | When `highest < lowest`, idempotence fails: a slot below `highest` goes to `lowest`, and a second clamp sends it to `highest`. |
| `Saturation.ClampAllWithinBounds` | Modules/Filtering/ImageManipulation/include/otbConvertTypeFunctor.h:268-277 | A buffer already within the bounds is returned unchanged. |
| `ConvertTypeFunctor.Converter.Clamp` | Modules/Filtering/ImageManipulation/include/otbConvertTypeFunctor.h:268-277 | The in-place loop leaves the buffer equal to the slot-by-slot saturation of the input, with the same length. When the bounds are ordered, every slot ends up in range. |
| `Fill.FlattenStep` | Modules/Filtering/ImageManipulation/include/otbConvertTypeFunctor.h:242-243 | Flattening one more component appends exactly that component's slots after those of the components before it. |
| `Fill.FlattenLength` | Modules/Filtering/ImageManipulation/include/otbConvertTypeFunctor.h:41-59 | Flattening `n` components of one kind gives `2n` slots for a complex leaf and `n` otherwise. |
| `Fill.FlattenAt` | Modules/Filtering/ImageManipulation/include/otbConvertTypeFunctor.h:55-58 | Component `j` lands in slot `j`. A complex component lands in slot `2j` (real part) and slot `2j+1` (imaginary part). |
| `Fill.FillIn` | Modules/Filtering/ImageManipulation/include/otbConvertTypeFunctor.h:41-70 | The buffer grows by the value of component `i`, or by its real part followed by its imaginary part, and the earlier slots are kept. |
| `Fill.Pad` | Modules/Filtering/ImageManipulation/include/otbConvertTypeFunctor.h:245-248 | The buffer is kept as a prefix and grows by at most one slot, which is zero. For a complex destination the length is even afterwards. For a scalar destination nothing changes. |
| `Fill.Cast` | Modules/Filtering/ImageManipulation/include/otbConvertTypeFunctor.h:101-113 | For an integer value type the stored value is a whole number that lies between zero and the slot, less than 1 away from the slot (truncation toward zero). Whole numbers are kept. A floating value type keeps the slot. |
| `Fill.FillOut` | Modules/Filtering/ImageManipulation/include/otbConvertTypeFunctor.h:97-125 | Component `i` is set from slot `i`, or from slots `2i` and `2i+1`, each cast. Every other component is kept. The slots read are required to be in range. |
| `Fill.FillOutAll` | Modules/Filtering/ImageManipulation/include/otbConvertTypeFunctor.h:259-260 | Calling `FillOut` for components `0 .. n-1` in ascending order leaves exactly the rebuilt pixel `Rebuild`: component `i` is built from its own slots, and none is overwritten later. |
| `Fill.RebuildUniform` | Modules/Filtering/ImageManipulation/include/otbConvertTypeFunctor.h:259-260 | The rebuilt pixel has the requested number of components, all shaped as the destination's leaf. |
| `Fill.FlattenRebuild` | Modules/Filtering/ImageManipulation/include/otbConvertTypeFunctor.h:97-114 | Flattening the rebuilt components gives back the slots they were read from, cast: no slot is dropped, duplicated or swapped. |
| `Fill.RebuildFlatten` | Modules/Filtering/ImageManipulation/include/otbConvertTypeFunctor.h:41-114 | Rebuilding a flattened pixel under the same leaf kind gives back its components, provided the destination type holds the values exactly. |
| `ConvertTypeFunctor.Converted` | Modules/Filtering/ImageManipulation/include/otbConvertTypeFunctor.h:239-262 | The converted pixel has `m_CompOut` components. It is a valid value of the destination kind: a number or a complex number has exactly one component. |
| `ConvertTypeFunctor.FlattenedLengthIsScalarCount` | Modules/Filtering/ImageManipulation/include/otbConvertTypeFunctor.h:242-244 | Flattening `m_CompIn` components gives exactly `m_Scal` slots, which is the assertion at line 244. |
| `ConvertTypeFunctor.VariableSizeConsumesBuffer` | Modules/Filtering/ImageManipulation/include/otbConvertTypeFunctor.h:210-216 | For a variable-length destination, the negotiated `m_CompOut` reads exactly the padded buffer. Every `vPix[i]`, `vPix[2i]` and `vPix[2i+1]` read is in range. |
| `ConvertTypeFunctor.FixedLeafFits` | Modules/Filtering/ImageManipulation/include/otbConvertTypeFunctor.h:218-221 | For a number or a complex number as destination, `m_CompOut` is 1. Once at least one input component is declared, the reads of `vPix[i]` (line 102), or of `vPix[2i]` and `vPix[2i+1]` after padding (line 113), are in range. |
| `ConvertTypeFunctor.VariableSizeKeepsEverySlot` | Modules/Filtering/ImageManipulation/include/otbConvertTypeFunctor.h:239-262 | A variable-length destination carries every slot of the padded, saturated buffer, cast, in order. |
| `ConvertTypeFunctor.ConvertedComponentwise` | Modules/Filtering/ImageManipulation/include/otbConvertTypeFunctor.h:239-262 | When both sides have the same leaf, output component `i` comes from input component `i`. Its value, or its real and imaginary parts taken independently, are saturated and then cast. |
| `ConvertTypeFunctor.RoundTrip` | Modules/Filtering/ImageManipulation/include/otbConvertTypeFunctor.h:239-262 | Conversion returns the first `m_CompIn` input components unchanged when four conditions hold: both sides have the same leaf, `m_CompOut == m_CompIn`, the values are within the bounds, and the destination holds the values exactly. |
| `ConvertTypeFunctor.CastWithin` | Modules/Filtering/ImageManipulation/include/otbConvertTypeFunctor.h:101-113 | Truncation keeps a saturated slot within whole-number bounds. |
| `ConvertTypeFunctor.ConvertedWithinBounds` | Modules/Filtering/ImageManipulation/include/otbConvertTypeFunctor.h:249-260 | When the bounds are ordered, every part of every output component is within them. For an integer destination the bounds must also be whole numbers. |
| `ConvertTypeFunctor.Converter.constructor` | Modules/Filtering/ImageManipulation/include/otbConvertTypeFunctor.h:170-186 | The bounds are the numeric limits of the destination value type, whole numbers for an integer value type, so `Valid` holds. The pixel kinds and the destination length are fixed, and the counters are left unset. |
| `ConvertTypeFunctor.Converter.SetInputComponents` | Modules/Filtering/ImageManipulation/include/otbConvertTypeFunctor.h:189-198 | `m_CompIn` becomes `sizeIn / 2` (integer division) for a complex input pixel type and `sizeIn` otherwise. No other field changes. |
| `ConvertTypeFunctor.Converter.GetOutputSize` | Modules/Filtering/ImageManipulation/include/otbConvertTypeFunctor.h:200-225 | `m_Scal` becomes `2 * m_CompIn` when the input or its internal type is complex. The returned value is `m_CompOut`: `(m_Scal+1)/2` or `m_Scal` for a variable-length destination (by its internal type), `1` for a complex destination, and the fixed length otherwise. No other field changes. |
| `ConvertTypeFunctor.Converter.SetLowest` | Modules/Filtering/ImageManipulation/include/otbConvertTypeFunctor.h:227-231 | Only the lower bound changes. The new bound is a value of the destination value type, so `Valid` is kept. |
| `ConvertTypeFunctor.Converter.SetHighest` | Modules/Filtering/ImageManipulation/include/otbConvertTypeFunctor.h:233-237 | Only the upper bound changes. The new bound is a value of the destination value type, so `Valid` is kept. |
| `ConvertTypeFunctor.Converter.Apply` | Modules/Filtering/ImageManipulation/include/otbConvertTypeFunctor.h:239-262 | The `FillIn` loop, the padding, the clamp, the resize and the `FillOut` loop produce exactly `Converted` of the current fields, a valid destination pixel of `m_CompOut` components. When the bounds are ordered, every part of every output component lies within them. No field changes. |
| `TemplateDispatch.AsWrittenContainerNeverReachesLeaf` | Modules/Filtering/ImageManipulation/include/otbConvertTypeFunctor.h:61-70 | As written, the generic overload for a container pixel type selects itself again on every nested call, so no leaf overload is ever reached. |
| `TemplateDispatch.LeafReachedTerminates` | Modules/Filtering/ImageManipulation/include/otbConvertTypeFunctor.h:61-70 | If the overload is selected by the internal type, dispatch reaches the leaf type's overload after `Depth` nested calls. |
| `TemplateDispatch.DispatchAgreesWithKind` | Modules/Filtering/ImageManipulation/include/otbConvertTypeFunctor.h:38-70 | With the intended dispatch, each component of a classified type takes as many slots as the kind model gives it. |
| `Scenarios.ByteToSignedByteSaturates` | Modules/Filtering/ImageManipulation/include/otbConvertTypeFunctor.h:239-262 | 200 converted to a signed char bounded by [-128, 127] gives 127. |
| `Scenarios.VectorSaturatesBothWays` | Modules/Filtering/ImageManipulation/include/otbConvertTypeFunctor.h:239-262 | [300.5, -50] bounded by [0, 255] gives [255, 0]. |
| `Scenarios.ComplexPartsSaturateIndependently` | Modules/Filtering/ImageManipulation/include/otbConvertTypeFunctor.h:239-262 | (5, -300) bounded by [-100, 100] gives (5, -100). |
| `Scenarios.OddScalarsIntoComplexVector` | Modules/Filtering/ImageManipulation/include/otbConvertTypeFunctor.h:245-260 | Three scalars into a variable-length complex vector give two components. The third scalar is paired with a zero imaginary part. |

## Left out

- The C++ template machinery (`enable_if_t`, `boost::is_complex`, nested `NumericTraits::ValueType`):
  `Kind` replaces it. `TemplateDispatch` models only which overload runs.
- The `extern template` lists at lines 72-92 and 127-147: they are declarations only.
- Two traits classes used by this file are not part of this model: OTB's own
  `DefaultConvertPixelTraits` (`otbDefaultConvertPixelTraits.h`, included at line 30) and ITK's
  `itk::NumericTraits` (line 29).
  - `GetNthComponent` and `SetNthComponent` are modelled as indexing into a sequence of
    components.
  - `SetLength` is modelled by `Resized`.
  - For a number or a complex number, `GetNthComponent` returns the pixel itself whatever the
    index. The model instead gives such a pixel exactly one component and requires `m_CompIn`
    to be at most that. So `Accepts` excludes inputs the functor takes: a complex input after
    `SetInputComponents(4)` (`m_CompIn == 2`) reads the one complex value twice.
- Floating point:
  - values are exact reals;
  - the `double` rounding of `static_cast<double>` is not modelled;
  - single-precision stores are not modelled;
  - NaN and infinities in `Clamp` are not modelled.
- The concrete numeric limits of each value type (lines 176-180) are constructor parameters.
- `m_LowestB`/`m_HighestB` and their `double` copies `m_LowestBD`/`m_HighestBD` are one field
  each, since the two agree exactly.
- The counters are unbounded. The 32-bit `unsigned int` wrap-around of `2 * m_CompIn` and
  `m_Scal + 1` happens only at 2^31 and more components, so it is not modelled.
- An out-of-range read by the `FillOut` loop is undefined behaviour in C++. For a fixed-size
  vector destination, the model does not cover that case: `Fits` requires every read to be in
  range. `Fits` is proved for variable-length destinations (`VariableSizeConsumesBuffer`) and for
  a number or complex number as destination with at least one input component (`FixedLeafFits`).
- Calling `GetOutputSize` or `operator()` before the counters are set reads uninitialised
  fields. The model requires the counters to be negotiated first (`Negotiated`).
- The destructor, and the deleted copy constructor and assignment at lines 280-281.
- Containers of containers: the four flags look only one `ValueType` level deep, so such types
  have no kind.

## Findings

| source | as written | input that shows it | evidently intended | confidence | as-written member | corrected member |
|---|---|---|---|---|---|---|
| Modules/Filtering/ImageManipulation/include/otbConvertTypeFunctor.h:61-70 | The generic `FillIn` overload is selected by `PixelType`. It calls `FillIn<PixelType, InternalType>` with `PixelType` unchanged, so the overload set picks the same generic overload again. `FillOut` at lines 116-125 has the same shape. | any container pixel, e.g. `itk::VariableLengthVector<float>`: `FillIn<VLV<float>>` calls `FillIn<VLV<float>, float>`, which calls itself without end | select the overload by `InternalPixelType` and descend through its `ValueType` until an arithmetic or complex leaf is reached | medium; not executed | `TemplateDispatch.AsWrittenContainerNeverReachesLeaf` | `TemplateDispatch.LeafReachedTerminates` |

The rest of the model uses the intended dispatch. `Fill.FillIn` and `Fill.FillOut` choose
between the leaf cases by the leaf of the kind, and `TemplateDispatch.DispatchAgreesWithKind`
shows that this matches the corrected overload selection.
