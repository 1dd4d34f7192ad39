/** How the C++ overload sets of `FillIn` (lines 38-70) and `FillOut` (lines 94-125) pick an
    overload. Both sets have the same three overloads, `template <P, I = P, enable_if_t<cond(P)>>`:
    one for an arithmetic P, one for a complex P, and a generic one for anything else, whose body
    calls `FillIn<P, NumericTraits<P>::ValueType>` (resp. `FillOut<...>`). */
module TemplateDispatch {
  import opened PixelKind

  datatype Overload = ArithmeticOverload | ComplexOverload | GenericOverload

  /** The one overload whose `enable_if` condition holds for the type. */
  function Enabled(t: CppType): Overload {
    match t
    case Arithmetic => ArithmeticOverload
    case StdComplex => ComplexOverload
    case Container(_) => GenericOverload
  }

  /** Buffer slots the leaf overload pushes (`FillIn`) or reads (`FillOut`) per component. */
  function SlotsOf(o: Overload): nat {
    match o
    case ArithmeticOverload => 1
    case ComplexOverload => 2
    case GenericOverload => 0
  }

  /** As written: the overload is selected by P, and the generic overload calls the set again with
      the same P and `I = ValueType<P>`. The result is the leaf overload that finally runs, or
      None when `fuel` nested calls were made without reaching one. */
  function LeafReachedAsWritten(p: CppType, internal: CppType, fuel: nat): Option<Overload>
    decreases fuel
  {
    if fuel == 0 then None
    else match Enabled(p)
      case GenericOverload => LeafReachedAsWritten(p, ValueType(p), fuel - 1)
      case leaf => Some(leaf)
  }

  /** For a container pixel type the as-written generic overload selects itself again on every
      call: no amount of nesting reaches a leaf overload, so the recursion does not end. */
  lemma {:induction false} AsWrittenContainerNeverReachesLeaf(p: CppType, internal: CppType, fuel: nat)
    requires p.Container?
    ensures LeafReachedAsWritten(p, internal, fuel) == None
    decreases fuel
  {
    if fuel > 0 {
      AsWrittenContainerNeverReachesLeaf(p, ValueType(p), fuel - 1);
    }
  }

  /** Containers nest this many levels deep. */
  function Depth(t: CppType): nat {
    match t
    case Container(e) => 1 + Depth(e)
    case _ => 0
  }

  /** As intended: the overload is selected by I, and the generic overload descends to
      `ValueType<I>`. */
  function LeafReached(p: CppType, internal: CppType, fuel: nat): Option<Overload>
    decreases fuel
  {
    if fuel == 0 then None
    else match Enabled(internal)
      case GenericOverload => LeafReached(p, ValueType(internal), fuel - 1)
      case leaf => Some(leaf)
  }

  /** The intended dispatch ends after `Depth(I)` nested calls in the overload for the leaf type. */
  lemma {:induction false} LeafReachedTerminates(p: CppType, internal: CppType, fuel: nat)
    requires fuel > Depth(internal)
    ensures LeafReached(p, internal, fuel) == Some(Enabled(Leaf(internal)))
    decreases fuel
  {
    if internal.Container? {
      LeafReachedTerminates(p, ValueType(internal), fuel - 1);
    }
  }

  /** The intended dispatch, started as `operator()` starts it (`I = P`), handles each component
      with as many slots as the kind model gives it: this is what module Fill relies on. */
  lemma DispatchAgreesWithKind(t: CppType)
    requires KindOf(t).Some?
    ensures LeafReached(t, t, Depth(t) + 1).Some?
    ensures SlotsOf(LeafReached(t, t, Depth(t) + 1).value) == Needed(KindOf(t).value, 1)
  {
    LeafReachedTerminates(t, t, Depth(t) + 1);
  }
}
