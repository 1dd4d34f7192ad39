/** The fill-in section (lines 38-70), which flattens a pixel into a buffer of doubles, and the
    fill-out section (lines 94-125), which rebuilds a pixel from that buffer. The three overloads
    of each are chosen by the leaf of the pixel kind; how the C++ overloads are actually selected
    is the subject of module TemplateDispatch. */
module Fill {
  import opened PixelKind

  /** The slots one component contributes: its value, or its real part then its imaginary part. */
  function Slots(c: Component): seq<real> {
    match c
    case ScalarValue(v) => [v]
    case ComplexValue(re, im) => [re, im]
  }

  /** The buffer built by `FillIn` over components `0 .. |p|-1`, in ascending order. */
  function Flatten(p: seq<Component>): seq<real>
    decreases |p|
  {
    if p == [] then [] else Flatten(p[..|p| - 1]) + Slots(p[|p| - 1])
  }

  lemma FlattenStep(p: seq<Component>, n: nat)
    requires n < |p|
    ensures Flatten(p[..n + 1]) == Flatten(p[..n]) + Slots(p[n])
  {
    assert p[..n + 1][..n] == p[..n];
  }

  /** The buffer holds one slot per scalar component and two per complex component. */
  lemma {:induction false} FlattenLength(k: Kind, p: seq<Component>)
    requires Uniform(k, p)
    ensures |Flatten(p)| == Needed(k, |p|)
  {
    if p != [] {
      FlattenLength(k, p[..|p| - 1]);
    }
  }

  /** Where component `j` lands: slot `j`, or slots `2j` (real part) and `2j+1` (imaginary part). */
  lemma {:induction false} FlattenAt(k: Kind, p: seq<Component>, j: nat)
    requires Uniform(k, p) && j < |p|
    ensures |Flatten(p)| == Needed(k, |p|)
    ensures LeafIsComplex(k) ==> Flatten(p)[2 * j] == p[j].re && Flatten(p)[2 * j + 1] == p[j].im
    ensures !LeafIsComplex(k) ==> Flatten(p)[j] == p[j].v
  {
    var q := p[..|p| - 1];
    FlattenLength(k, p);
    FlattenLength(k, q);
    if j < |q| {
      FlattenAt(k, q, j);
    }
  }

  /** `FillIn(i, pix, vPix)`: appends component `i` of `pix` to `vPix`. */
  method FillIn(k: Kind, i: nat, pix: seq<Component>, vPix: seq<real>) returns (r: seq<real>)
    requires i < |pix| && Uniform(k, pix)
    ensures LeafIsComplex(k) ==> r == vPix + [pix[i].re, pix[i].im]
    ensures !LeafIsComplex(k) ==> r == vPix + [pix[i].v]
  {
    if LeafIsComplex(k) {
      var comp := pix[i];
      r := vPix + [comp.re];
      r := r + [comp.im];
    } else {
      r := vPix + [pix[i].v];
    }
  }

  /** The buffer after lines 245-248: a zero is appended when the destination is complex and
      the length is odd. */
  function Pad(k: Kind, buf: seq<real>): (r: seq<real>)
    ensures |buf| <= |r| <= |buf| + 1
    ensures r[..|buf|] == buf
    ensures LeafIsComplex(k) ==> |r| % 2 == 0
    ensures !LeafIsComplex(k) ==> r == buf
    ensures forall m :: |buf| <= m < |r| ==> r[m] == 0.0
    ensures |r| == PadLength(k, |buf|)
  {
    if LeafIsComplex(k) && |buf| % 2 == 1 then buf + [0.0] else buf
  }

  function PadLength(k: Kind, n: nat): nat {
    if LeafIsComplex(k) && n % 2 == 1 then n + 1 else n
  }

  predicate IsWhole(x: real) {
    x.Floor as real == x
  }

  lemma WholeOf(n: int)
    ensures IsWhole(n as real)
  {
  }

  lemma FloorBounds(x: real)
    ensures x.Floor as real <= x < x.Floor as real + 1.0
  {
  }

  /** The conversion of a double to the destination's value type when `SetNthComponent` stores
      it: an integer type truncates toward zero, a floating type keeps the value. */
  function Cast(integral: bool, x: real): (r: real)
    ensures !integral ==> r == x
    ensures integral ==> IsWhole(r)
    ensures integral && x >= 0.0 ==> 0.0 <= r <= x < r + 1.0
    ensures integral && x < 0.0 ==> r - 1.0 < x <= r <= 0.0
    ensures IsWhole(x) ==> r == x
  {
    if !integral then x
    else
      var f := x.Floor;
      FloorBounds(x);
      if x >= 0.0 || IsWhole(x) then WholeOf(f); f as real
      else WholeOf(f + 1); (f + 1) as real
  }

  function CastAll(integral: bool, v: seq<real>): seq<real> {
    seq(|v|, m requires 0 <= m < |v| => Cast(integral, v[m]))
  }

  /** Component `i` of the destination, built from the buffer as `FillOut` does. */
  function Rebuilt(k: Kind, integral: bool, buf: seq<real>, i: nat): Component
    requires Needed(k, i + 1) <= |buf|
  {
    if LeafIsComplex(k) then ComplexValue(Cast(integral, buf[2 * i]), Cast(integral, buf[2 * i + 1]))
    else ScalarValue(Cast(integral, buf[i]))
  }

  /** The destination's components `0 .. n-1`, as the loop at lines 259-260 writes them. */
  function Rebuild(k: Kind, integral: bool, buf: seq<real>, n: nat): seq<Component>
    requires Needed(k, n) <= |buf|
  {
    seq(n, i requires 0 <= i < n => Rebuilt(k, integral, buf, i))
  }

  lemma RebuildUniform(k: Kind, integral: bool, buf: seq<real>, n: nat)
    requires Needed(k, n) <= |buf|
    ensures |Rebuild(k, integral, buf, n)| == n && Uniform(k, Rebuild(k, integral, buf, n))
  {
  }

  /** `FillOut(i, pix, vPix)`: stores the value built from slot `i`, or from slots `2i` and
      `2i+1`, as component `i` of `pix`; the other components are kept. */
  method FillOut(k: Kind, integral: bool, i: nat, pix: seq<Component>, vPix: seq<real>) returns (r: seq<Component>)
    requires i < |pix| && Needed(k, i + 1) <= |vPix|
    ensures |r| == |pix|
    ensures forall j :: 0 <= j < |pix| && j != i ==> r[j] == pix[j]
    ensures LeafIsComplex(k) ==> r[i] == ComplexValue(Cast(integral, vPix[2 * i]), Cast(integral, vPix[2 * i + 1]))
    ensures !LeafIsComplex(k) ==> r[i] == ScalarValue(Cast(integral, vPix[i]))
  {
    if LeafIsComplex(k) {
      r := pix[i := ComplexValue(Cast(integral, vPix[2 * i]), Cast(integral, vPix[2 * i + 1]))];
    } else {
      r := pix[i := ScalarValue(Cast(integral, vPix[i]))];
    }
  }

  /** The loop at lines 259-260: `FillOut(i, pix, vPix)` for every component `i` of `pix`, in
      ascending order. */
  method FillOutAll(k: Kind, integral: bool, pix: seq<Component>, vPix: seq<real>) returns (r: seq<Component>)
    requires Needed(k, |pix|) <= |vPix|
    ensures r == Rebuild(k, integral, vPix, |pix|)
  {
    r := pix;
    var i := 0;
    while i < |pix|
      invariant i <= |pix| && |r| == |pix|
      invariant forall j :: 0 <= j < i ==> r[j] == Rebuilt(k, integral, vPix, j)
    {
      r := FillOut(k, integral, i, r, vPix);
      i := i + 1;
    }
  }

  lemma CastAllSplit(integral: bool, v: seq<real>, m: nat)
    requires m <= |v|
    ensures CastAll(integral, v) == CastAll(integral, v[..m]) + CastAll(integral, v[m..])
  {
  }

  /** The slots of rebuilt component `i` are the cast slots it was read from. */
  lemma SlotsOfRebuilt(k: Kind, integral: bool, buf: seq<real>, i: nat)
    requires Needed(k, i + 1) <= |buf|
    ensures Slots(Rebuilt(k, integral, buf, i)) == CastAll(integral, buf[Needed(k, i)..Needed(k, i + 1)])
  {
  }

  /** Rebuilding undoes flattening: flattening the rebuilt components gives back the slots they
      were built from, each cast to the destination's value type. */
  lemma {:induction false} FlattenRebuild(k: Kind, integral: bool, buf: seq<real>, n: nat)
    requires Needed(k, n) <= |buf|
    ensures Flatten(Rebuild(k, integral, buf, n)) == CastAll(integral, buf[..Needed(k, n)])
  {
    if n > 0 {
      var r := Rebuild(k, integral, buf, n);
      var m, big := Needed(k, n - 1), Needed(k, n);
      assert r[..n - 1] == Rebuild(k, integral, buf, n - 1);
      calc {
        Flatten(r);
        Flatten(r[..n - 1]) + Slots(r[n - 1]);
        { FlattenRebuild(k, integral, buf, n - 1); SlotsOfRebuilt(k, integral, buf, n - 1); }
        CastAll(integral, buf[..m]) + CastAll(integral, buf[m..big]);
        { CastAllSplit(integral, buf[..big], m);
          assert buf[..big][..m] == buf[..m];
          assert buf[..big][m..] == buf[m..big]; }
        CastAll(integral, buf[..big]);
      }
    }
  }

  /** Every part of `c` is stored unchanged by an integer destination type when one is used. */
  predicate Exact(integral: bool, c: Component) {
    integral ==>
      match c
      case ScalarValue(v) => IsWhole(v)
      case ComplexValue(re, im) => IsWhole(re) && IsWhole(im)
  }

  /** Flattening undoes rebuilding: components rebuilt from the flattened buffer, under the same
      leaf kind, are the original components. */
  lemma RebuildFlatten(k: Kind, integral: bool, p: seq<Component>)
    requires Uniform(k, p)
    requires forall j :: 0 <= j < |p| ==> Exact(integral, p[j])
    ensures |Flatten(p)| == Needed(k, |p|)
    ensures Rebuild(k, integral, Flatten(p), |p|) == p
  {
    FlattenLength(k, p);
    var r := Rebuild(k, integral, Flatten(p), |p|);
    forall j | 0 <= j < |p|
      ensures r[j] == p[j]
    {
      FlattenAt(k, p, j);
    }
  }
}
