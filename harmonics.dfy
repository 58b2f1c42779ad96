/**
 * The parts of HoaLibrary that the matrix creator calls and that are not part
 * of this model: the dimension, the harmonic count convention, the constant pi,
 * the encoder (an uninterpreted collaborator) and `Signal::add`.
 */
module Harmonics {

  /** `hoa::Dimension`. */
  datatype Dimension = Hoa2d | Hoa3d

  /**
   * The library's harmonic count for a decomposition order: 2N+1 circular
   * harmonics in the plane, (N+1)^2 spherical harmonics in space. This is the
   * library's convention, taken as given.
   */
  function NumberOfHarmonics(dim: Dimension, order: nat): (h: nat)
    ensures h >= 2 * order + 1
  {
    match dim
    case Hoa2d => 2 * order + 1
    case Hoa3d => (order + 1) * (order + 1)
  }

  /** In space there are at least as many harmonics as in the plane, and more from order 1 on. */
  lemma {:induction false} PlanarHarmonicsFewer(order: nat)
    ensures NumberOfHarmonics(Hoa2d, order) <= NumberOfHarmonics(Hoa3d, order)
    ensures NumberOfHarmonics(Hoa2d, order) == NumberOfHarmonics(Hoa3d, order) <==> order == 0
  {
    assert (order + 1) * (order + 1) == 2 * order + 1 + order * order;
    if order > 0 {
      assert order * order > 0;
    }
  }

  /** pi to 37 significant digits, standing for `HOA_PI`; the library constant itself is not part of this model. */
  const HoaPi: real := 3.141592653589793238462643383279502884

  /** `HOA_2PI`. */
  const HoaTwoPi: real := 2.0 * HoaPi

  /** A number of degrees converted the way the parsers do it: `degrees / 360. * HOA_2PI`. */
  function Radians(degrees: real): real {
    degrees / 360.0 * HoaTwoPi
  }

  /** The conversion is undone by `r / HOA_2PI * 360.`, and only 0 degrees give 0. */
  lemma {:induction false} RadiansInverse(degrees: real)
    ensures Radians(degrees) / HoaTwoPi * 360.0 == degrees
    ensures Radians(degrees) == 0.0 <==> degrees == 0.0
  {
  }

  /**
   * An `Encoder<Dim, double>` as the matrix creator uses it: `process(azimuth,
   * elevation, x)` is what `setAzimuth`, `setElevation` and `process(&x, out)`
   * put in the output buffer; `degree(k)` and `harmonicOrder(k)` are
   * `getHarmonicDegree(k)` and `getHarmonicOrder(k)`.
   */
  datatype Encoder = Encoder(
    dim: Dimension,
    order: nat,
    process: (real, real, real) -> seq<real>,
    degree: nat -> nat,
    harmonicOrder: nat -> int)
  {
    /** The number of values one call to `process` writes. */
    function Size(): nat {
      NumberOfHarmonics(dim, order)
    }

    /** `process` always writes one value per harmonic. */
    ghost predicate WellFormed() {
      forall azimuth: real, elevation: real, x: real ::
        |process(azimuth, elevation, x)| == Size()
    }

    /** The encoding of a sample is the sample times the encoding of 1 (the library's encoders are linear). */
    ghost predicate Linear() {
      forall azimuth: real, elevation: real, x: real ::
        process(azimuth, elevation, x) == Scaled(x, process(azimuth, elevation, 1.0))
    }
  }

  /** Every element of `v` times `x`. */
  function Scaled(x: real, v: seq<real>): (r: seq<real>)
    ensures |r| == |v|
    ensures forall k :: 0 <= k < |v| ==> r[k] == x * v[k]
  {
    seq(|v|, k requires 0 <= k < |v| => x * v[k])
  }

  /** What `Signal::add(|input|, input, out + offset)` adds at index `t` of `out`. */
  function Added(input: seq<real>, offset: nat, t: nat): real {
    if offset <= t < offset + |input| then input[t - offset] else 0.0
  }

  /**
   * `Signal<double>::add`: adds `input` element by element into `out` from
   * `offset` on; nothing outside that slice changes.
   */
  method Add(input: seq<real>, out: array<real>, offset: nat)
    requires offset + |input| <= out.Length
    modifies out
    ensures forall t :: 0 <= t < out.Length ==> out[t] == old(out[t]) + Added(input, offset, t)
  {
    var i := 0;
    while i < |input|
      invariant 0 <= i <= |input|
      invariant forall t :: 0 <= t < out.Length ==>
        out[t] == old(out[t]) + (if offset <= t < offset + i then input[t - offset] else 0.0)
    {
      out[offset + i] := out[offset + i] + input[i];
      i := i + 1;
    }
  }
}
