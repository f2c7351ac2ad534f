/** The wp-fractional-scale-v1 protocol as the client uses it: the
    compositor's `preferred_scale` event carries a numerator over the fixed
    denominator 120, and the client scales logical dimensions by it. */
module FractionalScale {
  import opened Common

  /** The denominator of every fractional scale in the protocol. */
  const DENOMINATOR: nat := 120

  /** A scale as the raw protocol numerator: the scale is `numerator / 120`. */
  datatype ScaleFactor = ScaleFactor(numerator: u32)

  /** The exact value of the scale (`ScaleFactor::as_f64` without float error). */
  function AsReal(f: ScaleFactor): (r: real)
    ensures r >= 0.0
    ensures r * DENOMINATOR as real == f.numerator as real
  {
    f.numerator as real / DENOMINATOR as real
  }

  /** `r` is `d * n / 120` rounded to the nearest integer, a tie going away
      from zero (upwards, as every operand is non-negative). Stated without
      division: `d*n/120 - 1/2 < r <= d*n/120 + 1/2`, scaled by 240. */
  ghost predicate RoundsHalfAway(f: ScaleFactor, d: nat, r: int) {
    -(DENOMINATOR as int) < 2 * DENOMINATOR * r - 2 * d * f.numerator <= DENOMINATOR
  }

  /** `ScaleFactor::scale`: a dimension multiplied by the scale and rounded. */
  function Scale(f: ScaleFactor, d: u32): (r: nat)
    ensures RoundsHalfAway(f, d, r)
  {
    (2 * d * f.numerator + DENOMINATOR) / (2 * DENOMINATOR)
  }

  /** The rounding rule pins the result down: no other integer is within
      half a unit of `d * n / 120` with ties broken upwards. */
  lemma ScaleIsUnique(f: ScaleFactor, d: u32, r: int)
    requires RoundsHalfAway(f, d, r)
    ensures r == Scale(f, d)
  {
    var s := Scale(f, d);
    assert RoundsHalfAway(f, d, s);
    assert 2 * DENOMINATOR * r - 2 * DENOMINATOR * s < 2 * DENOMINATOR as int;
    assert 2 * DENOMINATOR * s - 2 * DENOMINATOR * r < 2 * DENOMINATOR as int;
  }

  /** The same rule on reals: the result lies in `(x - 1/2, x + 1/2]` where
      `x` is the exact product of the dimension and `AsReal(f)`, so a tie
      `x = k + 1/2` gives `k + 1`. */
  lemma ScaleIsNearestInteger(f: ScaleFactor, d: u32)
    ensures var x := d as real * AsReal(f);
      x - 0.5 < Scale(f, d) as real <= x + 0.5
  {
    var r := Scale(f, d);
    var n := f.numerator;
    var x := d as real * AsReal(f);
    assert x * 240.0 == 2.0 * (d * n) as real by {
      calc {
        x * 240.0;
        d as real * (AsReal(f) * 120.0) * 2.0;
        d as real * n as real * 2.0;
      }
    }
    assert -120 < 240 * r - 2 * (d * n) <= 120;
    assert -120.0 < 240.0 * r as real - 2.0 * (d * n) as real <= 120.0;
  }

  /** Scaling nothing gives nothing, and the identity scale 120/120 keeps
      every dimension. */
  lemma ScaleFixedPoints(f: ScaleFactor, d: u32)
    ensures Scale(f, 0) == 0
    ensures f.numerator == DENOMINATOR ==> Scale(f, d) == d
  {
    if f.numerator == DENOMINATOR {
      ScaleIsUnique(f, d, d);
    }
  }

  /** For a fixed scale, a larger dimension never scales to a smaller one. */
  lemma {:induction false} ScaleMonotone(f: ScaleFactor, d1: u32, d2: u32)
    requires d1 <= d2
    ensures Scale(f, d1) <= Scale(f, d2)
  {
    var n := f.numerator;
    assert d1 * n <= d2 * n by {
      MulLeMonotone(d1, d2, n);
    }
  }

  lemma {:induction false} MulLeMonotone(a: nat, b: nat, c: nat)
    requires a <= b
    ensures a * c <= b * c
  {
    if c > 0 {
      MulLeMonotone(a, b, c - 1);
      assert a * c == a * (c - 1) + a;
      assert b * c == b * (c - 1) + b;
    }
  }

  /** The compositor-side objects: the global manager, and the per-surface
      object whose user data records the surface it was created for. */
  datatype ScaleObject =
    | Manager
    | PerSurface(surface: nat)

  /** Events arriving on either object. The protocol defines only
      `preferred_scale`; anything else is an unknown opcode. */
  datatype ScaleEvent =
    | PreferredScale(scale: u32)
    | UnknownEvent(opcode: nat)

  /** A call into `FractionalScaleHandler::scale_factor_changed`. */
  datatype HandlerCall = ScaleFactorChanged(surface: nat, factor: ScaleFactor)

  /** What dispatching one event does: calls into the handler, or the
      `unimplemented!()` panic. */
  datatype Dispatched =
    | Handled(calls: seq<HandlerCall>)
    | Unimplemented

  /** `FractionalScaleManager::fractional_scaling`: the per-surface object
      remembers the surface it was requested for. */
  function FractionalScaling(surface: nat): (o: ScaleObject)
    ensures o.PerSurface? && o.surface == surface
  {
    PerSurface(surface)
  }

  /** The two `Dispatch::event` implementations. */
  function Dispatch(o: ScaleObject, e: ScaleEvent): (d: Dispatched)
    ensures d.Handled? <==> o.PerSurface? && e.PreferredScale?
    ensures d.Handled? ==>
              && |d.calls| == 1
              && d.calls[0].surface == o.surface
              && d.calls[0].factor.numerator == e.scale
  {
    match o
    case Manager => Unimplemented
    case PerSurface(surface) =>
      match e
      case PreferredScale(scale) => Handled([ScaleFactorChanged(surface, ScaleFactor(scale))])
      case UnknownEvent(_) => Unimplemented
  }

  /** A `preferred_scale` event on an object made for surface `s` reaches
      the handler exactly once, for `s`, with the announced numerator. */
  lemma PreferredScaleReachesCreatingSurface(s: nat, scale: u32)
    ensures Dispatch(FractionalScaling(s), PreferredScale(scale))
      == Handled([ScaleFactorChanged(s, ScaleFactor(scale))])
  {
  }
}
